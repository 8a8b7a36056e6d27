/** The gateway's non-blocking execution slots, and how they are carried across application rebuilds. */
module Concurrency {
  import opened Wrappers

  type Client = nat

  datatype Refusal = GatewayFull | ClientFull

  function CountOf(active: map<Client, nat>, client: Client): nat {
    if client in active then active[client] else 0
  }

  function Entered(active: map<Client, nat>, client: Client): map<Client, nat> {
    active[client := CountOf(active, client) + 1]
  }

  /** A counter that reaches zero is dropped. */
  function Left(active: map<Client, nat>, client: Client): map<Client, nat> {
    if CountOf(active, client) <= 1 then active - {client} else active[client := active[client] - 1]
  }

  predicate NoZeros(active: map<Client, nat>) { forall client :: client in active ==> active[client] > 0 }

  lemma EnterThenLeave(active: map<Client, nat>, client: Client)
    requires NoZeros(active)
    ensures Left(Entered(active, client), client) == active
    ensures NoZeros(Entered(active, client)) && NoZeros(Left(active, client))
  {
    if client !in active { assert Entered(active, client) - {client} == active; }
  }

  lemma CountsAfter(active: map<Client, nat>, client: Client, other: Client)
    ensures CountOf(Entered(active, client), other) == CountOf(active, other) + (if other == client then 1 else 0)
    ensures CountOf(active, client) > 0 ==>
              CountOf(Left(active, client), other) == CountOf(active, other) - (if other == client then 1 else 0)
  {
  }

  // ---------------------------------------------------------------- one reservation

  /** A counting semaphore that refuses to be released above its initial value. */
  class BoundedSemaphore {
    const limit: nat
    var free: nat

    ghost predicate Valid()
      reads this
    {
      free <= limit
    }

    constructor (limit: nat)
      ensures Valid() && this.limit == limit && free == limit
    {
      this.limit, free := limit, limit;
    }

    method TryAcquire() returns (acquired: bool)
      requires Valid()
      modifies this
      ensures Valid() && acquired == (old(free) > 0)
      ensures free == if acquired then old(free) - 1 else old(free)
    {
      acquired := free > 0;
      if acquired { free := free - 1; }
    }

    method Release() returns (r: Result<(), ()>)
      requires Valid()
      modifies this
      ensures Valid() && (r.Ok? <==> old(free) < limit)
      ensures free == if r.Ok? then old(free) + 1 else old(free)
    {
      if free >= limit { return Err(()); }
      free := free + 1;
      return Ok(());
    }
  }

  class ClientTable {
    var active: map<Client, nat>

    constructor ()
      ensures active == map[]
    {
      active := map[];
    }
  }

  class Reservation {
    const semaphore: BoundedSemaphore
    const table: ClientTable
    const client: Client
    var globalAcquired: bool
    var clientAcquired: bool

    /** What a reservation that is held says of the shared objects. */
    ghost predicate Held()
      reads this, semaphore, table
    {
      && semaphore.Valid() && NoZeros(table.active)
      && globalAcquired && clientAcquired && semaphore.free < semaphore.limit && client in table.active
    }

    constructor (semaphore: BoundedSemaphore, table: ClientTable, client: Client)
      ensures this.semaphore == semaphore && this.table == table && this.client == client
      ensures !globalAcquired && !clientAcquired
    {
      this.semaphore, this.table, this.client := semaphore, table, client;
      globalAcquired, clientAcquired := false, false;
    }

    /** Both slots or none: a refusal leaves the shared objects as they were. */
    static method Acquire(semaphore: BoundedSemaphore, table: ClientTable, perClientLimit: nat, client: Client)
      returns (r: Result<Reservation, Refusal>)
      requires semaphore.Valid() && NoZeros(table.active)
      modifies semaphore, table
      ensures semaphore.Valid() && NoZeros(table.active)
      ensures r == Err(GatewayFull) <==> old(semaphore.free) == 0
      ensures r == Err(ClientFull) <==> old(semaphore.free) > 0 && CountOf(old(table.active), client) >= perClientLimit
      ensures r.Err? ==> semaphore.free == old(semaphore.free) && table.active == old(table.active)
      ensures r.Ok? ==>
                && semaphore.free == old(semaphore.free) - 1
                && table.active == Entered(old(table.active), client)
                && fresh(r.value) && r.value.Held()
                && r.value.semaphore == semaphore && r.value.table == table && r.value.client == client
    {
      EnterThenLeave(table.active, client);
      var reservation := new Reservation(semaphore, table, client);
      var acquired := semaphore.TryAcquire();
      if !acquired { return Err(GatewayFull); }
      reservation.globalAcquired := true;
      var active := CountOf(table.active, client);
      if active >= perClientLimit {
        var released := semaphore.Release();
        reservation.globalAcquired := false;
        return Err(ClientFull);
      }
      table.active := table.active[client := active + 1];
      reservation.clientAcquired := true;
      return Ok(reservation);
    }

    /** Gives back what is held, once; the semaphore is never released above its limit. */
    method Release() returns (r: Result<(), ()>)
      requires semaphore.Valid() && NoZeros(table.active)
      requires globalAcquired || clientAcquired ==> Held()
      modifies this, semaphore, table
      ensures semaphore.Valid() && NoZeros(table.active) && r.Ok?
      ensures !globalAcquired && !clientAcquired
      ensures old(clientAcquired) ==>
                semaphore.free == old(semaphore.free) + 1 && table.active == Left(old(table.active), client)
      ensures !old(clientAcquired) ==> semaphore.free == old(semaphore.free) && table.active == old(table.active)
    {
      r := Ok(());
      EnterThenLeave(table.active, client);
      if clientAcquired {
        var active := CountOf(table.active, client);
        if active <= 1 { table.active := table.active - {client}; }
        else { table.active := table.active[client := active - 1]; }
        clientAcquired := false;
      }
      if globalAcquired {
        r := semaphore.Release();
        globalAcquired := false;
      }
    }
  }

  /** Acquiring and releasing leave the shared objects exactly as they were found, granted or not. */
  method AcquireAndRelease(semaphore: BoundedSemaphore, table: ClientTable, perClientLimit: nat, client: Client)
    requires semaphore.Valid() && NoZeros(table.active)
    modifies semaphore, table
    ensures semaphore.free == old(semaphore.free) && table.active == old(table.active)
  {
    EnterThenLeave(table.active, client);
    var r := Reservation.Acquire(semaphore, table, perClientLimit, client);
    if r.Ok? {
      var released := r.value.Release();
      released := r.value.Release();
    }
  }

  // ---------------------------------------------------------------- all threads, all rebuilds

  /** The admission state one application uses, shared by every rebuild that keeps the limits. */
  datatype Cell = Cell(limit: nat, perClient: nat, taken: nat, active: map<Client, nat>)

  /** Where the thread of one request is, between two atomic steps. */
  datatype Phase = Arrived | GlobalTaken | Denied | Running | ClientReturned | Over

  datatype Thread = Thread(cell: nat, client: Client, phase: Phase)

  /** `overReleased` records whether a semaphore was ever released above its limit. */
  datatype Gateway = Gateway(cells: seq<Cell>, current: nat, threads: map<nat, Thread>, overReleased: bool)

  datatype Action =
    | Arrive(thread: nat, client: Client, cell: nat)
    | TakeGlobal(thread: nat)
    | TakeClient(thread: nat)
    | ReturnClient(thread: nat)
    | ReturnGlobal(thread: nat)
    | Rebuild(limit: nat, perClient: nat)

  function Start(limit: nat, perClient: nat): Gateway {
    Gateway([Cell(limit, perClient, 0, map[])], 0, map[], false)
  }

  function Move(g: Gateway, thread: nat, cell: Cell, phase: Phase): Gateway
    requires thread in g.threads && g.threads[thread].cell < |g.cells|
  {
    g.(cells := g.cells[g.threads[thread].cell := cell],
       threads := g.threads[thread := g.threads[thread].(phase := phase)])
  }

  /** A rebuild keeps the admission state exactly when both limits are unchanged. */
  function Carry(g: Gateway, limit: nat, perClient: nat): Gateway
    requires g.current < |g.cells|
  {
    if g.cells[g.current].limit == limit && g.cells[g.current].perClient == perClient then g
    else g.(cells := g.cells + [Cell(limit, perClient, 0, map[])], current := |g.cells|)
  }

  /** One atomic step; `None` when no thread can take it. A request may still hold an application already replaced. */
  function Do(g: Gateway, a: Action): Option<Gateway> {
    match a
    case Arrive(thread, client, cell) =>
      if thread in g.threads || cell >= |g.cells| then None
      else Some(g.(threads := g.threads[thread := Thread(cell, client, Arrived)]))
    case Rebuild(limit, perClient) =>
      if g.current >= |g.cells| then None else Some(Carry(g, limit, perClient))
    case TakeGlobal(thread) =>
      if !At(g, thread, Arrived) then None
      else
        var c := g.cells[g.threads[thread].cell];
        Some(if c.taken < c.limit then Move(g, thread, c.(taken := c.taken + 1), GlobalTaken)
             else Move(g, thread, c, Over))
    case TakeClient(thread) =>
      if !At(g, thread, GlobalTaken) then None
      else
        var c, client := g.cells[g.threads[thread].cell], g.threads[thread].client;
        Some(if CountOf(c.active, client) >= c.perClient then Move(g, thread, c, Denied)
             else Move(g, thread, c.(active := Entered(c.active, client)), Running))
    case ReturnClient(thread) =>
      if !At(g, thread, Running) then None
      else
        var c := g.cells[g.threads[thread].cell];
        Some(Move(g, thread, c.(active := Left(c.active, g.threads[thread].client)), ClientReturned))
    case ReturnGlobal(thread) =>
      if !At(g, thread, Denied) && !At(g, thread, ClientReturned) then None else Some(GiveBack(g, thread))
  }

  predicate At(g: Gateway, thread: nat, phase: Phase) {
    thread in g.threads && g.threads[thread].cell < |g.cells| && g.threads[thread].phase == phase
  }

  function GiveBack(g: Gateway, thread: nat): Gateway
    requires thread in g.threads && g.threads[thread].cell < |g.cells|
  {
    var c := g.cells[g.threads[thread].cell];
    if c.taken == 0 then Move(g, thread, c, Over).(overReleased := true)
    else Move(g, thread, c.(taken := c.taken - 1), Over)
  }

  function Run(g: Gateway, actions: seq<Action>): Option<Gateway> {
    if actions == [] then Some(g)
    else
      match Run(g, actions[..|actions| - 1])
      case None => None
      case Some(before) => Do(before, actions[|actions| - 1])
  }

  predicate HoldsPermit(phase: Phase) { phase != Arrived && phase != Over }

  /** The threads past the global step of cell `i`. */
  function Holders(threads: map<nat, Thread>, i: nat): set<nat> {
    set t | t in threads && threads[t].cell == i && HoldsPermit(threads[t].phase)
  }

  /** The threads of one client that execute under cell `i`. */
  function Executing(threads: map<nat, Thread>, i: nat, client: Client): set<nat> {
    set t | t in threads && threads[t].cell == i && threads[t].client == client && threads[t].phase == Running
  }

  function InFlight(threads: map<nat, Thread>): set<nat> { set t | t in threads && HoldsPermit(threads[t].phase) }

  /** The shared numbers are exactly what the threads hold. */
  ghost predicate CellOk(g: Gateway, i: nat)
    requires i < |g.cells|
  {
    && g.cells[i].taken == |Holders(g.threads, i)| && g.cells[i].taken <= g.cells[i].limit
    && NoZeros(g.cells[i].active)
    && forall client: Client ::
         CountOf(g.cells[i].active, client) == |Executing(g.threads, i, client)|
         && CountOf(g.cells[i].active, client) <= g.cells[i].perClient
  }

  ghost predicate Inv(g: Gateway) {
    && g.current < |g.cells| && !g.overReleased
    && (forall t :: t in g.threads ==> g.threads[t].cell < |g.cells|)
    && (forall i :: 0 <= i < |g.cells| ==> CellOk(g, i))
  }

  lemma HoldersMove(threads: map<nat, Thread>, t: nat, phase: Phase, i: nat)
    requires t in threads
    ensures var moved := threads[t := threads[t].(phase := phase)];
            Holders(moved, i)
            == if threads[t].cell == i && HoldsPermit(phase) then Holders(threads, i) + {t}
               else Holders(threads, i) - {t}
  {
  }

  lemma ExecutingMove(threads: map<nat, Thread>, t: nat, phase: Phase, i: nat, client: Client)
    requires t in threads
    ensures var moved := threads[t := threads[t].(phase := phase)];
            Executing(moved, i, client)
            == if threads[t].cell == i && threads[t].client == client && phase == Running
               then Executing(threads, i, client) + {t} else Executing(threads, i, client) - {t}
  {
  }

  /** A cell no step has touched. */
  lemma CellStays(g: Gateway, h: Gateway, i: nat)
    requires i < |g.cells| && i < |h.cells| && CellOk(g, i) && h.cells[i] == g.cells[i]
    requires Holders(h.threads, i) == Holders(g.threads, i)
    requires forall client: Client :: Executing(h.threads, i, client) == Executing(g.threads, i, client)
    ensures CellOk(h, i)
  {
  }

  /** A thread that moves within one cell, and what that does to the other cells. */
  lemma OthersStay(g: Gateway, thread: nat, cell: Cell, phase: Phase, i: nat)
    requires Inv(g) && thread in g.threads && i < |g.cells| && i != g.threads[thread].cell
    ensures CellOk(Move(g, thread, cell, phase), i)
  {
    var h := Move(g, thread, cell, phase);
    HoldersMove(g.threads, thread, phase, i);
    forall client: Client ensures Executing(h.threads, i, client) == Executing(g.threads, i, client) {
      ExecutingMove(g.threads, thread, phase, i, client);
    }
    CellStays(g, h, i);
  }

  lemma MoveKeeps(g: Gateway, thread: nat, cell: Cell, phase: Phase)
    requires Inv(g) && thread in g.threads
    requires CellOk(Move(g, thread, cell, phase), g.threads[thread].cell)
    ensures Inv(Move(g, thread, cell, phase))
  {
    hide CellOk;
    var h := Move(g, thread, cell, phase);
    forall i | 0 <= i < |h.cells| ensures CellOk(h, i) {
      if i != g.threads[thread].cell { OthersStay(g, thread, cell, phase, i); }
    }
  }

  lemma TakeGlobalKeeps(g: Gateway, thread: nat)
    requires Inv(g) && At(g, thread, Arrived)
    ensures Inv(Do(g, TakeGlobal(thread)).value)
  {
    hide Executing, Holders;
    var i := g.threads[thread].cell;
    var c := g.cells[i];
    var phase := if c.taken < c.limit then GlobalTaken else Over;
    assert CellOk(g, i);
    HoldersMove(g.threads, thread, phase, i);
    NotHolding(g.threads, thread, i);
    forall client: Client
      ensures Executing(Move(g, thread, c, phase).threads, i, client) == Executing(g.threads, i, client)
    {
      ExecutingMove(g.threads, thread, phase, i, client);
      NotExecuting(g.threads, thread, i, client);
    }
    MoveKeeps(g, thread, if c.taken < c.limit then c.(taken := c.taken + 1) else c, phase);
  }

  lemma NotHolding(threads: map<nat, Thread>, t: nat, i: nat)
    requires t in threads && !HoldsPermit(threads[t].phase)
    ensures t !in Holders(threads, i)
  {
  }

  lemma NotExecuting(threads: map<nat, Thread>, t: nat, i: nat, client: Client)
    requires t in threads && threads[t].phase != Running
    ensures t !in Executing(threads, i, client) && Executing(threads, i, client) - {t} == Executing(threads, i, client)
  {
  }

  /** A cell whose counters follow the move of one thread. */
  lemma CellFollows(g: Gateway, thread: nat, cell: Cell, phase: Phase)
    requires Inv(g) && thread in g.threads
    requires var i := g.threads[thread].cell;
             && cell.limit == g.cells[i].limit && cell.perClient == g.cells[i].perClient
             && cell.taken == g.cells[i].taken && NoZeros(cell.active)
             && HoldsPermit(phase) && HoldsPermit(g.threads[thread].phase)
             && forall other: Client ::
                  CountOf(cell.active, other) == |Executing(Move(g, thread, cell, phase).threads, i, other)|
                  && CountOf(cell.active, other) <= cell.perClient
    ensures Inv(Move(g, thread, cell, phase))
  {
    hide Executing, NoZeros;
    var i := g.threads[thread].cell;
    assert CellOk(g, i);
    HoldersMove(g.threads, thread, phase, i);
    assert Holders(g.threads, i) + {thread} == Holders(g.threads, i);
    MoveKeeps(g, thread, cell, phase);
  }

  lemma TakeClientKeeps(g: Gateway, thread: nat)
    requires Inv(g) && At(g, thread, GlobalTaken)
    ensures Inv(Do(g, TakeClient(thread)).value)
  {
    hide Holders, Entered, NoZeros, CountOf;
    var i := g.threads[thread].cell;
    var c, client := g.cells[i], g.threads[thread].client;
    var full := CountOf(c.active, client) >= c.perClient;
    var phase, cell := if full then Denied else Running, if full then c else c.(active := Entered(c.active, client));
    assert CellOk(g, i);
    EnterThenLeave(c.active, client);
    forall other: Client
      ensures CountOf(cell.active, other) == |Executing(Move(g, thread, cell, phase).threads, i, other)|
      ensures CountOf(cell.active, other) <= cell.perClient
    {
      ExecutingMove(g.threads, thread, phase, i, other);
      assert thread !in Executing(g.threads, i, other);
      CountsAfter(c.active, client, other);
    }
    CellFollows(g, thread, cell, phase);
  }

  lemma ReturnClientKeeps(g: Gateway, thread: nat)
    requires Inv(g) && At(g, thread, Running)
    ensures Inv(Do(g, ReturnClient(thread)).value)
  {
    hide Holders, Left, NoZeros, CountOf;
    var i := g.threads[thread].cell;
    var c, client := g.cells[i], g.threads[thread].client;
    var cell := c.(active := Left(c.active, client));
    assert CellOk(g, i);
    assert thread in Executing(g.threads, i, client);
    EnterThenLeave(c.active, client);
    forall other: Client
      ensures CountOf(cell.active, other) == |Executing(Move(g, thread, cell, ClientReturned).threads, i, other)|
      ensures CountOf(cell.active, other) <= cell.perClient
    {
      ExecutingMove(g.threads, thread, ClientReturned, i, other);
      assert thread in Executing(g.threads, i, other) <==> other == client;
      CountsAfter(c.active, client, other);
    }
    CellFollows(g, thread, cell, ClientReturned);
  }

  lemma ReturnGlobalKeeps(g: Gateway, thread: nat)
    requires Inv(g) && (At(g, thread, Denied) || At(g, thread, ClientReturned))
    ensures Inv(Do(g, ReturnGlobal(thread)).value)
  {
    var i := g.threads[thread].cell;
    var c := g.cells[i];
    assert CellOk(g, i);
    assert thread in Holders(g.threads, i);
    HoldersMove(g.threads, thread, Over, i);
    forall other: Client { ExecutingMove(g.threads, thread, Over, i, other); }
    MoveKeeps(g, thread, c.(taken := c.taken - 1), Over);
  }

  lemma ArriveKeeps(g: Gateway, thread: nat, client: Client, cell: nat)
    requires Inv(g) && Do(g, Arrive(thread, client, cell)).Some?
    ensures Inv(Do(g, Arrive(thread, client, cell)).value)
  {
    var h := Do(g, Arrive(thread, client, cell)).value;
    forall i | 0 <= i < |h.cells| ensures CellOk(h, i) {
      assert Holders(h.threads, i) == Holders(g.threads, i);
      forall other: Client ensures Executing(h.threads, i, other) == Executing(g.threads, i, other) { }
      CellStays(g, h, i);
    }
  }

  lemma RebuildKeeps(g: Gateway, limit: nat, perClient: nat)
    requires Inv(g)
    ensures Inv(Carry(g, limit, perClient))
  {
    var h := Carry(g, limit, perClient);
    forall i | 0 <= i < |h.cells| ensures CellOk(h, i) {
      if i < |g.cells| {
        CellStays(g, h, i);
      } else {
        assert Holders(h.threads, i) == {};
        forall other: Client ensures Executing(h.threads, i, other) == {} { }
      }
    }
  }

  lemma DoKeeps(g: Gateway, a: Action)
    requires Inv(g) && Do(g, a).Some?
    ensures Inv(Do(g, a).value)
  {
    match a {
      case Arrive(thread, client, cell) => ArriveKeeps(g, thread, client, cell);
      case TakeGlobal(thread) => TakeGlobalKeeps(g, thread);
      case TakeClient(thread) => TakeClientKeeps(g, thread);
      case ReturnClient(thread) => ReturnClientKeeps(g, thread);
      case ReturnGlobal(thread) => ReturnGlobalKeeps(g, thread);
      case Rebuild(limit, perClient) => RebuildKeeps(g, limit, perClient);
    }
  }

  /** In every reachable state the shared numbers are what the threads hold, and no semaphore was over-released. */
  lemma {:induction false} Accounted(limit: nat, perClient: nat, actions: seq<Action>)
    requires Run(Start(limit, perClient), actions).Some?
    ensures Inv(Run(Start(limit, perClient), actions).value)
  {
    if actions == [] {
      var g := Start(limit, perClient);
      assert Holders(g.threads, 0) == {};
      forall other: Client ensures Executing(g.threads, 0, other) == {} { }
    } else {
      Accounted(limit, perClient, actions[..|actions| - 1]);
      DoKeeps(Run(Start(limit, perClient), actions[..|actions| - 1]).value, actions[|actions| - 1]);
    }
  }

  // ---------------------------------------------------------------- every thread gets on

  /** The one step a thread takes next. */
  function NextOf(g: Gateway, thread: nat): Action
    requires thread in g.threads && g.threads[thread].phase != Over
  {
    match g.threads[thread].phase
    case Arrived => TakeGlobal(thread)
    case GlobalTaken => TakeClient(thread)
    case Running => ReturnClient(thread)
    case Denied | ClientReturned => ReturnGlobal(thread)
  }

  /** Where that step leads, told by the other threads alone: who holds a permit, and who executes for this client. */
  function LeadsTo(g: Gateway, thread: nat): Phase
    requires thread in g.threads && g.threads[thread].phase != Over && g.threads[thread].cell < |g.cells|
  {
    var i, client := g.threads[thread].cell, g.threads[thread].client;
    match g.threads[thread].phase
    case Arrived => if |Holders(g.threads, i)| < g.cells[i].limit then GlobalTaken else Over
    case GlobalTaken => if |Executing(g.threads, i, client)| < g.cells[i].perClient then Running else Denied
    case Running => ClientReturned
    case Denied | ClientReturned => Over
  }

  predicate SameLimits(g: Gateway, h: Gateway) {
    && |h.cells| == |g.cells| && h.current == g.current
    && forall i :: 0 <= i < |g.cells| ==>
         h.cells[i].limit == g.cells[i].limit && h.cells[i].perClient == g.cells[i].perClient
  }

  /**
   * In every reachable state the next step of every thread can be taken: a request is admitted exactly while fewer
   * permits are held and fewer requests of its client execute than the limits allow, and what is held can be returned.
   */
  lemma EveryThreadMoves(g: Gateway, thread: nat)
    requires Inv(g) && thread in g.threads && g.threads[thread].phase != Over
    ensures Do(g, NextOf(g, thread)).Some?
    ensures var h := Do(g, NextOf(g, thread)).value;
            && Inv(h) && SameLimits(g, h)
            && h.threads == g.threads[thread := g.threads[thread].(phase := LeadsTo(g, thread))]
  {
    hide Holders, Executing, Entered, Left, CountOf;
    assert CellOk(g, g.threads[thread].cell);
    if g.threads[thread].phase == Denied || g.threads[thread].phase == ClientReturned { HoldsOne(g, thread); }
    DoKeeps(g, NextOf(g, thread));
  }

  lemma HoldsOne(g: Gateway, thread: nat)
    requires Inv(g) && thread in g.threads && HoldsPermit(g.threads[thread].phase)
    ensures g.cells[g.threads[thread].cell].taken > 0
  {
    assert CellOk(g, g.threads[thread].cell);
    assert thread in Holders(g.threads, g.threads[thread].cell);
  }

  lemma {:induction false} RunOn(g: Gateway, front: seq<Action>, back: seq<Action>)
    requires Run(g, front).Some?
    ensures Run(g, front + back) == Run(Run(g, front).value, back)
  {
    if back == [] {
      assert front + back == front;
    } else {
      RunOn(g, front, back[..|back| - 1]);
      assert (front + back)[..|front + back| - 1] == front + back[..|back| - 1];
    }
  }

  function StepsLeft(phase: Phase): nat {
    match phase
    case Arrived => 4
    case GlobalTaken => 3
    case Running => 2
    case Denied | ClientReturned => 1
    case Over => 0
  }

  /** Whatever the other threads hold, one thread can go on to its end by its own steps. */
  lemma {:induction false} Ends(g: Gateway, thread: nat) returns (actions: seq<Action>)
    requires Inv(g) && thread in g.threads
    ensures Run(g, actions).Some? && Rebuilds(actions) == []
    ensures var h := Run(g, actions).value;
            Inv(h) && SameLimits(g, h) && h.threads == g.threads[thread := g.threads[thread].(phase := Over)]
    decreases StepsLeft(g.threads[thread].phase)
  {
    hide Inv, Do, Run, Rebuilds;
    if g.threads[thread].phase == Over {
      RunNothing(g);
      RebuildsNothing();
      return [];
    }
    InCell(g, thread);
    EveryThreadMoves(g, thread);
    var a := NextOf(g, thread);
    var h := Do(g, a).value;
    RunNothing(g);
    Extend(g, [], g, a, h);
    var rest := Ends(h, thread);
    RunOn(g, [] + [a], rest);
    RebuildsNothing();
    RebuildsAppend([], a);
    RebuildsJoin([] + [a], rest);
    return [] + [a] + rest;
  }

  lemma InCell(g: Gateway, thread: nat)
    requires Inv(g) && thread in g.threads
    ensures g.threads[thread].cell < |g.cells|
  {
  }

  lemma RebuildsNothing()
    ensures Rebuilds([]) == []
  {
  }

  lemma {:induction false} RebuildsJoin(front: seq<Action>, back: seq<Action>)
    ensures Rebuilds(front + back) == Rebuilds(front) + Rebuilds(back)
  {
    if back == [] {
      assert front + back == front;
    } else {
      RebuildsJoin(front, back[..|back| - 1]);
      assert (front + back)[..|front + back| - 1] == front + back[..|back| - 1];
    }
  }

  lemma InFlightIs(threads: map<nat, Thread>, t: nat)
    requires t in InFlight(threads)
    ensures t in threads
  {
  }

  lemma OneLess(threads: map<nat, Thread>, t: nat)
    requires t in InFlight(threads)
    ensures InFlight(threads[t := threads[t].(phase := Over)]) == InFlight(threads) - {t}
  {
  }

  /** From every reachable state everything that is held can be given back, and then all slots are free. */
  lemma {:induction false} CanDrain(g: Gateway) returns (actions: seq<Action>)
    requires Inv(g)
    ensures Run(g, actions).Some? && Rebuilds(actions) == []
    ensures var h := Run(g, actions).value;
            && Inv(h) && SameLimits(g, h) && h.threads.Keys == g.threads.Keys && InFlight(h.threads) == {}
            && forall i :: 0 <= i < |h.cells| ==> h.cells[i].taken == 0 && h.cells[i].active == map[]
    decreases |InFlight(g.threads)|
  {
    hide Inv, Run, Rebuilds, InFlight;
    if InFlight(g.threads) == {} {
      RunNothing(g);
      RebuildsNothing();
      AllFree(g);
      return [];
    }
    var t :| t in InFlight(g.threads);
    InFlightIs(g.threads, t);
    var first := Ends(g, t);
    var h := Run(g, first).value;
    OneLess(g.threads, t);
    var rest := CanDrain(h);
    RunOn(g, first, rest);
    RebuildsJoin(first, rest);
    return first + rest;
  }

  lemma AllFree(g: Gateway)
    requires Inv(g) && InFlight(g.threads) == {}
    ensures forall i :: 0 <= i < |g.cells| ==> g.cells[i].taken == 0 && g.cells[i].active == map[]
  {
    forall i | 0 <= i < |g.cells| ensures g.cells[i].taken == 0 && g.cells[i].active == map[] {
      assert CellOk(g, i);
      assert Holders(g.threads, i) <= InFlight(g.threads);
      forall client: Client ensures client !in g.cells[i].active {
        assert Executing(g.threads, i, client) <= InFlight(g.threads);
        assert CountOf(g.cells[i].active, client) == 0;
      }
    }
  }

  /** Nobody is locked out: whatever happened before, a later request of any client can come to execute. */
  lemma {:induction false} NobodyIsLockedOut(
    limit: nat, perClient: nat, before: seq<Action>, thread: nat, client: Client, cell: nat)
    returns (more: seq<Action>)
    requires Run(Start(limit, perClient), before).Some?
    requires var g := Run(Start(limit, perClient), before).value;
             && thread !in g.threads && cell < |g.cells| && g.cells[cell].limit > 0 && g.cells[cell].perClient > 0
    ensures Run(Start(limit, perClient), before + more).Some? && Rebuilds(more) == []
    ensures At(Run(Start(limit, perClient), before + more).value, thread, Running)
  {
    hide Run, Rebuilds, Inv;
    var start := Start(limit, perClient);
    Accounted(limit, perClient, before);
    var g := Run(start, before).value;
    var drain := CanDrain(g);
    Admitted(g, drain, Run(g, drain).value, thread, client, cell);
    more := drain + [Arrive(thread, client, cell)] + [TakeGlobal(thread)] + [TakeClient(thread)];
    RebuildsAppend(drain, Arrive(thread, client, cell));
    RebuildsAppend(drain + [Arrive(thread, client, cell)], TakeGlobal(thread));
    RebuildsAppend(drain + [Arrive(thread, client, cell)] + [TakeGlobal(thread)], TakeClient(thread));
    RunOn(start, before, more);
  }

  // ---------------------------------------------------------------- the bound across rebuilds

  /** The limits in force, one after the other. */
  function Sum(cells: seq<Cell>): nat {
    if cells == [] then 0 else Sum(cells[..|cells| - 1]) + cells[|cells| - 1].limit
  }

  function Below(threads: map<nat, Thread>, n: nat): set<nat> {
    set t | t in threads && HoldsPermit(threads[t].phase) && threads[t].cell < n
  }

  lemma {:induction false} BelowBound(g: Gateway, n: nat)
    requires Inv(g) && n <= |g.cells|
    ensures |Below(g.threads, n)| <= Sum(g.cells[..n])
  {
    if n == 0 {
      assert Below(g.threads, 0) == {};
    } else {
      BelowBound(g, n - 1);
      assert g.cells[..n][..n - 1] == g.cells[..n - 1];
      assert CellOk(g, n - 1);
      assert Below(g.threads, n) == Below(g.threads, n - 1) + Holders(g.threads, n - 1);
    }
  }

  /** However often the configuration changed, the permits held stay within the limits that were in force. */
  lemma {:induction false} InFlightBound(limit: nat, perClient: nat, actions: seq<Action>)
    requires Run(Start(limit, perClient), actions).Some?
    ensures var g := Run(Start(limit, perClient), actions).value; |InFlight(g.threads)| <= Sum(g.cells)
  {
    Accounted(limit, perClient, actions);
    var g := Run(Start(limit, perClient), actions).value;
    BelowBound(g, |g.cells|);
    assert g.cells[..|g.cells|] == g.cells;
    assert InFlight(g.threads) == Below(g.threads, |g.cells|);
  }

  predicate LimitsKept(actions: seq<Action>, limit: nat, perClient: nat) {
    forall a :: a in actions && a.Rebuild? ==> a.limit == limit && a.perClient == perClient
  }

  /** Rebuilds that keep the limits keep the one cell, so they can never raise the total above the limit. */
  lemma {:induction false} UnchangedLimitsHold(limit: nat, perClient: nat, actions: seq<Action>)
    requires Run(Start(limit, perClient), actions).Some? && LimitsKept(actions, limit, perClient)
    ensures var g := Run(Start(limit, perClient), actions).value;
            && |InFlight(g.threads)| <= limit
            && forall client: Client :: |Executing(g.threads, 0, client)| <= perClient
  {
    InFlightBound(limit, perClient, actions);
    OneCell(limit, perClient, actions);
    Accounted(limit, perClient, actions);
    var g := Run(Start(limit, perClient), actions).value;
    assert g.cells[..0] == [];
    assert CellOk(g, 0);
  }

  lemma {:induction false} OneCell(limit: nat, perClient: nat, actions: seq<Action>)
    requires Run(Start(limit, perClient), actions).Some? && LimitsKept(actions, limit, perClient)
    ensures var g := Run(Start(limit, perClient), actions).value;
            |g.cells| == 1 && g.current == 0 && g.cells[0].limit == limit && g.cells[0].perClient == perClient
  {
    if actions != [] { OneCell(limit, perClient, actions[..|actions| - 1]); }
  }

  lemma {:induction false} Extend(g: Gateway, front: seq<Action>, mid: Gateway, a: Action, after: Gateway)
    requires Run(g, front) == Some(mid) && Do(mid, a) == Some(after)
    ensures Run(g, front + [a]) == Some(after)
  {
    assert (front + [a])[..|front|] == front;
  }

  /** One request alone in its cell takes both slots. */
  lemma {:induction false} Admitted(
    g: Gateway, front: seq<Action>, mid: Gateway, thread: nat, client: Client, cell: nat)
    requires Run(g, front) == Some(mid) && thread !in mid.threads && cell < |mid.cells|
    requires mid.cells[cell].taken == 0 && mid.cells[cell].active == map[]
    requires mid.cells[cell].limit > 0 && mid.cells[cell].perClient > 0
    ensures var actions := front + [Arrive(thread, client, cell)] + [TakeGlobal(thread)] + [TakeClient(thread)];
            && Run(g, actions).Some?
            && var after := Run(g, actions).value;
            && after.threads == mid.threads[thread := Thread(cell, client, Running)]
            && after.cells == mid.cells[cell := mid.cells[cell].(taken := 1, active := map[client := 1])]
            && after.current == mid.current
  {
    hide Run;
    var c := mid.cells[cell];
    var full := c.(taken := 1, active := map[client := 1]);
    var a1 := mid.(threads := mid.threads[thread := Thread(cell, client, Arrived)]);
    Extend(g, front, mid, Arrive(thread, client, cell), a1);
    var a2 := Move(a1, thread, c.(taken := 1), GlobalTaken);
    Extend(g, front + [Arrive(thread, client, cell)], a1, TakeGlobal(thread), a2);
    var a3 := Move(a2, thread, full, Running);
    assert Entered(map[], client) == map[client := 1];
    Extend(g, front + [Arrive(thread, client, cell)] + [TakeGlobal(thread)], a2, TakeClient(thread), a3);
  }

  // ---------------------------------------------------------------- the bound is reached

  /** The limits of the rebuilds of a run, in order. */
  function Rebuilds(actions: seq<Action>): seq<(nat, nat)> {
    if actions == [] then []
    else
      var last := actions[|actions| - 1];
      Rebuilds(actions[..|actions| - 1]) + (if last.Rebuild? then [(last.limit, last.perClient)] else [])
  }

  /** Every thread executes, each for a client of its own, and the last cell has `free` slots left. */
  ghost predicate Packed(g: Gateway, free: nat) {
    && g.cells != [] && g.current == |g.cells| - 1
    && (forall t: nat :: t in g.threads <==> t < |g.threads|)
    && (forall t :: t in g.threads ==> g.threads[t].phase == Running)
    && |g.threads| + free == Sum(g.cells)
    && var c := g.cells[g.current];
    && c.taken + free == c.limit && c.perClient > 0
    && forall client: Client :: client >= |g.threads| ==> client !in c.active
  }

  lemma SumFront(cells: seq<Cell>, c: Cell)
    ensures Sum(cells + [c]) == Sum(cells) + c.limit
  {
    assert (cells + [c])[..|cells|] == cells;
  }

  lemma SumLast(cells: seq<Cell>, c: Cell)
    requires cells != [] && c.limit == cells[|cells| - 1].limit
    ensures Sum(cells[|cells| - 1 := c]) == Sum(cells)
  {
    assert cells[|cells| - 1 := c][..|cells| - 1] == cells[..|cells| - 1];
  }

  lemma OneMoreKey(threads: map<nat, Thread>, t: nat, thread: Thread)
    requires t !in threads
    ensures |threads[t := thread]| == |threads| + 1
  {
    var more := threads[t := thread];
    assert more.Keys == threads.Keys + {t};
    assert |more.Keys| == |more| && |threads.Keys| == |threads|;
  }

  /** The last cell with one more request, of a client of its own. */
  function PackMore(g: Gateway): Gateway
    requires g.current < |g.cells|
  {
    var n, c := |g.threads|, g.cells[g.current];
    g.(cells := g.cells[g.current := c.(taken := c.taken + 1, active := Entered(c.active, n))],
       threads := g.threads[n := Thread(g.current, n, Running)])
  }

  lemma SameCells(g: Gateway)
    requires g.current == |g.cells| - 1
    ensures var h := PackMore(g);
            && h.current == g.current && |h.cells| == |g.cells| && h.cells[..g.current] == g.cells[..g.current]
            && h.cells[g.current].limit == g.cells[g.current].limit
            && h.cells[g.current].perClient == g.cells[g.current].perClient
  {
  }

  /** One more request takes both slots of the last cell. */
  lemma PackSteps(g: Gateway, free: nat)
    requires Packed(g, free) && free > 0
    ensures var n := |g.threads|;
            && Do(g, Arrive(n, n, g.current)).Some?
            && var g1 := Do(g, Arrive(n, n, g.current)).value;
            && Do(g1, TakeGlobal(n)).Some?
            && var g2 := Do(g1, TakeGlobal(n)).value;
            && g.current < |g.cells| && Do(g2, TakeClient(n)) == Some(PackMore(g))
  {
    hide Sum;
    var n := |g.threads|;
    var g1 := Do(g, Arrive(n, n, g.current)).value;
    var g2 := Do(g1, TakeGlobal(n)).value;
    var g3 := Do(g2, TakeClient(n)).value;
    assert g3.threads == g.threads[n := Thread(g.current, n, Running)];
    assert g3.cells == PackMore(g).cells;
  }

  lemma PackedMore(g: Gateway, free: nat)
    requires Packed(g, free) && free > 0
    ensures Packed(PackMore(g), free - 1)
  {
    hide Sum;
    var n, c := |g.threads|, g.cells[g.current];
    OneMoreKey(g.threads, n, Thread(g.current, n, Running));
    SumLast(g.cells, c.(taken := c.taken + 1, active := Entered(c.active, n)));
  }

  lemma {:induction false} RebuildsAppend(actions: seq<Action>, a: Action)
    ensures Rebuilds(actions + [a]) == Rebuilds(actions) + (if a.Rebuild? then [(a.limit, a.perClient)] else [])
  {
    assert (actions + [a])[..|actions|] == actions;
  }

  /** The last cell is filled, one request after the other. */
  lemma {:induction false} Fill(start: Gateway, front: seq<Action>, g: Gateway, free: nat)
    returns (actions: seq<Action>)
    requires Run(start, front) == Some(g) && Packed(g, free)
    ensures Run(start, actions).Some? && Packed(Run(start, actions).value, 0)
    ensures |Run(start, actions).value.cells| == |g.cells| == g.current + 1
    ensures Run(start, actions).value.cells[..g.current] == g.cells[..g.current]
    ensures Run(start, actions).value.cells[g.current].limit == g.cells[g.current].limit
    ensures Run(start, actions).value.cells[g.current].perClient == g.cells[g.current].perClient
    ensures Rebuilds(actions) == Rebuilds(front)
    decreases free
  {
    hide Run, Packed;
    PackedIs(g, free);
    if free == 0 { return front; }
    var n := |g.threads|;
    PackSteps(g, free);
    PackedMore(g, free);
    SameCells(g);
    var a, b, c := Arrive(n, n, g.current), TakeGlobal(n), TakeClient(n);
    var g1 := Do(g, a).value;
    var g2 := Do(g1, b).value;
    var g3 := PackMore(g);
    hide Do, PackMore, Rebuilds;
    ThreeMore(start, front, g, a, g1, b, g2, c, g3);
    actions := Fill(start, front + [a] + [b] + [c], g3, free - 1);
  }

  lemma ThreeMore(
    start: Gateway, front: seq<Action>, g: Gateway, a: Action, g1: Gateway, b: Action, g2: Gateway,
    c: Action, g3: Gateway)
    requires Run(start, front) == Some(g) && Do(g, a) == Some(g1) && Do(g1, b) == Some(g2) && Do(g2, c) == Some(g3)
    requires !a.Rebuild? && !b.Rebuild? && !c.Rebuild?
    ensures Run(start, front + [a] + [b] + [c]) == Some(g3)
    ensures Rebuilds(front + [a] + [b] + [c]) == Rebuilds(front)
  {
    hide Run, Do, Rebuilds;
    Extend(start, front, g, a, g1);
    Extend(start, front + [a], g1, b, g2);
    Extend(start, front + [a] + [b], g2, c, g3);
    RebuildsAppend(front, a);
    RebuildsAppend(front + [a], b);
    RebuildsAppend(front + [a] + [b], c);
  }

  lemma PackedIs(g: Gateway, free: nat)
    requires Packed(g, free)
    ensures g.cells != [] && g.current == |g.cells| - 1
  {
    hide Sum;
  }

  predicate Positive(limits: seq<(nat, nat)>) {
    forall i :: 0 <= i < |limits| ==> limits[i].0 > 0 && limits[i].1 > 0
  }

  predicate AllPositive(cells: seq<Cell>) { forall i :: 0 <= i < |cells| ==> cells[i].limit > 0 }

  /** Every rebuild keeps both limits. */
  predicate AllKeep(rebuilds: seq<(nat, nat)>, limit: nat, perClient: nat) {
    forall i :: 0 <= i < |rebuilds| ==> rebuilds[i] == (limit, perClient)
  }

  /** A full gateway stays full, and has one more cell exactly if the rebuild changes a limit. */
  lemma Refilled(start: Gateway, front: seq<Action>, g: Gateway, limit: nat, perClient: nat)
    returns (actions: seq<Action>)
    requires Run(start, front) == Some(g) && Packed(g, 0) && AllPositive(g.cells) && limit > 0 && perClient > 0
    ensures Rebuilds(actions) == Rebuilds(front) + [(limit, perClient)]
    ensures Run(start, actions).Some?
    ensures var h := Run(start, actions).value;
            && Packed(h, 0) && AllPositive(h.cells) && h.cells != [] && h.current == |h.cells| - 1
            && h.cells[h.current].limit == limit && h.cells[h.current].perClient == perClient
            && |h.cells| >= |g.cells|
            && (g.cells != [] && g.current == |g.cells| - 1)
            && (|h.cells| == |g.cells| ==>
                  g.cells[g.current].limit == limit && g.cells[g.current].perClient == perClient)
  {
    hide Run, Sum;
    var h := Do(g, Rebuild(limit, perClient)).value;
    Extend(start, front, g, Rebuild(limit, perClient), h);
    RebuildsAppend(front, Rebuild(limit, perClient));
    if g.cells[g.current].limit == limit && g.cells[g.current].perClient == perClient {
      actions := front + [Rebuild(limit, perClient)];
    } else {
      SumFront(g.cells, Cell(limit, perClient, 0, map[]));
      assert Packed(h, limit);
      actions := Fill(start, front + [Rebuild(limit, perClient)], h, limit);
      var full := Run(start, actions).value;
      PackedIs(full, 0);
      assert forall i :: 0 <= i < |g.cells| ==> full.cells[i] == full.cells[..h.current][i];
    }
  }

  /** For any rebuilds a run with exactly those fills every cell that was ever in force with requests that execute. */
  lemma {:induction false} EveryCellFills(limit: nat, perClient: nat, rebuilds: seq<(nat, nat)>)
    returns (actions: seq<Action>)
    requires limit > 0 && perClient > 0 && Positive(rebuilds)
    ensures Rebuilds(actions) == rebuilds && Run(Start(limit, perClient), actions).Some?
    ensures var g := Run(Start(limit, perClient), actions).value;
            && Packed(g, 0) && AllPositive(g.cells) && g.cells != [] && g.current == |g.cells| - 1
            && (|g.cells| == 1 ==>
                  AllKeep(rebuilds, limit, perClient)
                  && g.cells[0].limit == limit && g.cells[0].perClient == perClient)
  {
    hide Run, Packed;
    var start := Start(limit, perClient);
    if rebuilds == [] {
      RunNothing(start);
      assert Packed(start, limit) by { OneEmptyCell(limit, perClient); }
      actions := Fill(start, [], start, limit);
      PackedIs(Run(start, actions).value, 0);
    } else {
      var front, last := rebuilds[..|rebuilds| - 1], rebuilds[|rebuilds| - 1];
      var before := EveryCellFills(limit, perClient, front);
      actions := Refilled(start, before, Run(start, before).value, last.0, last.1);
      assert rebuilds == front + [last];
    }
  }

  lemma OneEmptyCell(limit: nat, perClient: nat)
    requires perClient > 0
    ensures Packed(Start(limit, perClient), limit)
  {
    SumFront([], Cell(limit, perClient, 0, map[]));
    assert [] + [Cell(limit, perClient, 0, map[])] == [Cell(limit, perClient, 0, map[])];
  }

  /** The bound over all the limits ever in force is reached, whatever the rebuilds were. */
  lemma InFlightBoundIsTight(limit: nat, perClient: nat, rebuilds: seq<(nat, nat)>)
    requires limit > 0 && perClient > 0 && Positive(rebuilds)
    ensures exists actions: seq<Action> ::
              && Rebuilds(actions) == rebuilds && Run(Start(limit, perClient), actions).Some?
              && var g := Run(Start(limit, perClient), actions).value;
              |InFlight(g.threads)| == Sum(g.cells)
  {
    hide Run, Sum;
    var actions := EveryCellFills(limit, perClient, rebuilds);
    AllInFlight(Run(Start(limit, perClient), actions).value);
  }

  lemma AllInFlight(g: Gateway)
    requires Packed(g, 0)
    ensures |InFlight(g.threads)| == Sum(g.cells)
  {
    hide Sum;
    assert InFlight(g.threads) == g.threads.Keys;
    assert |g.threads.Keys| == |g.threads|;
  }

  /** The permits held are within the limit in force now. */
  ghost predicate WithinLimit(g: Gateway) {
    g.current < |g.cells| && |InFlight(g.threads)| <= g.cells[g.current].limit
  }

  /** Every run with these rebuilds ends within the limit in force. */
  ghost predicate AlwaysWithin(limit: nat, perClient: nat, rebuilds: seq<(nat, nat)>) {
    forall actions: seq<Action> ::
      Rebuilds(actions) == rebuilds && Run(Start(limit, perClient), actions).Some? ==>
        WithinLimit(Run(Start(limit, perClient), actions).value)
  }

  /** Carrying the admission state keeps the total within the limit exactly for rebuilds that keep both limits. */
  lemma WithinLimitIff(limit: nat, perClient: nat, rebuilds: seq<(nat, nat)>)
    requires limit > 0 && perClient > 0 && Positive(rebuilds)
    ensures AlwaysWithin(limit, perClient, rebuilds) <==> AllKeep(rebuilds, limit, perClient)
  {
    hide Run, Sum;
    if AllKeep(rebuilds, limit, perClient) {
      forall actions: seq<Action> | Rebuilds(actions) == rebuilds && Run(Start(limit, perClient), actions).Some?
        ensures WithinLimit(Run(Start(limit, perClient), actions).value)
      {
        KeepingIs(actions, limit, perClient);
        UnchangedLimitsHold(limit, perClient, actions);
        OneCell(limit, perClient, actions);
      }
    } else {
      var actions := EveryCellFills(limit, perClient, rebuilds);
      var g := Run(Start(limit, perClient), actions).value;
      AllInFlight(g);
      SumExceedsLast(g.cells);
    }
  }

  lemma {:induction false} KeepingIs(actions: seq<Action>, limit: nat, perClient: nat)
    ensures AllKeep(Rebuilds(actions), limit, perClient) <==> LimitsKept(actions, limit, perClient)
  {
    if actions != [] {
      var front, last := actions[..|actions| - 1], actions[|actions| - 1];
      KeepingIs(front, limit, perClient);
      var before, all := Rebuilds(front), Rebuilds(actions);
      assert forall a :: a in actions <==> a in front || a == last;
      assert forall i :: 0 <= i < |before| ==> all[i] == before[i];
      if last.Rebuild? { assert all[|before|] == (last.limit, last.perClient); }
    }
  }

  lemma SumExceedsLast(cells: seq<Cell>)
    requires |cells| >= 2 && AllPositive(cells)
    ensures Sum(cells) > cells[|cells| - 1].limit
  {
    var front := cells[..|cells| - 1];
    assert Sum(front) == Sum(front[..|front| - 1]) + front[|front| - 1].limit;
  }

  /** A limit that is changed and changed back starts afresh: two requests run under a limit of one. */
  lemma {:induction false} ChangingBackForgets()
    ensures exists actions: seq<Action> ::
              && Run(Start(1, 1), actions).Some?
              && var g := Run(Start(1, 1), actions).value;
              g.current < |g.cells| && g.cells[g.current].limit == 1 && |InFlight(g.threads)| == 2
  {
    hide Run;
    var start := Start(1, 1);
    assert Run(start, []) == Some(start) by { RunNothing(start); }
    Admitted(start, [], start, 1, 7, 0);
    var first := [] + [Arrive(1, 7, 0)] + [TakeGlobal(1)] + [TakeClient(1)];
    var g1 := Run(start, first).value;
    var g2 := Do(g1, Rebuild(2, 1)).value;
    Extend(start, first, g1, Rebuild(2, 1), g2);
    var g3 := Do(g2, Rebuild(1, 1)).value;
    Extend(start, first + [Rebuild(2, 1)], g2, Rebuild(1, 1), g3);
    var rebuilt := first + [Rebuild(2, 1)] + [Rebuild(1, 1)];
    Admitted(start, rebuilt, g3, 2, 7, 2);
    var actions := rebuilt + [Arrive(2, 7, 2)] + [TakeGlobal(2)] + [TakeClient(2)];
    var g := Run(start, actions).value;
    assert InFlight(g.threads) == {1, 2};
  }

  lemma {:induction false} RunNothing(g: Gateway)
    ensures Run(g, []) == Some(g)
  {
  }
}
