/**
 * Every interleaving of the threads that share one continuation registry: dispatching legs that
 * register suspensions, continuation legs that claim, check, deliver and close, releases, and the reaper.
 * One action is one lock region, or one step a thread takes between two of them; clock readings are arbitrary.
 */
module ContinuationProtocol {
  import opened Wrappers
  import opened Continuation

  // ---------------------------------------------------------------- the life of one token

  /** What happened to one token, in order. `leg` numbers the request whose thread took the step. */
  datatype Act =
    | Registered
    | Claimed(leg: nat)
    | Released
    | Removed
    | CancelRan
    | Delivered(leg: nat, checked: int)

  datatype Stage = Unborn | Idle | Held(holder: nat) | Gone(cancelled: bool)

  /** `entitled` are the legs that claimed the token and have not delivered. */
  datatype Life = Life(stage: Stage, entitled: set<nat>)

  /** The only order in which things may happen to a token. */
  function Advance(life: Life, act: Act): Option<Life> {
    match act
    case Registered => if life.stage == Unborn then Some(life.(stage := Idle)) else None
    case Claimed(leg) =>
      if life.stage == Idle && leg !in life.entitled
      then Some(Life(Held(leg), life.entitled + {leg})) else None
    case Released => if life.stage.Held? then Some(life.(stage := Idle)) else None
    case Removed => if life.stage == Idle || life.stage.Held? then Some(life.(stage := Gone(false))) else None
    case CancelRan => if life.stage == Gone(false) then Some(life.(stage := Gone(true))) else None
    case Delivered(leg, _) =>
      if leg in life.entitled then Some(life.(entitled := life.entitled - {leg})) else None
  }

  function Replay(log: seq<Act>): Option<Life> {
    if log == [] then Some(Life(Unborn, {}))
    else
      match Replay(log[..|log| - 1])
      case None => None
      case Some(life) => Advance(life, log[|log| - 1])
  }

  lemma {:induction false} ReplayStep(log: seq<Act>, act: Act)
    ensures Replay(log + [act]) == match Replay(log) case None => None case Some(life) => Advance(life, act)
  {
    assert (log + [act])[..|log|] == log;
  }

  lemma {:induction false} ReplayNothing()
    ensures Replay([]) == Some(Life(Unborn, {}))
  {
  }

  function Claims(log: seq<Act>): nat {
    if log == [] then 0 else Claims(log[..|log| - 1]) + (if log[|log| - 1].Claimed? then 1 else 0)
  }

  function Releases(log: seq<Act>): nat {
    if log == [] then 0 else Releases(log[..|log| - 1]) + (if log[|log| - 1].Released? then 1 else 0)
  }

  function Removals(log: seq<Act>): nat {
    if log == [] then 0 else Removals(log[..|log| - 1]) + (if log[|log| - 1].Removed? then 1 else 0)
  }

  function Cancels(log: seq<Act>): nat {
    if log == [] then 0 else Cancels(log[..|log| - 1]) + (if log[|log| - 1].CancelRan? then 1 else 0)
  }

  function Deliveries(log: seq<Act>): nat {
    if log == [] then 0 else Deliveries(log[..|log| - 1]) + (if log[|log| - 1].Delivered? then 1 else 0)
  }

  /** What the admissible order means in numbers. */
  lemma {:induction false} Tally(log: seq<Act>)
    requires Replay(log).Some?
    ensures var life := Replay(log).value;
            && Deliveries(log) + |life.entitled| == Claims(log)
            && (life.stage.Unborn? ==> log == [] && life.entitled == {})
            && Releases(log) <= Claims(log) <= Releases(log) + 1
            && (life.stage.Held? ==> Claims(log) == Releases(log) + 1)
            && (life.stage.Idle? ==> Claims(log) == Releases(log))
            && Removals(log) == (if life.stage.Gone? then 1 else 0)
            && Cancels(log) == (if life.stage == Gone(true) then 1 else 0)
  {
    if log != [] { Tally(log[..|log| - 1]); }
  }

  /** Once removed, a token is never claimed, released, registered or removed again. */
  lemma {:induction false} RemovalIsFinal(log: seq<Act>, i: nat, j: nat)
    requires Replay(log).Some? && i < j < |log| && log[i] == Removed
    ensures log[j].CancelRan? || log[j].Delivered?
  {
    Prefix(log, j + 1);
    assert log[..j + 1][..j] == log[..j] && log[..j + 1][j] == log[j];
    Tally(log[..j]);
    RemovedOnce(log[..j], i);
  }

  lemma {:induction false} RemovedOnce(log: seq<Act>, i: nat)
    requires i < |log| && log[i] == Removed
    ensures Removals(log) >= 1
  {
    if i < |log| - 1 { RemovedOnce(log[..|log| - 1], i); }
  }

  lemma {:induction false} Prefix(log: seq<Act>, n: nat)
    requires n <= |log| && Replay(log).Some?
    ensures Replay(log[..n]).Some?
  {
    if n < |log| {
      Prefix(log[..|log| - 1], n);
      assert log[..|log| - 1][..n] == log[..n];
    } else {
      assert log[..n] == log;
    }
  }

  /** Between two successful claims of a token there is a release. */
  lemma {:induction false} ClaimsAreSeparated(log: seq<Act>, i: nat, j: nat)
    requires Replay(log).Some? && i < j < |log| && log[i].Claimed? && log[j].Claimed?
    ensures exists k :: i < k < j && log[k] == Released
  {
    Prefix(log, j + 1);
    assert log[..j + 1][..j] == log[..j] && log[..j + 1][j] == log[j];
    IdleSince(log[..j], i);
    var k :| i < k < j && log[..j][k] == Released;
    assert log[k] == Released;
  }

  /** A token that has been claimed and is idle was released after the claim. */
  lemma {:induction false} IdleSince(log: seq<Act>, i: nat)
    requires Replay(log).Some? && Replay(log).value.stage == Idle && i < |log| && log[i].Claimed?
    ensures exists k :: i < k < |log| && log[k] == Released
  {
    var last := |log| - 1;
    if log[last] == Registered { Tally(log[..last]); }
    hide Claims, Releases, Removals, Cancels, Deliveries;
    if log[last] != Released {
      IdleSince(log[..last], i);
      var k :| i < k < last && log[..last][k] == Released;
      assert log[k] == Released;
    }
  }

  /** A leg delivers only after it has claimed. */
  lemma {:induction false} DeliveryFollowsClaim(log: seq<Act>, j: nat)
    requires Replay(log).Some? && j < |log| && log[j].Delivered?
    ensures exists i :: 0 <= i < j && log[i] == Claimed(log[j].leg)
  {
    Prefix(log, j + 1);
    assert log[..j + 1][..j] == log[..j] && log[..j + 1][j] == log[j];
    Entitled(log[..j], log[j].leg);
    var i :| 0 <= i < j && log[..j][i] == Claimed(log[j].leg);
    assert log[i] == Claimed(log[j].leg);
  }

  lemma {:induction false} Entitled(log: seq<Act>, leg: nat)
    requires Replay(log).Some? && leg in Replay(log).value.entitled
    ensures exists i :: 0 <= i < |log| && log[i] == Claimed(leg)
  {
    var last := |log| - 1;
    if log[last] != Claimed(leg) {
      Entitled(log[..last], leg);
      var i :| 0 <= i < last && log[..last][i] == Claimed(leg);
      assert log[i] == Claimed(leg);
    }
  }

  // ---------------------------------------------------------------- the shared state and the threads

  /** One registration: whose it is, its deadline, the dispatch its turn began with, and its history. */
  datatype Book = Book(client: Client, deadline: int, root: nat, log: seq<Act>)

  /** Where the thread of one request is. */
  datatype Mode =
    | Dispatching
    | Checking(token: Token)
    | Ready(token: Token, checked: int)
    | Delivering(token: Token)
    | Ended

  predicate Active(mode: Mode, token: Token) {
    (mode.Checking? || mode.Ready? || mode.Delivering?) && mode.token == token
  }

  /** `started` and `limit` are the request's own; `deadline` is the one its execution runs under. */
  datatype Leg = Leg(client: Client, started: int, limit: nat, deadline: int, root: nat, mode: Mode)

  datatype Sys = Sys(table: Table, maxPending: nat, books: map<Token, Book>, legs: map<nat, Leg>, owed: set<Token>)

  datatype Action =
    | StartTurn(leg: nat, client: Client, started: int, limit: nat)
    | Suspend(leg: nat, token: Token)
    | Claim(leg: nat, token: Token, client: Client, started: int, limit: nat, now: int)
    | Check(leg: nat, now: int)
    | Deliver(leg: nat)
    | Finish(leg: nat, phase: Phase)
    | Release(token: Token)
    | Reap(now: int, added: seq<(Token, Client)>)
    | RunCancel(token: Token)

  function Start(maxPending: nat): Sys { Sys(Table(map[], []), maxPending, map[], map[], {}) }

  function Note(books: map<Token, Book>, token: Token, act: Act): map<Token, Book> {
    if token in books then books[token := books[token].(log := books[token].log + [act])] else books
  }

  function NoteAll(books: map<Token, Book>, tokens: set<Token>, act: Act): map<Token, Book> {
    map token | token in books ::
      if token in tokens then books[token].(log := books[token].log + [act]) else books[token]
  }

  /** Closing the record of a claimed token: only the removal that finds it owes a cancellation. */
  function CloseFor(s: Sys, leg: nat, token: Token, phase: Phase): Sys
    requires leg in s.legs
  {
    var found := token in s.table.records;
    s.(table := CloseRegion(s.table, token),
       books := if found then Note(s.books, token, Removed) else s.books,
       owed := if found && (phase == Cancelled || phase == Expired) then s.owed + {token} else s.owed,
       legs := s.legs[leg := s.legs[leg].(mode := Ended)])
  }

  /** One action; `None` when no thread can take it. */
  ghost function Do(s: Sys, a: Action): Option<Sys> {
    match a
    case StartTurn(leg, client, started, limit) =>
      if leg in s.legs || client == Nobody then None
      else Some(s.(legs := s.legs[leg := Leg(client, started, limit, started + limit, leg, Dispatching)]))
    case Suspend(leg, token) =>
      // The adapter mints the token; it is random, so it has never been used.
      if leg !in s.legs || !(s.legs[leg].mode.Dispatching? || s.legs[leg].mode.Delivering?)
         || !token.Issued? || token in s.books then None
      else
        var l := s.legs[leg];
        var (table, ok) := RegisterRegion(s.table, s.maxPending, token, Rec(l.client, l.deadline, Waiting));
        if ok then Some(s.(table := table, books := s.books[token := Book(l.client, l.deadline, l.root, [Registered])]))
        else Some(s)
    case Claim(leg, token, client, started, limit, now) =>
      if leg in s.legs || client == Nobody then None
      else if token !in s.table.records || token !in s.books then Some(s)
      else
        var rec, book := s.table.records[token], s.books[token];
        match ClaimVerdict(s.table, token, client, now) {
        case Ok(_) =>
          Some(s.(table := ClaimRegion(s.table, token, client, now),
                  books := Note(s.books, token, Claimed(leg)),
                  legs := s.legs[leg := Leg(client, started, limit, rec.deadline, book.root, Checking(token))]))
        case Err(PastDeadline) =>
          Some(s.(table := ClaimRegion(s.table, token, client, now),
                  books := Note(s.books, token, Removed), owed := s.owed + {token}))
        case Err(_) => Some(s)
        }
    case Check(leg, now) =>
      if leg !in s.legs || !s.legs[leg].mode.Checking? then None
      else if now < s.legs[leg].deadline
      then Some(s.(legs := s.legs[leg := s.legs[leg].(mode := Ready(s.legs[leg].mode.token, now))]))
      else Some(CloseFor(s, leg, s.legs[leg].mode.token, Expired))
    case Deliver(leg) =>
      if leg !in s.legs || !s.legs[leg].mode.Ready? then None
      else
        var mode := s.legs[leg].mode;
        Some(s.(books := Note(s.books, mode.token, Delivered(leg, mode.checked)),
                legs := s.legs[leg := s.legs[leg].(mode := Delivering(mode.token))]))
    case Finish(leg, phase) =>
      if leg !in s.legs || Live(phase) then None
      else if s.legs[leg].mode.Dispatching? then Some(s.(legs := s.legs[leg := s.legs[leg].(mode := Ended)]))
      else if s.legs[leg].mode.Ended? then None
      else Some(CloseFor(s, leg, s.legs[leg].mode.token, phase))
    case Release(token) =>
      if token in s.table.records && s.table.records[token].state == Resuming
      then Some(s.(table := ReleaseRegion(s.table, token), books := Note(s.books, token, Released)))
      else Some(s)
    case Reap(now, added) =>
      if !ReapTombstones(s.table, now, added) then None
      else Some(s.(table := ReapRegion(s.table, now, added),
                   books := NoteAll(s.books, DueTokens(s.table, now), Removed),
                   owed := s.owed + DueTokens(s.table, now)))
    case RunCancel(token) =>
      if token !in s.owed then None
      else Some(s.(owed := s.owed - {token}, books := Note(s.books, token, CancelRan)))
  }

  ghost function Run(s: Sys, actions: seq<Action>): Option<Sys> {
    if actions == [] then Some(s)
    else
      match Run(s, actions[..|actions| - 1])
      case None => None
      case Some(before) => Do(before, actions[|actions| - 1])
  }

  // ---------------------------------------------------------------- the invariant

  predicate StageIs(stage: Stage, live: bool, state: Phase) {
    match stage
    case Unborn => false
    case Idle => live && state == Waiting
    case Held(_) => live && state == Resuming
    case Gone(_) => !live
  }

  /** The dispatch a turn began with: same client, and the deadline it fixed. */
  predicate BeganAt(s: Sys, root: nat, client: Client, deadline: int) {
    && root in s.legs && s.legs[root].root == root && s.legs[root].client == client
    && deadline == s.legs[root].started + s.legs[root].limit
  }

  /** A history is admissible and tells what the table holds. */
  predicate BookOk(s: Sys, token: Token)
    requires token in s.books
  {
    var book, live := s.books[token], token in s.table.records;
    && token.Issued? && book.client != Nobody
    && Replay(book.log).Some?
    && var life := Replay(book.log).value;
    && StageIs(life.stage, live, if live then s.table.records[token].state else Lost)
    && (live ==> s.table.records[token].client == book.client && s.table.records[token].deadline == book.deadline)
    && (token in s.owed ==> life.stage == Gone(false))
    && (life.stage.Held? ==> life.stage.holder in s.legs && Active(s.legs[life.stage.holder].mode, token))
    && (forall leg :: leg in life.entitled ==> leg in s.legs)
    && BeganAt(s, book.root, book.client, book.deadline)
    && (forall act :: act in book.log && act.Delivered? ==> act.checked < book.deadline)
  }

  predicate LegOk(s: Sys, leg: nat)
    requires leg in s.legs
  {
    var l := s.legs[leg];
    && l.client != Nobody
    && BeganAt(s, l.root, l.client, l.deadline)
    && (l.mode.Checking? || l.mode.Ready? || l.mode.Delivering? ==>
          && l.mode.token in s.books
          && s.books[l.mode.token].client == l.client
          && s.books[l.mode.token].deadline == l.deadline)
    && (l.mode.Checking? || l.mode.Ready? ==>
          && Replay(s.books[l.mode.token].log).Some?
          && leg in Replay(s.books[l.mode.token].log).value.entitled)
    && (l.mode.Ready? ==> l.mode.checked < l.deadline)
  }

  /** A tombstone with a client names a token that is gone and was that client's. */
  predicate TombstoneOk(s: Sys, entry: (Token, Client)) {
    entry.1 != Nobody ==> entry.0 in s.books && entry.0 !in s.table.records && s.books[entry.0].client == entry.1
  }

  predicate Sized(s: Sys) {
    && s.table.records.Keys <= s.books.Keys && s.owed <= s.books.Keys
    && |s.table.records| <= s.maxPending && |s.table.tombstones| <= MAX_TOMBSTONES
  }

  predicate BooksOk(s: Sys) { forall token :: token in s.books ==> BookOk(s, token) }

  predicate LegsOk(s: Sys) { forall leg :: leg in s.legs ==> LegOk(s, leg) }

  predicate TombstonesOk(s: Sys) { forall entry :: entry in s.table.tombstones ==> TombstoneOk(s, entry) }

  predicate Inv(s: Sys) { Sized(s) && BooksOk(s) && LegsOk(s) && TombstonesOk(s) }

  // ---------------------------------------------------------------- the invariant is kept

  /** Later legs and books tell the same about what was there before, apart from where threads are and what happened. */
  predicate Grows(s: Sys, t: Sys) {
    && (forall leg :: leg in s.legs ==> leg in t.legs && t.legs[leg].(mode := s.legs[leg].mode) == s.legs[leg])
    && (forall token :: token in s.books ==>
          token in t.books && t.books[token].(log := s.books[token].log) == s.books[token])
  }

  /** A step that is about the tokens `changed` and moves at most the thread `moved`. */
  predicate Step(s: Sys, t: Sys, changed: set<Token>, moved: Option<nat>) {
    && (forall leg :: leg in t.legs && Some(leg) != moved ==> leg in s.legs && t.legs[leg] == s.legs[leg])
    && (forall token :: token in t.books && token !in changed ==>
          && token in s.books && t.books[token] == s.books[token]
          && (token in t.table.records <==> token in s.table.records)
          && (token in s.table.records ==> t.table.records[token] == s.table.records[token])
          && (token in t.owed ==> token in s.owed))
  }

  /** A thread that moves on or stops working on a token is about that token. */
  ghost predicate Leaves(s: Sys, t: Sys, changed: set<Token>, moved: Option<nat>) {
    moved.Some? && moved.value in s.legs && moved.value in t.legs ==>
      forall token :: Active(s.legs[moved.value].mode, token) ==>
        token in changed || Active(t.legs[moved.value].mode, token)
  }

  lemma BookStays(s: Sys, t: Sys, changed: set<Token>, moved: Option<nat>, token: Token)
    requires Grows(s, t) && Step(s, t, changed, moved) && Leaves(s, t, changed, moved)
    requires token in t.books && token !in changed && BooksOk(s)
    ensures BookOk(t, token)
  {
    assert BookOk(s, token);
  }

  /** The later history of a token still entitles every leg the earlier one did, except perhaps `moved`. */
  predicate Entitles(before: seq<Act>, after: seq<Act>, moved: Option<nat>) {
    Replay(before).Some? ==>
      && Replay(after).Some?
      && forall leg :: leg in Replay(before).value.entitled && Some(leg) != moved ==>
           leg in Replay(after).value.entitled
  }

  predicate AllEntitle(s: Sys, t: Sys, changed: set<Token>, moved: Option<nat>) {
    forall token :: token in changed && token in s.books && token in t.books ==>
      Entitles(s.books[token].log, t.books[token].log, moved)
  }

  lemma LegStays(s: Sys, t: Sys, changed: set<Token>, moved: Option<nat>, leg: nat)
    requires Grows(s, t) && Step(s, t, changed, moved) && AllEntitle(s, t, changed, moved)
    requires leg in t.legs && Some(leg) != moved && LegsOk(s)
    ensures LegOk(t, leg)
  {
    hide Replay;
    assert LegOk(s, leg);
  }

  /** What a step leaves alone needs no proof again. */
  lemma StepKeeps(s: Sys, t: Sys, changed: set<Token>, moved: Option<nat>)
    requires Inv(s) && Sized(t) && TombstonesOk(t)
    requires Grows(s, t) && Step(s, t, changed, moved) && Leaves(s, t, changed, moved)
    requires AllEntitle(s, t, changed, moved)
    requires forall token :: token in changed && token in t.books ==> BookOk(t, token)
    requires moved.Some? && moved.value in t.legs ==> LegOk(t, moved.value)
    ensures Inv(t)
  {
    hide BookOk, LegOk, Grows, Step, Leaves, AllEntitle, TombstonesOk, Sized;
    forall token | token in t.books ensures BookOk(t, token) {
      if token !in changed { BookStays(s, t, changed, moved, token); }
    }
    forall leg | leg in t.legs ensures LegOk(t, leg) {
      if Some(leg) != moved { LegStays(s, t, changed, moved, leg); }
    }
  }

  lemma TombstonesStay(s: Sys, t: Sys)
    requires TombstonesOk(s) && Grows(s, t) && Sized(s)
    requires t.table.tombstones == s.table.tombstones
    requires forall token :: token in t.table.records && token in s.books ==> token in s.table.records
    ensures TombstonesOk(t)
  {
    forall entry | entry in t.table.tombstones ensures TombstoneOk(t, entry) { assert TombstoneOk(s, entry); }
  }

  lemma {:induction false} EntitledAfter(log: seq<Act>, act: Act, moved: Option<nat>)
    requires Replay(log + [act]).Some? && (act.Delivered? ==> moved == Some(act.leg))
    ensures Entitles(log, log + [act], moved)
  {
    ReplayStep(log, act);
  }

  lemma StartTurnKeeps(s: Sys, t: Sys, leg: nat, client: Client, started: int, limit: nat)
    requires Inv(s) && Do(s, StartTurn(leg, client, started, limit)) == Some(t)
    ensures Inv(t)
  {
    hide BookOk, TombstoneOk, BooksOk, LegsOk, TombstonesOk;
    TombstonesStay(s, t);
    StepKeeps(s, t, {}, Some(leg));
  }

  lemma SuspendKeeps(s: Sys, t: Sys, leg: nat, token: Token)
    requires Inv(s) && Do(s, Suspend(leg, token)) == Some(t)
    ensures Inv(t)
  {
    hide BooksOk, LegsOk, TombstoneOk, TombstonesOk, BookOk, LegOk, Grows, Step, Sized, Do;
    if t != s {
      SuspendedRest(s, t, leg, token);
      SuspendedBook(s, t, leg, token);
      StepKeeps(s, t, {token}, None);
    }
  }

  lemma SuspendedRest(s: Sys, t: Sys, leg: nat, token: Token)
    requires Inv(s) && Do(s, Suspend(leg, token)) == Some(t) && t != s
    ensures token !in s.books && Grows(s, t) && Step(s, t, {token}, None) && Sized(t) && TombstonesOk(t)
  {
    hide BooksOk, LegsOk, TombstoneOk, TombstonesOk, BookOk, LegOk, Replay;
    TombstonesStay(s, t);
  }

  lemma SuspendedBook(s: Sys, t: Sys, leg: nat, token: Token)
    requires Inv(s) && Do(s, Suspend(leg, token)) == Some(t) && t != s
    ensures BookOk(t, token)
  {
    hide BooksOk, LegsOk, TombstonesOk, Replay;
    LegIn(s, leg);
    assert Replay([Registered]) == Some(Life(Idle, {})) by {
      ReplayStep([], Registered);
      ReplayNothing();
      assert [] + [Registered] == [Registered];
    }
  }

  /** A token to which one act happened, with what the shared state now says of it. */
  lemma {:induction false} Noted(s: Sys, t: Sys, token: Token, act: Act)
    requires Grows(s, t) && token in s.books && BookOk(s, token)
    requires t.books[token] == s.books[token].(log := s.books[token].log + [act])
    requires Advance(Replay(s.books[token].log).value, act).Some?
    requires var life, live := Advance(Replay(s.books[token].log).value, act).value, token in t.table.records;
             && StageIs(life.stage, live, if live then t.table.records[token].state else Lost)
             && (live ==> t.table.records[token].client == s.books[token].client
                          && t.table.records[token].deadline == s.books[token].deadline)
             && (token in t.owed ==> life.stage == Gone(false))
             && (life.stage.Held? ==> life.stage.holder in t.legs && Active(t.legs[life.stage.holder].mode, token))
             && (forall leg :: leg in life.entitled ==> leg in t.legs)
    requires act.Delivered? ==> act.checked < s.books[token].deadline
    ensures BookOk(t, token)
  {
    ReplayStep(s.books[token].log, act);
  }

  lemma ClaimedBook(
    s: Sys, t: Sys, leg: nat, token: Token, client: Client, started: int, limit: nat, now: int)
    requires Inv(s) && Do(s, Claim(leg, token, client, started, limit, now)) == Some(t) && t != s
    ensures token in t.books && BookOk(t, token)
    ensures Entitles(s.books[token].log, t.books[token].log, None)
    ensures leg in t.legs ==> LegOk(t, leg)
  {
    hide LegsOk, TombstonesOk, Sized, Replay;
    assert BookOk(s, token);
    var act := if ClaimVerdict(s.table, token, client, now).Ok? then Claimed(leg) else Removed;
    Noted(s, t, token, act);
    EntitledAfter(s.books[token].log, act, None);
    ReplayStep(s.books[token].log, act);
  }

  /** Removals only strengthen old tombstones. */
  lemma TombstonesGrow(s: Sys, t: Sys, added: seq<(Token, Client)>)
    requires TombstonesOk(s) && Grows(s, t) && Sized(s)
    requires t.table.tombstones == Ring(s.table.tombstones + added)
    requires forall token :: token in t.table.records ==> token in s.table.records
    requires forall i :: 0 <= i < |added| ==> TombstoneOk(t, added[i])
    ensures TombstonesOk(t)
  {
    forall entry | entry in t.table.tombstones ensures TombstoneOk(t, entry) {
      assert entry in s.table.tombstones || entry in added;
      if entry in s.table.tombstones { assert TombstoneOk(s, entry); }
    }
  }

  /** The frame of a step about one token, taken by one thread. */
  lemma Around(s: Sys, t: Sys, token: Token, leg: nat)
    requires t.legs == if leg in t.legs then s.legs[leg := t.legs[leg]] else s.legs
    requires leg in s.legs ==> leg in t.legs && t.legs[leg].(mode := s.legs[leg].mode) == s.legs[leg]
    requires leg in s.legs && leg in t.legs ==>
               forall other :: Active(s.legs[leg].mode, other) ==> other == token || Active(t.legs[leg].mode, other)
    requires token in t.books && t.books == s.books[token := t.books[token]]
    requires token in s.books ==> t.books[token].(log := s.books[token].log) == s.books[token]
    requires t.table.records
          == if token in t.table.records then s.table.records[token := t.table.records[token]]
             else s.table.records - {token}
    requires t.owed <= s.owed + {token}
    ensures Grows(s, t) && Step(s, t, {token}, Some(leg)) && Leaves(s, t, {token}, Some(leg))
  {
  }

  lemma SizedAround(s: Sys, t: Sys, token: Token)
    requires Sized(s) && token in t.books && s.books.Keys <= t.books.Keys && t.maxPending == s.maxPending
    requires (token in s.table.records
              && t.table.records == if token in t.table.records then s.table.records[token := t.table.records[token]]
                                    else s.table.records - {token})
             || t.table.records == s.table.records
    requires t.owed <= s.owed + {token} && |t.table.tombstones| <= MAX_TOMBSTONES
    ensures Sized(t)
  {
    RemovalShrinks(s.table.records, {token});
    if token in t.table.records && token in s.table.records { SameSize(t.table.records, s.table.records); }
  }

  lemma ClaimKeeps(
    s: Sys, t: Sys, leg: nat, token: Token, client: Client, started: int, limit: nat, now: int)
    requires Inv(s) && Do(s, Claim(leg, token, client, started, limit, now)) == Some(t)
    ensures Inv(t)
  {
    hide BookOk, LegOk, BooksOk, LegsOk, TombstonesOk, Sized, Grows, Step, Leaves, Entitles, Do;
    if t != s {
      ClaimedBook(s, t, leg, token, client, started, limit, now);
      ClaimedRest(s, t, leg, token, client, started, limit, now);
      assert AllEntitle(s, t, {token}, Some(leg)) by { Looser(s.books[token].log, t.books[token].log, Some(leg)); }
      StepKeeps(s, t, {token}, Some(leg));
    }
  }

  lemma Looser(before: seq<Act>, after: seq<Act>, moved: Option<nat>)
    requires Entitles(before, after, None)
    ensures Entitles(before, after, moved)
  {
    hide Replay;
  }

  lemma ClaimedRest(
    s: Sys, t: Sys, leg: nat, token: Token, client: Client, started: int, limit: nat, now: int)
    requires Inv(s) && Do(s, Claim(leg, token, client, started, limit, now)) == Some(t) && t != s
    ensures token in s.books && Sized(t) && TombstonesOk(t) && Grows(s, t)
    ensures Step(s, t, {token}, Some(leg)) && Leaves(s, t, {token}, Some(leg))
  {
    hide BookOk, BooksOk, LegsOk, TombstonesOk, Ring, Grows, Step, Leaves, Sized;
    var rec := s.table.records[token];
    var ok := ClaimVerdict(s.table, token, client, now).Ok?;
    RingKeeps(s.table.tombstones + [(token, client)]);
    ClaimedTable(s, t, leg, token, client, started, limit, now);
    Around(s, t, token, leg);
    SizedAround(s, t, token);
    if ok { TombstonesStay(s, t); } else { TombstonesGrow(s, t, [(token, client)]); }
  }

  lemma ClaimedTable(
    s: Sys, t: Sys, leg: nat, token: Token, client: Client, started: int, limit: nat, now: int)
    requires Inv(s) && Do(s, Claim(leg, token, client, started, limit, now)) == Some(t) && t != s
    ensures token in s.books && token in s.table.records && token in t.books && leg !in s.legs
    ensures t.maxPending == s.maxPending
    ensures t.legs == if leg in t.legs then s.legs[leg := t.legs[leg]] else s.legs
    ensures t.books == s.books[token := t.books[token]]
    ensures t.books[token].(log := s.books[token].log) == s.books[token]
    ensures t.table.records
         == if token in t.table.records then s.table.records[token := t.table.records[token]]
            else s.table.records - {token}
    ensures t.owed <= s.owed + {token} && |t.table.tombstones| <= MAX_TOMBSTONES
    ensures t.table.tombstones
         == if ClaimVerdict(s.table, token, client, now).Ok? then s.table.tombstones
            else Ring(s.table.tombstones + [(token, client)])
    ensures !ClaimVerdict(s.table, token, client, now).Ok? ==> TombstoneOk(t, (token, client))
  {
    hide BooksOk, LegsOk, TombstonesOk, Replay;
    BookIn(s, token);
  }

  lemma BookIn(s: Sys, token: Token)
    requires BooksOk(s) && token in s.books
    ensures BookOk(s, token)
  {
  }

  lemma TombstoneIn(s: Sys, entry: (Token, Client))
    requires TombstonesOk(s)
    ensures entry in s.table.tombstones ==> TombstoneOk(s, entry)
  {
  }

  lemma LegIn(s: Sys, leg: nat)
    requires LegsOk(s) && leg in s.legs
    ensures LegOk(s, leg)
  {
  }

  /** The thread that closes, and the token it closes. */
  lemma ClosedBook(s: Sys, leg: nat, token: Token, phase: Phase)
    requires Inv(s) && leg in s.legs && Active(s.legs[leg].mode, token)
    ensures var t := CloseFor(s, leg, token, phase);
            token in s.books && token in t.books && BookOk(t, token) && LegOk(t, leg)
            && Entitles(s.books[token].log, t.books[token].log, None)
  {
    hide LegsOk, BooksOk, TombstonesOk, Sized, Replay;
    var t := CloseFor(s, leg, token, phase);
    LegIn(s, leg);
    BookIn(s, token);
    if token in s.table.records {
      Noted(s, t, token, Removed);
      EntitledAfter(s.books[token].log, Removed, None);
      ReplayStep(s.books[token].log, Removed);
    }
  }

  lemma ClosedRest(s: Sys, leg: nat, token: Token, phase: Phase)
    requires Inv(s) && leg in s.legs && Active(s.legs[leg].mode, token)
    ensures var t := CloseFor(s, leg, token, phase);
            && Sized(t) && TombstonesOk(t) && Grows(s, t)
            && Step(s, t, {token}, Some(leg)) && Leaves(s, t, {token}, Some(leg))
  {
    hide BooksOk, LegsOk, TombstonesOk, Replay, Ring, Grows, Step, Leaves;
    var t := CloseFor(s, leg, token, phase);
    LegIn(s, leg);
    BookIn(s, token);
    var entry := (token, if token in s.table.records then s.table.records[token].client else Nobody);
    RingKeeps(s.table.tombstones + [entry]);
    Around(s, t, token, leg);
    assert t.table.records == s.table.records || token in s.table.records;
    SizedAround(s, t, token);
    TombstonesGrow(s, t, [entry]);
  }

  lemma CloseKeeps(s: Sys, leg: nat, token: Token, phase: Phase)
    requires Inv(s) && leg in s.legs && Active(s.legs[leg].mode, token)
    ensures Inv(CloseFor(s, leg, token, phase))
  {
    hide BookOk, LegOk, BooksOk, LegsOk, TombstonesOk, Sized, Grows, Step, Leaves, Entitles, CloseFor;
    var t := CloseFor(s, leg, token, phase);
    ClosedBook(s, leg, token, phase);
    ClosedRest(s, leg, token, phase);
    assert AllEntitle(s, t, {token}, Some(leg)) by {
      Looser(s.books[token].log, t.books[token].log, Some(leg));
    }
    StepKeeps(s, t, {token}, Some(leg));
  }

  lemma CheckKeeps(s: Sys, t: Sys, leg: nat, now: int)
    requires Inv(s) && Do(s, Check(leg, now)) == Some(t)
    ensures Inv(t)
  {
    hide BookOk, BooksOk, LegsOk, TombstonesOk, CloseFor;
    LegIn(s, leg);
    if now < s.legs[leg].deadline {
      TombstonesStay(s, t);
      StepKeeps(s, t, {}, Some(leg));
    } else {
      CloseKeeps(s, leg, s.legs[leg].mode.token, Expired);
    }
  }

  lemma FinishKeeps(s: Sys, t: Sys, leg: nat, phase: Phase)
    requires Inv(s) && Do(s, Finish(leg, phase)) == Some(t)
    ensures Inv(t)
  {
    hide BookOk, BooksOk, LegsOk, TombstonesOk, CloseFor;
    LegIn(s, leg);
    if s.legs[leg].mode.Dispatching? {
      TombstonesStay(s, t);
      StepKeeps(s, t, {}, Some(leg));
    } else {
      CloseKeeps(s, leg, s.legs[leg].mode.token, phase);
    }
  }

  lemma DeliverKeeps(s: Sys, t: Sys, leg: nat)
    requires Inv(s) && Do(s, Deliver(leg)) == Some(t)
    ensures Inv(t)
  {
    hide BookOk, LegOk, BooksOk, LegsOk, TombstonesOk, Sized, Grows, Step, Leaves, Entitles;
    var token := s.legs[leg].mode.token;
    DeliveredBook(s, t, leg);
    DeliveredRest(s, t, leg);
    assert AllEntitle(s, t, {token}, Some(leg));
    StepKeeps(s, t, {token}, Some(leg));
  }

  lemma DeliveredBook(s: Sys, t: Sys, leg: nat)
    requires Inv(s) && Do(s, Deliver(leg)) == Some(t)
    ensures var token := s.legs[leg].mode.token;
            token in s.books && token in t.books && BookOk(t, token) && LegOk(t, leg)
            && Entitles(s.books[token].log, t.books[token].log, Some(leg))
  {
    hide LegsOk, BooksOk, TombstonesOk, Sized, Replay;
    LegIn(s, leg);
    var mode := s.legs[leg].mode;
    BookIn(s, mode.token);
    var act := Delivered(leg, mode.checked);
    Noted(s, t, mode.token, act);
    ReplayStep(s.books[mode.token].log, act);
    EntitledAfter(s.books[mode.token].log, act, Some(leg));
  }

  lemma DeliveredRest(s: Sys, t: Sys, leg: nat)
    requires Inv(s) && Do(s, Deliver(leg)) == Some(t)
    ensures var token := s.legs[leg].mode.token;
            && Sized(t) && TombstonesOk(t) && Grows(s, t)
            && Step(s, t, {token}, Some(leg)) && Leaves(s, t, {token}, Some(leg))
  {
    hide BooksOk, LegsOk, TombstonesOk, Replay, Ring, Grows, Step, Leaves;
    LegIn(s, leg);
    var token := s.legs[leg].mode.token;
    BookIn(s, token);
    if token in s.table.records { assert s.table.records[token := s.table.records[token]] == s.table.records; }
    else { assert s.table.records - {token} == s.table.records; }
    Around(s, t, token, leg);
    TombstonesStay(s, t);
  }

  /** A step about one token that no thread's position changes with. */
  lemma AboutToken(s: Sys, t: Sys, token: Token, act: Act)
    requires Inv(s) && token in s.books && !act.Delivered?
    requires t.legs == s.legs && t.maxPending == s.maxPending && t.books == Note(s.books, token, act)
    requires t.table.tombstones == s.table.tombstones && t.owed <= s.owed
    requires t.table.records == s.table.records
             || (token in s.table.records && token in t.table.records
                 && t.table.records == s.table.records[token := t.table.records[token]])
    requires BookOk(t, token)
    ensures Inv(t)
  {
    hide BookOk, LegOk, BooksOk, LegsOk, TombstonesOk, TombstoneOk, Ring, Replay;
    assert BookOk(s, token) by { BookIn(s, token); }
    AboutFrame(s, t, token, act);
    SameSize(t.table.records, s.table.records);
    TombstonesStay(s, t);
    StepKeeps(s, t, {token}, None);
  }

  lemma AboutFrame(s: Sys, t: Sys, token: Token, act: Act)
    requires token in s.books && !act.Delivered?
    requires t.legs == s.legs && t.books == Note(s.books, token, act) && t.owed <= s.owed
    requires t.table.records == s.table.records
             || (token in s.table.records && token in t.table.records
                 && t.table.records == s.table.records[token := t.table.records[token]])
    requires BookOk(t, token)
    ensures Grows(s, t) && Step(s, t, {token}, None) && AllEntitle(s, t, {token}, None)
  {
    EntitledAfter(s.books[token].log, act, None);
  }

  lemma ReleaseKeeps(s: Sys, t: Sys, token: Token)
    requires Inv(s) && Do(s, Release(token)) == Some(t)
    ensures Inv(t)
  {
    hide BooksOk, LegsOk, TombstonesOk, Replay, LegOk;
    if t != s {
      BookIn(s, token);
      Noted(s, t, token, Released);
      AboutToken(s, t, token, Released);
    }
  }

  lemma RunCancelKeeps(s: Sys, t: Sys, token: Token)
    requires Inv(s) && Do(s, RunCancel(token)) == Some(t)
    ensures Inv(t)
  {
    hide BooksOk, LegsOk, TombstonesOk, Replay, LegOk;
    BookIn(s, token);
    Noted(s, t, token, CancelRan);
    AboutToken(s, t, token, CancelRan);
  }

  lemma ReapKeeps(s: Sys, t: Sys, now: int, added: seq<(Token, Client)>)
    requires Inv(s) && Do(s, Reap(now, added)) == Some(t)
    ensures Inv(t)
  {
    hide BookOk, LegOk, BooksOk, LegsOk, TombstonesOk, Grows, Step, Sized, Entitles, Replay, DueTokens, TombstonesFor;
    var due := DueTokens(s.table, now);
    ReapedRest(s, t, now, added);
    ReapedFrame(s, t, due);
    forall token | token in due && token in t.books
      ensures BookOk(t, token) && Entitles(s.books[token].log, t.books[token].log, None)
    {
      BookIn(s, token);
      ReapedBook(s, t, due, token);
    }
    StepKeeps(s, t, due, None);
  }

  lemma ReapedRest(s: Sys, t: Sys, now: int, added: seq<(Token, Client)>)
    requires Inv(s) && Do(s, Reap(now, added)) == Some(t)
    ensures Reaped(s, t, DueTokens(s.table, now)) && Sized(t) && TombstonesOk(t)
  {
    hide BookOk, LegOk, BooksOk, LegsOk, TombstonesOk, TombstoneOk, Ring, Replay, DueTokens, TombstonesFor, Step,
         NoteAll, Grows, Sized;
    var due := DueTokens(s.table, now);
    DueAmong(s.table, now);
    SizedReap(s, t, due, added);
    ReapedFrame(s, t, due);
    forall i | 0 <= i < |added| ensures TombstoneOk(t, added[i]) {
      ReapedTombstone(s, t, due, added, i);
    }
    assert forall token :: token in t.table.records ==> token in s.table.records;
    TombstonesGrow(s, t, added);
  }

  lemma SizedReap(s: Sys, t: Sys, due: set<Token>, added: seq<(Token, Client)>)
    requires Sized(s) && due <= s.table.records.Keys
    requires t.table.records == s.table.records - due && t.table.tombstones == Ring(s.table.tombstones + added)
    requires t.books == NoteAll(s.books, due, Removed) && t.owed == s.owed + due && t.maxPending == s.maxPending
    ensures Sized(t) && due <= s.books.Keys
  {
    hide NoteAll, Ring;
    NoteAllKeys(s.books, due, Removed);
    RemovalShrinks(s.table.records, due);
    RingBound(s.table.tombstones + added);
  }

  lemma NoteAllKeys(books: map<Token, Book>, tokens: set<Token>, act: Act)
    ensures NoteAll(books, tokens, act).Keys == books.Keys
  {
  }

  lemma RingBound(entries: seq<(Token, Client)>)
    ensures |Ring(entries)| <= MAX_TOMBSTONES
  {
  }

  predicate Reaped(s: Sys, t: Sys, due: set<Token>) {
    && due <= s.table.records.Keys && due <= s.books.Keys
    && t.legs == s.legs && t.maxPending == s.maxPending
    && t.books == NoteAll(s.books, due, Removed) && t.owed == s.owed + due
    && t.table.records == s.table.records - due
  }

  lemma ReapedFrame(s: Sys, t: Sys, due: set<Token>)
    requires Reaped(s, t, due)
    ensures Grows(s, t) && Step(s, t, due, None)
  {
  }

  lemma ReapedBook(s: Sys, t: Sys, due: set<Token>, token: Token)
    requires Reaped(s, t, due) && token in due && BookOk(s, token)
    ensures BookOk(t, token) && Entitles(s.books[token].log, t.books[token].log, None)
  {
    hide Replay;
    ReapedFrame(s, t, due);
    Noted(s, t, token, Removed);
    ReplayStep(s.books[token].log, Removed);
    EntitledAfter(s.books[token].log, Removed, None);
  }

  lemma ReapedTombstone(s: Sys, t: Sys, due: set<Token>, added: seq<(Token, Client)>, i: nat)
    requires Reaped(s, t, due) && BooksOk(s) && TombstonesFor(s.table, due, added) && i < |added|
    ensures TombstoneOk(t, added[i])
  {
    assert BookOk(s, added[i].0);
  }

  /** Every step any thread can take keeps the invariant. */
  lemma DoKeeps(s: Sys, a: Action, t: Sys)
    requires Inv(s) && Do(s, a) == Some(t)
    ensures Inv(t)
  {
    hide Inv, Do;
    match a {
      case StartTurn(leg, client, started, limit) => StartTurnKeeps(s, t, leg, client, started, limit);
      case Suspend(leg, token) => SuspendKeeps(s, t, leg, token);
      case Claim(leg, token, client, started, limit, now) => ClaimKeeps(s, t, leg, token, client, started, limit, now);
      case Check(leg, now) => CheckKeeps(s, t, leg, now);
      case Deliver(leg) => DeliverKeeps(s, t, leg);
      case Finish(leg, phase) => FinishKeeps(s, t, leg, phase);
      case Release(token) => ReleaseKeeps(s, t, token);
      case Reap(now, added) => ReapKeeps(s, t, now, added);
      case RunCancel(token) => RunCancelKeeps(s, t, token);
    }
  }

  lemma {:induction false} RunKeeps(maxPending: nat, actions: seq<Action>)
    requires Run(Start(maxPending), actions).Some?
    ensures Inv(Run(Start(maxPending), actions).value)
  {
    hide Do, BookOk, LegOk, TombstoneOk;
    if actions != [] {
      RunKeeps(maxPending, actions[..|actions| - 1]);
      DoKeeps(Run(Start(maxPending), actions[..|actions| - 1]).value, actions[|actions| - 1],
              Run(Start(maxPending), actions).value);
    }
  }

  // ---------------------------------------------------------------- what every run guarantees

  /** What happened to a token in any run, and what the registry still holds of it. */
  lemma {:induction false} ExactlyOnce(maxPending: nat, actions: seq<Action>, token: Token)
    requires Run(Start(maxPending), actions).Some?
    requires token in Run(Start(maxPending), actions).value.books
    ensures var s := Run(Start(maxPending), actions).value;
            var log := s.books[token].log;
            && Replay(log).Some?
            && Deliveries(log) <= Claims(log) <= Releases(log) + 1
            && Cancels(log) <= Removals(log) <= 1
            && (token in s.table.records <==> Removals(log) == 0)
            && (token in s.table.records ==>
                  Live(s.table.records[token].state)
                  && (s.table.records[token].state == Waiting <==> Claims(log) == Releases(log)))
  {
    hide Run;
    RunKeeps(maxPending, actions);
    var s := Run(Start(maxPending), actions).value;
    BookIn(s, token);
    Tally(s.books[token].log);
  }

  function NoReleases(actions: seq<Action>): bool { forall a :: a in actions ==> !a.Release? }

  /** The history of one token after one action: the same, or longer by one act. */
  lemma HistoryGrows(s: Sys, a: Action, t: Sys, token: Token)
    requires Do(s, a) == Some(t) && token in t.books
    ensures token in s.books ==>
              t.books[token].log == s.books[token].log
              || exists act :: t.books[token].log == s.books[token].log + [act] && (act == Released ==> a.Release?)
    ensures token !in s.books ==> t.books[token].log == [Registered]
  {
    hide Ring, TombstonesFor, DueTokens;
    if token in s.books && t.books[token].log != s.books[token].log {
      var log := t.books[token].log;
      assert log == s.books[token].log + [log[|log| - 1]];
    }
  }

  /** No thread of the gateway ever releases, so at most one result is ever delivered for a token. */
  lemma {:induction false} DeliveredOnce(maxPending: nat, actions: seq<Action>, token: Token)
    requires Run(Start(maxPending), actions).Some? && NoReleases(actions)
    requires token in Run(Start(maxPending), actions).value.books
    ensures var log := Run(Start(maxPending), actions).value.books[token].log;
            Releases(log) == 0 && Deliveries(log) <= Claims(log) <= 1
  {
    ExactlyOnce(maxPending, actions, token);
    NeverReleased(maxPending, actions, token);
  }

  lemma {:induction false} NeverReleased(maxPending: nat, actions: seq<Action>, token: Token)
    requires Run(Start(maxPending), actions).Some? && NoReleases(actions)
    requires token in Run(Start(maxPending), actions).value.books
    ensures Releases(Run(Start(maxPending), actions).value.books[token].log) == 0
  {
    hide Do;
    if actions != [] {
      var front, last := actions[..|actions| - 1], actions[|actions| - 1];
      var s, t := Run(Start(maxPending), front).value, Run(Start(maxPending), actions).value;
      HistoryGrows(s, last, t, token);
      var log := t.books[token].log;
      if token in s.books {
        NeverReleased(maxPending, front, token);
        if log != s.books[token].log {
          var act :| log == s.books[token].log + [act] && (act == Released ==> last.Release?);
          assert log[..|log| - 1] == s.books[token].log;
        }
      } else {
        assert log[..0] == [];
      }
    }
  }

  /** A turn's threads and records all carry the deadline its first dispatch fixed, however many rounds follow. */
  lemma {:induction false} NoRoundExtendsATurn(maxPending: nat, actions: seq<Action>, token: Token)
    requires Run(Start(maxPending), actions).Some?
    requires token in Run(Start(maxPending), actions).value.books
    ensures var s := Run(Start(maxPending), actions).value;
            exists started: int, limit: nat ::
              && StartTurn(s.books[token].root, s.books[token].client, started, limit) in actions
              && s.books[token].deadline == started + limit
              && (token in s.table.records ==> s.table.records[token].deadline == started + limit)
              && (forall act :: act in s.books[token].log && act.Delivered? ==> act.checked < started + limit)
  {
    hide Run, Replay;
    RunKeeps(maxPending, actions);
    var s := Run(Start(maxPending), actions).value;
    BookIn(s, token);
    var root := s.legs[s.books[token].root];
    DispatchesAreStarted(maxPending, actions, s.books[token].root);
    assert StartTurn(s.books[token].root, s.books[token].client, root.started, root.limit) in actions;
  }

  lemma {:induction false} DispatchesAreStarted(maxPending: nat, actions: seq<Action>, leg: nat)
    requires Run(Start(maxPending), actions).Some?
    requires var legs := Run(Start(maxPending), actions).value.legs; leg in legs && legs[leg].root == leg
    ensures var legs := Run(Start(maxPending), actions).value.legs;
            StartTurn(leg, legs[leg].client, legs[leg].started, legs[leg].limit) in actions
  {
    hide Do, BookOk, LegOk;
    if actions != [] {
      var front, last := actions[..|actions| - 1], actions[|actions| - 1];
      var s, t := Run(Start(maxPending), front).value, Run(Start(maxPending), actions).value;
      RunKeeps(maxPending, front);
      LegsOnlyMove(s, last, t, leg);
      if leg in s.legs { DispatchesAreStarted(maxPending, front, leg); }
    }
  }

  lemma LegsOnlyMove(s: Sys, a: Action, t: Sys, leg: nat)
    requires Inv(s) && Do(s, a) == Some(t) && leg in t.legs && t.legs[leg].root == leg
    ensures leg in s.legs ==> t.legs[leg].(mode := s.legs[leg].mode) == s.legs[leg]
    ensures leg !in s.legs ==> a == StartTurn(leg, t.legs[leg].client, t.legs[leg].started, t.legs[leg].limit)
  {
    hide Ring, TombstonesFor, DueTokens, Replay, TombstonesOk, LegsOk;
    match a {
      case Claim(_, token, _, _, _, _) => if token in s.books { BookIn(s, token); }
      case _ =>
    }
  }

  /** When no thread is between a claim and its close, no record is left being resumed. */
  lemma {:induction false} NothingStaysHeld(maxPending: nat, actions: seq<Action>, token: Token)
    requires Run(Start(maxPending), actions).Some?
    requires var s := Run(Start(maxPending), actions).value;
             && token in s.table.records
             && forall leg :: leg in s.legs ==> !Active(s.legs[leg].mode, token)
    ensures Run(Start(maxPending), actions).value.table.records[token].state == Waiting
  {
    hide Run, Replay;
    RunKeeps(maxPending, actions);
    BookIn(Run(Start(maxPending), actions).value, token);
  }

  /**
   * A step that removes a record owes its cancellation, except a close that says the backend is finished or lost;
   * and the removed token is remembered for its client at once, except perhaps by the reaper.
   */
  lemma RemovalOwesCancellation(s: Sys, a: Action, t: Sys, token: Token)
    requires Inv(s) && Do(s, a) == Some(t)
    requires token in s.table.records && token !in t.table.records
    ensures token in t.owed <==> !(a.Finish? && (a.phase == Completed || a.phase == Lost))
    ensures !a.Reap? ==> (token, s.table.records[token].client) in t.table.tombstones
    ensures token in s.books && token in t.books && t.books[token].log == s.books[token].log + [Removed]
  {
    hide Do, LegsOk, BooksOk, TombstonesOk, BookOk;
    NotOwedYet(s, token);
    match a {
      case Claim(_, _, _, _, _, _) => LateClaimRemoves(s, a, t, token);
      case Check(leg, now) => CheckRemoves(s, leg, now, t, token);
      case Finish(leg, phase) => FinishRemoves(s, leg, phase, t, token);
      case Reap(_, _) => ReapRemoves(s, a, t, token);
      case _ => OthersKeepRecords(s, a, t);
    }
  }

  lemma NotOwedYet(s: Sys, token: Token)
    requires Inv(s) && token in s.table.records
    ensures token in s.books && token !in s.owed
  {
    hide Replay, LegsOk, TombstonesOk;
    BookIn(s, token);
  }

  lemma LateClaimRemoves(s: Sys, a: Action, t: Sys, token: Token)
    requires a.Claim? && Do(s, a) == Some(t) && token in s.books && token !in s.owed
    requires token in s.table.records && token !in t.table.records
    ensures token in t.owed && (token, s.table.records[token].client) in t.table.tombstones
    ensures token in t.books && t.books[token].log == s.books[token].log + [Removed]
  {
    hide Ring;
    var entry := (token, s.table.records[token].client);
    RingHolds(s.table.tombstones, [entry], entry);
  }

  lemma CheckRemoves(s: Sys, leg: nat, now: int, t: Sys, token: Token)
    requires Do(s, Check(leg, now)) == Some(t) && token in s.books && token !in s.owed
    requires token in s.table.records && token !in t.table.records
    ensures token in t.owed && (token, s.table.records[token].client) in t.table.tombstones
    ensures token in t.books && t.books[token].log == s.books[token].log + [Removed]
  {
    hide CloseFor;
    ClosesOne(s, leg, s.legs[leg].mode.token, Expired, token);
  }

  lemma FinishRemoves(s: Sys, leg: nat, phase: Phase, t: Sys, token: Token)
    requires Do(s, Finish(leg, phase)) == Some(t) && token in s.books && token !in s.owed
    requires token in s.table.records && token !in t.table.records
    ensures token in t.owed <==> !(phase == Completed || phase == Lost)
    ensures (token, s.table.records[token].client) in t.table.tombstones
    ensures token in t.books && t.books[token].log == s.books[token].log + [Removed]
  {
    hide CloseFor;
    ClosesOne(s, leg, s.legs[leg].mode.token, phase, token);
  }

  lemma ReapRemoves(s: Sys, a: Action, t: Sys, token: Token)
    requires a.Reap? && Do(s, a) == Some(t) && token in s.books
    requires token in s.table.records && token !in t.table.records
    ensures token in t.owed && token in t.books && t.books[token].log == s.books[token].log + [Removed]
  {
    hide Ring, TombstonesFor;
  }

  lemma OthersKeepRecords(s: Sys, a: Action, t: Sys)
    requires Do(s, a) == Some(t) && !a.Claim? && !a.Check? && !a.Finish? && !a.Reap?
    ensures s.table.records.Keys <= t.table.records.Keys
  {
    hide Ring, TombstonesFor, DueTokens;
  }

  lemma ClosesOne(s: Sys, leg: nat, closed: Token, phase: Phase, token: Token)
    requires leg in s.legs && token in s.table.records && token in s.books && token !in s.owed
    requires token !in CloseFor(s, leg, closed, phase).table.records
    ensures var t := CloseFor(s, leg, closed, phase);
            && closed == token
            && (token in t.owed <==> phase == Cancelled || phase == Expired)
            && (token, s.table.records[token].client) in t.table.tombstones
            && token in t.books && t.books[token].log == s.books[token].log + [Removed]
  {
    hide Ring;
    var entry := (token, s.table.records[token].client);
    RingHolds(s.table.tombstones, [entry], entry);
  }

  // ---------------------------------------------------------------- what a tool result is answered

  /** How a request whose final message is a tool result for `token` is taken. */
  datatype Detection = Continuation(rec: Rec) | Conflict | Missing | Ordinary

  function Detect(t: Table, token: Token, client: Client): Detection {
    if token in t.records then Continuation(t.records[token])
    else if (token, client) in t.tombstones then Conflict
    else if token.Issued? then Missing
    else Ordinary
  }

  datatype Answer = Resume | Resolved | Unknown | TooLate | Completion

  /** The answer of the whole path: detection, then ownership, then the claim. */
  function Respond(t: Table, token: Token, client: Client, now: int): Answer {
    match Detect(t, token, client)
    case Continuation(rec) =>
      if rec.client != client then Unknown
      else
        (match ClaimVerdict(t, token, client, now)
         case Ok(_) => Resume
         case Err(AlreadyResolved) => Resolved
         case Err(NotFound) => Unknown
         case Err(PastDeadline) => TooLate)
    case Conflict => Resolved
    case Missing => Unknown
    case Ordinary => Completion
  }

  /** A result for a token this gateway issued is never fed to a fresh completion. */
  lemma {:induction false} NeverOrdinary(maxPending: nat, actions: seq<Action>, token: Token, client: Client, now: int)
    requires Run(Start(maxPending), actions).Some? && client != Nobody
    ensures var s := Run(Start(maxPending), actions).value;
            (token in s.books ==> Respond(s.table, token, client, now) != Completion)
            && (Respond(s.table, token, client, now) == Completion <==> token.Foreign?)
  {
    hide Run, Replay;
    RunKeeps(maxPending, actions);
    var s := Run(Start(maxPending), actions).value;
    if token in s.books { BookIn(s, token); }
    TombstoneIn(s, (token, client));
  }

  /** To anyone but its owner, a token that exists, one that is gone and one never issued look the same. */
  lemma {:induction false} ForeignTokensLookUnknown(
    maxPending: nat, actions: seq<Action>, token: Token, client: Client, now: int)
    requires Run(Start(maxPending), actions).Some? && token.Issued? && client != Nobody
    requires var s := Run(Start(maxPending), actions).value; token in s.books ==> s.books[token].client != client
    ensures Respond(Run(Start(maxPending), actions).value.table, token, client, now) == Unknown
  {
    hide Run, Replay;
    RunKeeps(maxPending, actions);
    var s := Run(Start(maxPending), actions).value;
    if token in s.books { BookIn(s, token); }
    TombstoneIn(s, (token, client));
  }

  /** Only the owner of a waiting record in time resumes it, and only gone tokens are called resolved when not held. */
  lemma {:induction false} OwnersAnswer(maxPending: nat, actions: seq<Action>, token: Token, now: int)
    requires Run(Start(maxPending), actions).Some?
    requires token in Run(Start(maxPending), actions).value.books
    ensures var s := Run(Start(maxPending), actions).value;
            var answer := Respond(s.table, token, s.books[token].client, now);
            && Replay(s.books[token].log).Some?
            && var stage := Replay(s.books[token].log).value.stage;
            && (answer == Resume <==> stage.Idle? && now < s.books[token].deadline)
            && (answer == TooLate <==> stage.Idle? && now >= s.books[token].deadline)
            && (answer == Unknown <==> stage.Gone? && (token, s.books[token].client) !in s.table.tombstones)
  {
    hide Run, Replay;
    RunKeeps(maxPending, actions);
    BookIn(Run(Start(maxPending), actions).value, token);
  }

  lemma RingHolds(base: seq<(Token, Client)>, added: seq<(Token, Client)>, entry: (Token, Client))
    requires |added| <= MAX_TOMBSTONES
    ensures entry in added ==> entry in Ring(base + added)
    ensures entry !in base && entry !in added ==> entry !in Ring(base + added)
  {
    if entry in added {
      var i :| 0 <= i < |added| && added[i] == entry;
      var all := base + added;
      assert all[|base| + i] == entry;
      if |all| > MAX_TOMBSTONES {
        assert all[|all| - MAX_TOMBSTONES..][|base| + i - (|all| - MAX_TOMBSTONES)] == entry;
      }
    }
  }
}
