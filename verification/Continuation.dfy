/** The gateway's registry of suspended client-tool turns, and the protocol its callers run over it. */
module Continuation {
  import opened Wrappers

  const MAX_TOMBSTONES := 256
  const MAX_PENDING := 64

  /** A tool-call identity: one this gateway issued (`srct-` and random bits), or any other text. */
  datatype Token = Issued(bits: nat) | Foreign(number: nat)

  /** The client a tombstone belongs to. `Nobody` is the empty identifier, which no client has. */
  datatype Client = Nobody | Named(id: nat)

  datatype Phase = Waiting | Resuming | Completed | Cancelled | Expired | Lost

  datatype Rejection = NotFound | PastDeadline | AlreadyResolved

  predicate Live(phase: Phase) { phase == Waiting || phase == Resuming }

  /** What the registry knows of one record: whose it is, its absolute deadline and its state. */
  datatype Rec = Rec(client: Client, deadline: int, state: Phase)

  /** The registry's two shared structures: pending records and the ring of resolved tokens. */
  datatype Table = Table(records: map<Token, Rec>, tombstones: seq<(Token, Client)>)

  predicate Due(rec: Rec, now: int) { now >= rec.deadline }

  /** A ring keeps its newest entries. */
  function Ring(entries: seq<(Token, Client)>): (kept: seq<(Token, Client)>)
    ensures |kept| <= MAX_TOMBSTONES
  {
    if |entries| <= MAX_TOMBSTONES then entries else entries[|entries| - MAX_TOMBSTONES..]
  }

  lemma RingKeeps(entries: seq<(Token, Client)>)
    ensures |entries| <= MAX_TOMBSTONES ==> Ring(entries) == entries
    ensures |Ring(entries)| <= MAX_TOMBSTONES
  {
  }

  lemma RingAppend(entries: seq<(Token, Client)>, entry: (Token, Client))
    ensures Ring(Ring(entries) + [entry]) == Ring(entries + [entry])
  {
  }

  lemma RingExtend(base: seq<(Token, Client)>, added: seq<(Token, Client)>, entry: (Token, Client))
    ensures Ring(Ring(base + added) + [entry]) == Ring(base + (added + [entry]))
  {
    hide Ring;
    RingAppend(base + added, entry);
    assert base + (added + [entry]) == (base + added) + [entry];
  }

  // ---------------------------------------------------------------- the lock regions

  function RegisterRegion(t: Table, maxPending: nat, token: Token, rec: Rec): (Table, bool) {
    if |t.records| >= maxPending || token in t.records then (t, false)
    else (t.(records := t.records[token := rec]), true)
  }

  /** The verdict on one claim. `PastDeadline` also removes the record. */
  function ClaimVerdict(t: Table, token: Token, client: Client, now: int): Result<(), Rejection> {
    if token !in t.records then
      if (token, client) in t.tombstones then Err(AlreadyResolved) else Err(NotFound)
    else if t.records[token].client != client then Err(NotFound)
    else if t.records[token].state != Waiting then Err(AlreadyResolved)
    else if Due(t.records[token], now) then Err(PastDeadline)
    else Ok(())
  }

  function ClaimRegion(t: Table, token: Token, client: Client, now: int): Table {
    match ClaimVerdict(t, token, client, now)
    case Ok(_) => t.(records := t.records[token := t.records[token].(state := Resuming)])
    case Err(PastDeadline) => Table(t.records - {token}, Ring(t.tombstones + [(token, client)]))
    case Err(_) => t
  }

  /** Release takes the record's own lock only; a record that is not being resumed is left alone. */
  function ReleaseRegion(t: Table, token: Token): Table {
    if token in t.records && t.records[token].state == Resuming
    then t.(records := t.records[token := t.records[token].(state := Waiting)]) else t
  }

  function CloseRegion(t: Table, token: Token): Table {
    Table(t.records - {token},
          Ring(t.tombstones + [(token, if token in t.records then t.records[token].client else Nobody)]))
  }

  function DueTokens(t: Table, now: int): set<Token> {
    set token | token in t.records && Due(t.records[token], now)
  }

  lemma DueAt(t: Table, now: int, token: Token)
    ensures token in DueTokens(t, now) <==> token in t.records && now >= t.records[token].deadline
  {
  }

  lemma DueAmong(t: Table, now: int)
    ensures DueTokens(t, now) <= t.records.Keys
  {
  }

  lemma DueAre(t: Table, now: int)
    ensures DueTokens(t, now) <= t.records.Keys
    ensures forall token :: token in DueTokens(t, now) <==> token in t.records && now >= t.records[token].deadline
  {
  }

  /** `added` lists, in some order, one tombstone for each of `tokens` that expires while being resumed. */
  ghost predicate TombstonesFor(t: Table, tokens: set<Token>, added: seq<(Token, Client)>) {
    && (forall i, j :: 0 <= i < j < |added| ==> added[i].0 != added[j].0)
    && (forall i :: 0 <= i < |added| ==>
          added[i].0 in tokens && added[i].0 in t.records
          && t.records[added[i].0].state != Waiting && added[i].1 == t.records[added[i].0].client)
    && (forall token :: token in tokens && token in t.records && t.records[token].state != Waiting ==>
          (token, t.records[token].client) in added)
  }

  lemma TombstonesStep(t: Table, tokens: set<Token>, added: seq<(Token, Client)>, token: Token)
    requires TombstonesFor(t, tokens, added) && token !in tokens && token in t.records
    ensures TombstonesFor(t, tokens + {token},
                          if t.records[token].state == Waiting then added
                          else added + [(token, t.records[token].client)])
  {
    var entry := (token, t.records[token].client);
    assert entry in added + [entry];
    assert forall e :: e in added ==> e in added + [entry];
  }

  ghost predicate ReapTombstones(t: Table, now: int, added: seq<(Token, Client)>) {
    TombstonesFor(t, DueTokens(t, now), added)
  }

  function ReapRegion(t: Table, now: int, added: seq<(Token, Client)>): Table {
    Table(t.records - DueTokens(t, now), Ring(t.tombstones + added))
  }

  lemma SameSize<U, V>(a: map<Token, U>, b: map<Token, V>)
    requires a.Keys == b.Keys
    ensures |a| == |b|
  {
    assert |a.Keys| == |a| && |b.Keys| == |b|;
  }

  lemma RemovalShrinks<V>(m: map<Token, V>, gone: set<Token>)
    ensures |m - gone| <= |m|
  {
    assert (m - gone).Keys == m.Keys - gone;
    assert m.Keys == (m.Keys - gone) + (m.Keys * gone);
  }

  lemma Visited<V>(m: map<Token, V>, due: set<Token>, pending: set<Token>, token: Token)
    requires token in pending
    ensures due - (pending - {token}) == if token in due then (due - pending) + {token} else due - pending
    ensures m - (due - pending) - {token} == m - ((due - pending) + {token})
  {
  }

  // ---------------------------------------------------------------- the registry object

  class PendingContinuation {
    const token: Token
    const client: Client
    const deadline: int
    const cancellable: bool
    var state: Phase
    /** How often the cancel callback has run. */
    var cancels: nat

    constructor (token: Token, client: Client, deadline: int, cancellable: bool)
      ensures this.token == token && this.client == client && this.deadline == deadline
      ensures this.cancellable == cancellable && state == Waiting && cancels == 0
    {
      this.token, this.client, this.deadline, this.cancellable := token, client, deadline, cancellable;
      state, cancels := Waiting, 0;
    }

    function View(): Rec
      reads this
    {
      Rec(client, deadline, state)
    }

    /** The one `waiting` to `resuming` transition. */
    method ClaimTransition(now: int) returns (r: Result<(), Rejection>)
      modifies this`state
      ensures r == if old(state) != Waiting then Err(AlreadyResolved)
                   else if now >= deadline then Err(PastDeadline) else Ok(())
      ensures state == match r { case Ok(_) => Resuming case Err(PastDeadline) => Expired case Err(_) => old(state) }
    {
      if state != Waiting { return Err(AlreadyResolved); }
      if now >= deadline {
        state := Expired;
        return Err(PastDeadline);
      }
      state := Resuming;
      return Ok(());
    }

    method MarkTerminal(phase: Phase)
      modifies this`state
      ensures state == phase
    {
      state := phase;
    }

    method MarkExpired() returns (wasWaiting: bool)
      modifies this`state
      ensures state == Expired && wasWaiting == (old(state) == Waiting)
    {
      wasWaiting := state == Waiting;
      state := Expired;
    }

    method RestoreWaiting()
      modifies this`state
      ensures state == if old(state) == Resuming then Waiting else old(state)
    {
      if state == Resuming { state := Waiting; }
    }

    /** Runs the cancel callback, if the composition supplied one. */
    method Cancel()
      modifies this`cancels
      ensures cancels == old(cancels) + (if cancellable then 1 else 0)
    {
      if cancellable { cancels := cancels + 1; }
    }
  }

  function ViewOf(records: map<Token, PendingContinuation>): map<Token, Rec>
    reads records.Values
  {
    map token | token in records :: records[token].View()
  }

  /** Every record sits under its own token, and is waiting or being resumed. */
  ghost predicate Registered(records: map<Token, PendingContinuation>)
    reads records.Values
  {
    forall token :: token in records ==> records[token].token == token && Live(records[token].state)
  }

  lemma ViewAt(records: map<Token, PendingContinuation>, token: Token)
    ensures token in ViewOf(records) <==> token in records
    ensures token in records ==> ViewOf(records)[token] == records[token].View()
  {
  }

  lemma Alone(records: map<Token, PendingContinuation>, token: Token)
    requires Registered(records) && token in records
    ensures forall k :: k in records && k != token ==> records[k] != records[token]
    ensures forall k :: k in records - {token} ==> (records - {token})[k] != records[token]
  {
  }

  lemma ViewIs(records: map<Token, PendingContinuation>)
    ensures ViewOf(records).Keys == records.Keys
    ensures forall token :: token in records ==> ViewOf(records)[token] == records[token].View()
  {
  }

  twostate lemma ViewAfterRemoval(before: map<Token, PendingContinuation>, new gone: set<Token>)
    requires forall k :: k in before && k !in gone ==> before[k].state == old(before[k].state)
    ensures ViewOf(before - gone) == old(ViewOf(before)) - gone
    ensures old(Registered(before)) ==> Registered(before - gone)
  {
  }

  twostate lemma ViewAfterChange(records: map<Token, PendingContinuation>, new token: Token)
    requires token in records && old(Registered(records))
    requires forall k :: k in records && k != token ==> records[k].state == old(records[k].state)
    ensures ViewOf(records) == old(ViewOf(records))[token := records[token].View()]
    ensures Live(records[token].state) ==> Registered(records)
  {
  }

  twostate lemma ViewUnchanged(records: map<Token, PendingContinuation>)
    requires forall k :: k in records ==> records[k].state == old(records[k].state)
    ensures ViewOf(records) == old(ViewOf(records)) && (old(Registered(records)) ==> Registered(records))
  {
  }

  /** A record that is not under its own token is under no token. */
  lemma Unlisted(records: map<Token, PendingContinuation>, record: PendingContinuation)
    requires Registered(records) && !(record.token in records && records[record.token] == record)
    ensures forall k :: k in records ==> records[k] != record
  {
  }

  lemma SameEntry<V>(m: map<Token, V>, token: Token)
    requires token in m
    ensures m[token := m[token]] == m
  {
  }

  /** The records of `seen` are expired; the others are as they were. */
  ghost predicate Marked(records: map<Token, PendingContinuation>, seen: set<Token>, was: map<Token, Rec>)
    reads records.Values
  {
    && was.Keys == records.Keys
    && forall k :: k in records ==>
         records[k].token == k
         && records[k].View() == if k in seen then was[k].(state := Expired) else was[k]
  }

  lemma {:induction false} NothingMarked(records: map<Token, PendingContinuation>)
    requires Registered(records)
    ensures Marked(records, {}, ViewOf(records))
  {
  }

  lemma {:induction false} MarkedAt(
    records: map<Token, PendingContinuation>, seen: set<Token>, was: map<Token, Rec>, token: Token)
    requires Marked(records, seen, was) && token in records && token !in seen
    ensures records[token].View() == was[token] && records[token].token == token
  {
  }

  twostate lemma MarkedStep(
    records: map<Token, PendingContinuation>, new seen: set<Token>, new was: map<Token, Rec>, new token: Token)
    requires old(Marked(records, seen, was)) && token in records && records[token].state == Expired
    requires forall o :: o in records.Values && o != records[token] ==> o.state == old(o.state)
    ensures Marked(records, seen + {token}, was)
  {
  }

  twostate lemma MarkedIs(
    records: map<Token, PendingContinuation>, new seen: set<Token>, new was: map<Token, Rec>)
    requires Marked(records, seen, was) && was == old(ViewOf(records))
    ensures forall k :: k in records ==>
              records[k].token == k
              && records[k].state == if k in seen then Expired else old(records[k].state)
  {
  }

  class ContinuationRegistry {
    const maxPending: nat
    var records: map<Token, PendingContinuation>
    var tombstones: seq<(Token, Client)>

    ghost predicate Valid()
      reads this, records.Values
    {
      |records| <= maxPending && |tombstones| <= MAX_TOMBSTONES && Registered(records)
    }

    /** What the shared structures hold, as a value. */
    ghost function View(): Table
      reads this, records.Values
    {
      Table(ViewOf(records), tombstones)
    }

    constructor (maxPending: nat)
      requires maxPending >= 1
      ensures Valid() && View() == Table(map[], []) && this.maxPending == maxPending && records == map[]
    {
      this.maxPending := maxPending;
      records, tombstones := map[], [];
    }

    method Register(record: PendingContinuation) returns (registered: bool)
      requires Valid() && record.state == Waiting
      modifies this`records
      ensures Valid()
      ensures (View(), registered) == RegisterRegion(old(View()), maxPending, record.token, record.View())
      ensures records == if registered then old(records)[record.token := record] else old(records)
    {
      SameSize(ViewOf(records), records);
      if |records| >= maxPending { return false; }
      if record.token in records { return false; }
      records := records[record.token := record];
      assert ViewOf(records) == old(ViewOf(records))[record.token := record.View()];
      return true;
    }

    method Detect(token: Token) returns (record: Option<PendingContinuation>)
      ensures record == if token in records then Some(records[token]) else None
    {
      if token in records { return Some(records[token]); }
      return None;
    }

    method WasTerminalFor(token: Token, client: Client) returns (resolved: bool)
      ensures resolved == ((token, client) in tombstones)
    {
      resolved := (token, client) in tombstones;
    }

    /** At most one caller at a time gets the record. A claim past the deadline removes and cancels it instead. */
    method Claim(token: Token, client: Client, now: int) returns (r: Result<PendingContinuation, Rejection>)
      requires Valid()
      modifies this`records, this`tombstones, records.Values
      ensures Valid()
      ensures View() == ClaimRegion(old(View()), token, client, now)
      ensures r.Ok? <==> ClaimVerdict(old(View()), token, client, now).Ok?
      ensures r.Err? ==> ClaimVerdict(old(View()), token, client, now) == Err(r.error)
      ensures records
           == if ClaimVerdict(old(View()), token, client, now) == Err(PastDeadline) then old(records) - {token}
              else old(records)
      ensures r.Ok? ==> token in old(records) && r.value == old(records)[token] && r.value.state == Resuming
      ensures r == Err(PastDeadline) ==>
                token in old(records) && old(records)[token].state == Expired
                && old(records)[token].cancels
                   == old(records[token].cancels) + (if old(records)[token].cancellable then 1 else 0)
      ensures forall k :: k in old(records) && k != token ==> unchanged(old(records)[k])
      ensures r != Err(PastDeadline) ==>
                forall k :: k in old(records) ==> old(records)[k].cancels == old(records[k].cancels)
    {
      hide Ring, ViewOf;
      ViewAt(records, token);
      if token !in records {
        return Err(if (token, client) in tombstones then AlreadyResolved else NotFound);
      }
      var record := records[token];
      if record.client != client { return Err(NotFound); }
      var outcome := record.ClaimTransition(now);
      match outcome {
        case Ok(_) =>
          ViewAfterChange(records, token);
          r := Ok(record);
        case Err(PastDeadline) =>
          RemovalShrinks(records, {token});
          RingKeeps(tombstones + [(token, client)]);
          records, tombstones := records - {token}, Ring(tombstones + [(token, client)]);
          record.Cancel();
          ViewAfterRemoval(old(records), {token});
          r := Err(PastDeadline);
        case Err(other) => r := Err(other);
      }
    }

    /** Removes a record for good. Only the removal that finds it may cancel. */
    method Close(token: Token, phase: Phase, cancelBackend: bool)
      requires Valid() && !Live(phase)
      modifies this`records, this`tombstones, records.Values
      ensures Valid()
      ensures View() == CloseRegion(old(View()), token)
      ensures records == old(records) - {token}
      ensures token in old(records) ==>
                old(records)[token].state == phase
                && old(records)[token].cancels
                   == old(records[token].cancels) + (if cancelBackend && old(records)[token].cancellable then 1 else 0)
      ensures forall k :: k in old(records) && k != token ==> unchanged(old(records)[k])
    {
      hide Ring, ViewOf, Registered;
      ViewAt(records, token);
      if token in records { Alone(records, token); }
      var record := Drop(token);
      if record.Some? {
        record.value.MarkTerminal(phase);
        if cancelBackend { record.value.Cancel(); }
      }
      ViewAfterRemoval(old(records), {token});
    }

    /** The lock region of a close: takes the record out and remembers the token, with its client or with none. */
    method Drop(token: Token) returns (record: Option<PendingContinuation>)
      requires |records| <= maxPending
      modifies this`records, this`tombstones
      ensures record == if token in old(records) then Some(old(records)[token]) else None
      ensures records == old(records) - {token} && |records| <= maxPending && |tombstones| <= MAX_TOMBSTONES
      ensures tombstones
           == Ring(old(tombstones) + [(token, if record.Some? then record.value.client else Nobody)])
    {
      hide Ring;
      record := if token in records then Some(records[token]) else None;
      var client := if record.Some? then record.value.client else Nobody;
      RemovalShrinks(records, {token});
      RingKeeps(tombstones + [(token, client)]);
      records, tombstones := records - {token}, Ring(tombstones + [(token, client)]);
    }

    /** Takes the record's own lock only; a record that is not being resumed is left alone. */
    method ReleaseUnclaimed(record: PendingContinuation)
      requires Valid()
      modifies record`state
      ensures Valid()
      ensures record.token in records && records[record.token] == record ==>
                View() == ReleaseRegion(old(View()), record.token)
      ensures !(record.token in records && records[record.token] == record) ==> View() == old(View())
    {
      hide ViewOf, Registered;
      ViewAt(records, record.token);
      if record.token in records && records[record.token] == record {
        Alone(records, record.token);
        record.RestoreWaiting();
        ViewAfterChange(records, record.token);
        SameEntry(old(ViewOf(records)), record.token);
      } else {
        Unlisted(records, record);
        record.RestoreWaiting();
        ViewUnchanged(records);
      }
    }

    /** Removes one record that is past its deadline; only a record being resumed leaves a tombstone. */
    method ExpireRecord(
      token: Token, ghost before: map<Token, PendingContinuation>, ghost seen: set<Token>, ghost was: map<Token, Rec>)
      returns (record: PendingContinuation)
      requires Marked(before, seen, was) && token in before && token !in seen
      requires token in records && records[token] == before[token] && |records| <= maxPending
      requires |tombstones| <= MAX_TOMBSTONES
      modifies this`records, this`tombstones, (var record: PendingContinuation := records[token]; record)`state
      ensures records == old(records) - {token} && |records| <= maxPending && |tombstones| <= MAX_TOMBSTONES
      ensures record == old(records)[token]
      ensures tombstones == if was[token].state == Waiting then old(tombstones)
                            else Ring(old(tombstones) + [(token, was[token].client)])
      ensures Marked(before, seen + {token}, was)
    {
      hide Ring, Marked;
      MarkedAt(before, seen, was, token);
      record := records[token];
      RemovalShrinks(records, {token});
      records := records - {token};
      var wasWaiting := record.MarkExpired();
      MarkedStep(before, seen, was, token);
      if !wasWaiting {
        RingKeeps(tombstones + [(token, record.client)]);
        tombstones := Ring(tombstones + [(token, record.client)]);
      }
    }

    /** The reaper's loop over the records. */
    method Sweep(now: int) returns (expired: seq<PendingContinuation>, ghost added: seq<(Token, Client)>)
      requires Valid()
      modifies this`records, this`tombstones, (set r | r in records.Values)`state
      ensures |tombstones| <= MAX_TOMBSTONES && tombstones == Ring(old(tombstones) + added)
      ensures records == old(records) - DueTokens(old(View()), now) && |records| <= maxPending
      ensures Marked(old(records), DueTokens(old(View()), now), old(ViewOf(records)))
      ensures Collecting(old(records), DueTokens(old(View()), now), expired)
      ensures TombstonesFor(old(View()), DueTokens(old(View()), now), added)
    {
      hide Ring, ViewOf, DueTokens, TombstonesFor, Collecting, Marked, Registered;
      expired, added := [], [];
      ghost var before, start := records, View();
      ghost var due, seen: set<Token> := DueTokens(start, now), {};
      var pending := records.Keys;
      assert tombstones + [] == tombstones && Ring(tombstones) == tombstones by { RingKeeps(tombstones); }
      ViewIs(records);
      DueAmong(start, now);
      NothingCollected(start, before);
      NothingMarked(before);
      while pending != {}
        invariant pending <= before.Keys && seen == due - pending
        invariant records == before - seen && |records| <= maxPending
        invariant |tombstones| <= MAX_TOMBSTONES && tombstones == Ring(start.tombstones + added)
        invariant Marked(before, seen, start.records)
        invariant Collecting(before, seen, expired) && TombstonesFor(start, seen, added)
        decreases pending
      {
        var token :| token in pending;
        Visited(before, due, pending, token);
        pending := pending - {token};
        MarkedAt(before, seen, start.records, token);
        DueAt(start, now, token);
        if now >= records[token].deadline {
          ghost var entry := (token, start.records[token].client);
          TombstonesStep(start, seen, added, token);
          CollectedStep(before, seen, expired, token);
          RingExtend(start.tombstones, added, entry);
          if start.records[token].state != Waiting { added := added + [entry]; }
          var record := ExpireRecord(token, before, seen, start.records);
          expired := expired + [record];
          seen := seen + {token};
        }
      }
      assert seen == due;
    }

    /** The lock region of the reaper: removes every record past its deadline. */
    method RemoveDue(now: int) returns (expired: seq<PendingContinuation>, ghost added: seq<(Token, Client)>)
      requires Valid()
      modifies this`records, this`tombstones, (set r | r in records.Values)`state
      ensures Valid()
      ensures ReapTombstones(old(View()), now, added) && View() == ReapRegion(old(View()), now, added)
      ensures records == old(records) - DueTokens(old(View()), now)
      ensures Collected(old(records), now, expired) && forall r :: r in expired ==> r !in records.Values
      ensures forall k :: k in old(records) ==>
                old(records)[k].state == if now >= old(records)[k].deadline then Expired else old(records[k].state)
    {
      hide Ring, ViewOf, DueTokens, TombstonesFor, Collecting, Collected, Marked, Registered;
      ghost var before, start := records, View();
      ViewIs(records);
      DueAre(start, now);
      expired, added := Sweep(now);
      MarkedIs(before, DueTokens(start, now), start.records);
      AllCollected(before, DueTokens(start, now), now, expired);
      CollectedAre(before, now, expired);
      ViewAfterRemoval(before, DueTokens(start, now));
    }

    /** Runs the cancel callback of each record once. */
    method CancelAll(expired: seq<PendingContinuation>)
      requires Valid()
      requires forall i, j :: 0 <= i < j < |expired| ==> expired[i] != expired[j]
      requires forall r :: r in expired ==> r !in records.Values
      modifies (set r | r in expired)`cancels
      ensures Valid() && View() == old(View())
      ensures forall r :: r in expired ==> r.cancels == old(r.cancels) + (if r.cancellable then 1 else 0)
    {
      hide ViewOf, Registered;
      for i := 0 to |expired|
        invariant forall j :: 0 <= j < |expired| ==>
                    expired[j].cancels
                    == old(expired[j].cancels) + (if j < i && expired[j].cancellable then 1 else 0)
      {
        expired[i].Cancel();
      }
    }

    /** Removes and cancels every record past its deadline. */
    method ExpireDue(now: int) returns (expired: seq<PendingContinuation>, ghost added: seq<(Token, Client)>)
      requires Valid()
      modifies this`records, this`tombstones, records.Values
      ensures Valid()
      ensures ReapTombstones(old(View()), now, added) && View() == ReapRegion(old(View()), now, added)
      ensures records == old(records) - DueTokens(old(View()), now)
      ensures Collected(old(records), now, expired)
      ensures forall k :: k in old(records) && now >= old(records)[k].deadline ==>
                old(records)[k].state == Expired
                && old(records)[k].cancels
                   == old(records[k].cancels) + (if old(records)[k].cancellable then 1 else 0)
      ensures forall k :: k in old(records) && now < old(records)[k].deadline ==> unchanged(old(records)[k])
    {
      hide Ring, ViewOf, DueTokens, ReapTombstones, ReapRegion, TombstonesFor, Collected, Registered;
      ghost var before := records;
      expired, added := RemoveDue(now);
      CollectedAre(before, now, expired);
      CancelAll(expired);
    }
  }

  /** `expired` holds, in some order and once each, exactly the records past their deadline. */
  ghost predicate Collected(records: map<Token, PendingContinuation>, now: int, expired: seq<PendingContinuation>) {
    && (forall i, j :: 0 <= i < j < |expired| ==> expired[i] != expired[j])
    && (forall r :: r in expired ==> r in records.Values)
    && (forall k :: k in records ==> (records[k] in expired <==> now >= records[k].deadline))
  }

  /** The same, while `pending` is still to be looked at. */
  ghost predicate Collecting(
    records: map<Token, PendingContinuation>, tokens: set<Token>, expired: seq<PendingContinuation>)
  {
    && (forall i, j :: 0 <= i < j < |expired| ==> expired[i].token != expired[j].token)
    && (forall i :: 0 <= i < |expired| ==>
          expired[i].token in tokens && expired[i].token in records && records[expired[i].token] == expired[i])
    && (forall k :: k in tokens && k in records ==> records[k] in expired)
  }

  lemma NothingCollected(t: Table, records: map<Token, PendingContinuation>)
    ensures TombstonesFor(t, {}, []) && Collecting(records, {}, [])
  {
  }

  lemma CollectedStep(
    records: map<Token, PendingContinuation>, tokens: set<Token>, expired: seq<PendingContinuation>, token: Token)
    requires Collecting(records, tokens, expired) && token !in tokens && token in records
    requires records[token].token == token
    ensures Collecting(records, tokens + {token}, expired + [records[token]])
  {
    assert forall e :: e in expired ==> e in expired + [records[token]];
    assert records[token] in expired + [records[token]];
  }

  lemma AllCollected(
    records: map<Token, PendingContinuation>, tokens: set<Token>, now: int, expired: seq<PendingContinuation>)
    requires forall k :: k in records ==> records[k].token == k
    requires forall k :: k in records ==> (k in tokens <==> now >= records[k].deadline)
    requires Collecting(records, tokens, expired)
    ensures Collected(records, now, expired)
  {
  }

  lemma CollectedAre(
    records: map<Token, PendingContinuation>, now: int, expired: seq<PendingContinuation>)
    requires Collected(records, now, expired)
    ensures forall i, j :: 0 <= i < j < |expired| ==> expired[i] != expired[j]
    ensures forall r :: r in expired ==> r in records.Values
    ensures forall k :: k in records ==> (records[k] in expired <==> now >= records[k].deadline)
  {
  }
}
