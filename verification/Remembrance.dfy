/**
 * How long the registry remembers a resolved token, over every run: a record's removal appends its tombstone unless
 * the reaper found it still waiting, and the ring forgets a tombstone once its capacity of newer ones has come.
 */
module Remembrance {
  import opened Wrappers
  import opened Continuation
  import opened ContinuationProtocol

  /** The tombstone a close leaves: with the client of the record it found, or with none. */
  function Closing(t: Table, token: Token): (Token, Client) {
    (token, if token in t.records then t.records[token].client else Nobody)
  }

  /** The tombstones one action appends, in order. */
  ghost function Appended(s: Sys, a: Action): seq<(Token, Client)>
    requires Do(s, a).Some?
  {
    match a
    case Claim(_, token, client, _, _, now) =>
      if token in s.table.records && token in s.books && ClaimVerdict(s.table, token, client, now) == Err(PastDeadline)
      then [(token, client)] else []
    case Check(leg, now) => if now < s.legs[leg].deadline then [] else [Closing(s.table, s.legs[leg].mode.token)]
    case Finish(leg, _) => if s.legs[leg].mode.Dispatching? then [] else [Closing(s.table, s.legs[leg].mode.token)]
    case Reap(_, added) => added
    case _ => []
  }

  /** Every tombstone a run ever appended, in order. */
  ghost function Trail(maxPending: nat, actions: seq<Action>): seq<(Token, Client)>
    requires Run(Start(maxPending), actions).Some?
  {
    if actions == [] then []
    else
      var front := actions[..|actions| - 1];
      Trail(maxPending, front) + Appended(Run(Start(maxPending), front).value, actions[|actions| - 1])
  }

  /** How many tombstones were appended after the latest one of `entry`. */
  function Since(trail: seq<(Token, Client)>, entry: (Token, Client)): (n: nat)
    ensures n <= |trail|
  {
    if trail == [] || trail[|trail| - 1] == entry then 0 else 1 + Since(trail[..|trail| - 1], entry)
  }

  /** After the first `k` actions the token has a record, and action `k` removes it. */
  ghost predicate RemovedAt(maxPending: nat, actions: seq<Action>, k: nat, token: Token) {
    && k < |actions|
    && Run(Start(maxPending), actions[..k]).Some? && Run(Start(maxPending), actions[..k + 1]).Some?
    && token in Run(Start(maxPending), actions[..k]).value.table.records
    && token !in Run(Start(maxPending), actions[..k + 1]).value.table.records
  }

  /** That removal was a reap that found the record still waiting. */
  ghost predicate ReapedWaiting(maxPending: nat, actions: seq<Action>, k: nat, token: Token)
    requires RemovedAt(maxPending, actions, k, token)
  {
    actions[k].Reap? && Run(Start(maxPending), actions[..k]).value.table.records[token].state == Waiting
  }

  // ---------------------------------------------------------------- the ring holds the end of the trail

  lemma RingTwice(base: seq<(Token, Client)>, added: seq<(Token, Client)>)
    ensures Ring(Ring(base) + added) == Ring(base + added)
  {
  }

  lemma AppendedIs(s: Sys, a: Action, t: Sys)
    requires Do(s, a) == Some(t) && |s.table.tombstones| <= MAX_TOMBSTONES
    ensures t.table.tombstones == Ring(s.table.tombstones + Appended(s, a))
  {
    hide Ring, TombstonesFor, DueTokens;
    assert s.table.tombstones + [] == s.table.tombstones;
    RingKeeps(s.table.tombstones);
  }

  lemma RunFront(maxPending: nat, actions: seq<Action>)
    requires Run(Start(maxPending), actions).Some? && actions != []
    ensures var front := actions[..|actions| - 1];
            && Run(Start(maxPending), front).Some?
            && Do(Run(Start(maxPending), front).value, actions[|actions| - 1]) == Run(Start(maxPending), actions)
            && Inv(Run(Start(maxPending), front).value)
  {
    hide Do, Inv;
    RunKeeps(maxPending, actions[..|actions| - 1]);
  }

  lemma {:induction false} RingOfTrail(maxPending: nat, actions: seq<Action>)
    requires Run(Start(maxPending), actions).Some?
    ensures Run(Start(maxPending), actions).value.table.tombstones == Ring(Trail(maxPending, actions))
  {
    hide Do, Ring, Appended, BooksOk, LegsOk, TombstonesOk;
    if actions == [] {
      RingKeeps([]);
    } else {
      var front, last := actions[..|actions| - 1], actions[|actions| - 1];
      RunFront(maxPending, actions);
      RingOfTrail(maxPending, front);
      AppendedIs(Run(Start(maxPending), front).value, last, Run(Start(maxPending), actions).value);
      RingTwice(Trail(maxPending, front), Appended(Run(Start(maxPending), front).value, last));
    }
  }

  /** The latest tombstone of `entry`, if there is one, has exactly so many after it. */
  lemma {:induction false} LatestAt(trail: seq<(Token, Client)>, entry: (Token, Client))
    ensures forall i :: 0 <= i < |trail| && trail[i] == entry ==> i < |trail| - Since(trail, entry)
    ensures entry in trail ==> Since(trail, entry) < |trail| && trail[|trail| - 1 - Since(trail, entry)] == entry
  {
    if trail != [] && trail[|trail| - 1] != entry {
      var front := trail[..|trail| - 1];
      LatestAt(front, entry);
      assert forall i :: 0 <= i < |front| ==> front[i] == trail[i];
    }
  }

  /** An entry is still in the ring exactly when fewer newer ones have come than the ring can hold. */
  lemma RingHasNewest(trail: seq<(Token, Client)>, entry: (Token, Client))
    ensures entry in Ring(trail) <==> entry in trail && Since(trail, entry) < MAX_TOMBSTONES
  {
    hide Since;
    LatestAt(trail, entry);
    var kept := Ring(trail);
    var from := |trail| - |kept|;
    assert forall i :: 0 <= i < |kept| ==> kept[i] == trail[from + i];
    if entry in trail && Since(trail, entry) < MAX_TOMBSTONES {
      assert kept[|trail| - 1 - Since(trail, entry) - from] == entry;
    }
  }

  // ---------------------------------------------------------------- which removals leave a tombstone

  /** A record that is gone stays gone, and its book keeps its client. */
  lemma GoneStays(s: Sys, a: Action, t: Sys, token: Token)
    requires Do(s, a) == Some(t) && token in s.books && token !in s.table.records
    ensures token in t.books && token !in t.table.records && t.books[token].client == s.books[token].client
  {
    hide Ring, TombstonesFor, DueTokens;
  }

  lemma BookRemains(s: Sys, a: Action, t: Sys, token: Token)
    requires Do(s, a) == Some(t) && token in s.books
    ensures token in t.books && t.books[token].client == s.books[token].client
  {
    hide Ring, TombstonesFor, DueTokens;
  }

  /** A registered token has a book, before and after any step, and the record is its client's. */
  lemma RegisteredHasBook(s: Sys, a: Action, t: Sys, token: Token)
    requires Inv(s) && Do(s, a) == Some(t) && token in s.table.records
    ensures token in s.books && token in t.books && t.books[token].client == s.books[token].client
    ensures s.table.records[token].client == s.books[token].client != Nobody
  {
    hide Do, LegsOk, TombstonesOk, Replay;
    BookIn(s, token);
    BookRemains(s, a, t, token);
  }

  /** A tombstone with a client is appended only by the step that removes that client's record. */
  lemma OnlyByRemoval(s: Sys, a: Action, t: Sys, entry: (Token, Client))
    requires Do(s, a) == Some(t) && entry in Appended(s, a) && entry.1 != Nobody
    ensures entry.0 in s.table.records && s.table.records[entry.0].client == entry.1
    ensures entry.0 !in t.table.records
    ensures !(a.Reap? && s.table.records[entry.0].state == Waiting)
  {
    hide Ring;
  }

  /** Every removal appends its tombstone, except a reap that finds the record waiting. */
  lemma RemovalAppends(s: Sys, a: Action, t: Sys, token: Token)
    requires Do(s, a) == Some(t) && token in s.table.records && token !in t.table.records
    ensures !(a.Reap? && s.table.records[token].state == Waiting) ==>
              (token, s.table.records[token].client) in Appended(s, a)
  {
    hide Ring;
  }

  /** Each tombstone with a client on the trail is of a token that is gone and was that client's. */
  lemma {:induction false} TrailIsOfGone(maxPending: nat, actions: seq<Action>, entry: (Token, Client))
    requires Run(Start(maxPending), actions).Some? && entry in Trail(maxPending, actions) && entry.1 != Nobody
    ensures TombstoneOk(Run(Start(maxPending), actions).value, entry)
  {
    hide Do, Appended, BooksOk, LegsOk, TombstonesOk;
    var front, last := actions[..|actions| - 1], actions[|actions| - 1];
    RunFront(maxPending, actions);
    var s, t := Run(Start(maxPending), front).value, Run(Start(maxPending), actions).value;
    if entry in Appended(s, last) {
      OnlyByRemoval(s, last, t, entry);
      RegisteredHasBook(s, last, t, entry.0);
    } else {
      TrailIsOfGone(maxPending, front, entry);
      GoneStays(s, last, t, entry.0);
    }
  }

  // ---------------------------------------------------------------- what the owner's replay is answered

  lemma {:induction false} RunPrefix(maxPending: nat, actions: seq<Action>, k: nat)
    requires Run(Start(maxPending), actions).Some? && k <= |actions|
    ensures Run(Start(maxPending), actions[..k]).Some?
  {
    hide Do;
    if k < |actions| {
      RunPrefix(maxPending, actions[..|actions| - 1], k);
      assert actions[..|actions| - 1][..k] == actions[..k];
    } else {
      assert actions[..k] == actions;
    }
  }

  /** From its removal on a token is gone, and its tombstone is on the trail exactly if the removal left one. */
  lemma {:induction false} TrailAfterRemoval(maxPending: nat, actions: seq<Action>, k: nat, token: Token)
    requires Run(Start(maxPending), actions).Some? && RemovedAt(maxPending, actions, k, token)
    ensures var s := Run(Start(maxPending), actions).value;
            && token in s.books && token !in s.table.records && s.books[token].client != Nobody
            && ((token, s.books[token].client) in Trail(maxPending, actions)
                <==> !ReapedWaiting(maxPending, actions, k, token))
  {
    hide Do, Appended, BooksOk, LegsOk, TombstonesOk;
    var front, last := actions[..|actions| - 1], actions[|actions| - 1];
    RunFront(maxPending, actions);
    var s, t := Run(Start(maxPending), front).value, Run(Start(maxPending), actions).value;
    if k == |actions| - 1 {
      assert actions[..k + 1] == actions;
      RegisteredHasBook(s, last, t, token);
      var entry := (token, s.books[token].client);
      if entry in Trail(maxPending, front) { TrailIsOfGone(maxPending, front, entry); }
      if entry in Appended(s, last) { OnlyByRemoval(s, last, t, entry); } else { RemovalAppends(s, last, t, token); }
    } else {
      assert front[..k] == actions[..k] && front[..k + 1] == actions[..k + 1];
      TrailAfterRemoval(maxPending, front, k, token);
      GoneStays(s, last, t, token);
      var entry := (token, s.books[token].client);
      if entry in Appended(s, last) { OnlyByRemoval(s, last, t, entry); }
    }
  }

  /** A token whose record is gone had it removed by one action of the run. */
  lemma {:induction false} GoneWasRemoved(maxPending: nat, actions: seq<Action>, token: Token)
    requires Run(Start(maxPending), actions).Some?
    requires var s := Run(Start(maxPending), actions).value; token in s.books && token !in s.table.records
    ensures exists k: nat :: RemovedAt(maxPending, actions, k, token)
    ensures forall i: nat, k: nat ::
              RemovedAt(maxPending, actions, i, token) && RemovedAt(maxPending, actions, k, token) ==> i == k
  {
    hide Do, BooksOk, LegsOk, TombstonesOk;
    forall i: nat, k: nat |
      RemovedAt(maxPending, actions, i, token) && RemovedAt(maxPending, actions, k, token) && i < k
      ensures false
    {
      var before := actions[..k];
      assert before[..i] == actions[..i] && before[..i + 1] == actions[..i + 1];
      TrailAfterRemoval(maxPending, before, i, token);
    }
    var front, last := actions[..|actions| - 1], actions[|actions| - 1];
    RunFront(maxPending, actions);
    var s, t := Run(Start(maxPending), front).value, Run(Start(maxPending), actions).value;
    if token in s.table.records {
      assert actions[..|actions|] == actions;
      assert RemovedAt(maxPending, actions, |actions| - 1, token);
    } else {
      NotBornGone(s, last, t, token);
      GoneWasRemoved(maxPending, front, token);
      var k: nat :| RemovedAt(maxPending, front, k, token);
      assert front[..k] == actions[..k] && front[..k + 1] == actions[..k + 1];
      assert RemovedAt(maxPending, actions, k, token);
    }
  }

  lemma NotBornGone(s: Sys, a: Action, t: Sys, token: Token)
    requires Do(s, a) == Some(t) && token in t.books && token !in t.table.records
    ensures token in s.books
  {
    hide Ring, TombstonesFor, DueTokens;
  }

  /**
   * What the owner of a gone token is answered, whatever happened since: the explicit conflict exactly when the
   * removal was not a reap of a waiting record and fewer tombstones have come since than the ring can hold.
   */
  lemma ReplayAfterRemoval(maxPending: nat, actions: seq<Action>, k: nat, token: Token, now: int)
    requires Run(Start(maxPending), actions).Some? && RemovedAt(maxPending, actions, k, token)
    ensures var s := Run(Start(maxPending), actions).value;
            && token in s.books
            && var entry := (token, s.books[token].client);
            && Respond(s.table, token, entry.1, now)
               == if !ReapedWaiting(maxPending, actions, k, token)
                     && Since(Trail(maxPending, actions), entry) < MAX_TOMBSTONES
                  then Resolved else Unknown
  {
    hide Do, Run, Trail, Ring, Since, Replay, RemovedAt, ReapedWaiting;
    TrailAfterRemoval(maxPending, actions, k, token);
    RingOfTrail(maxPending, actions);
    var s := Run(Start(maxPending), actions).value;
    RingHasNewest(Trail(maxPending, actions), (token, s.books[token].client));
    RunKeeps(maxPending, actions);
    BookIn(s, token);
  }

  // ---------------------------------------------------------------- right after a reap

  /** One reap appends at most one tombstone for each pending record. */
  lemma AddedFits(t: Table, due: set<Token>, added: seq<(Token, Client)>)
    requires TombstonesFor(t, due, added)
    ensures |added| <= |t.records|
  {
    var keys := set i | 0 <= i < |added| :: added[i].0;
    DistinctTokens(added);
    assert keys <= t.records.Keys;
    assert t.records.Keys == keys + (t.records.Keys - keys);
  }

  lemma {:induction false} DistinctTokens(added: seq<(Token, Client)>)
    requires forall i, j :: 0 <= i < j < |added| ==> added[i].0 != added[j].0
    ensures |set i | 0 <= i < |added| :: added[i].0| == |added|
  {
    if added != [] {
      var front, last := added[..|added| - 1], added[|added| - 1];
      DistinctTokens(front);
      assert (set i | 0 <= i < |added| :: added[i].0) == (set i | 0 <= i < |front| :: front[i].0) + {last.0};
    }
  }

  lemma {:induction false} StartsWith(maxPending: nat, actions: seq<Action>)
    requires Run(Start(maxPending), actions).Some?
    ensures Run(Start(maxPending), actions).value.maxPending == maxPending
  {
    hide Ring, TombstonesFor, Replay;
    if actions != [] { StartsWith(maxPending, actions[..|actions| - 1]); }
  }

  lemma {:induction false} SinceWithin(trail: seq<(Token, Client)>, added: seq<(Token, Client)>, entry: (Token, Client))
    requires entry in added
    ensures Since(trail + added, entry) < |added|
  {
    hide Since;
    LatestAt(trail + added, entry);
    var i :| 0 <= i < |added| && added[i] == entry;
    assert (trail + added)[|trail| + i] == entry;
  }

  /**
   * Within the bound the gateway uses, no reap makes the ring forget what it has just appended: right after it, the
   * owner of a reaped record gets the conflict exactly when the record was being resumed.
   */
  lemma ReplayAfterReap(
    maxPending: nat, actions: seq<Action>, now: int, added: seq<(Token, Client)>, token: Token, later: int)
    requires Run(Start(maxPending), actions + [Reap(now, added)]).Some? && maxPending <= MAX_TOMBSTONES
    requires Run(Start(maxPending), actions).Some?
    requires var s := Run(Start(maxPending), actions).value;
             token in s.table.records && Due(s.table.records[token], now)
    ensures var s := Run(Start(maxPending), actions).value;
            var t := Run(Start(maxPending), actions + [Reap(now, added)]).value;
            && token !in t.table.records
            && Respond(t.table, token, s.table.records[token].client, later)
               == if s.table.records[token].state == Waiting then Unknown else Resolved
  {
    hide Since, Replay, BooksOk, LegsOk, TombstonesOk, Ring;
    var all := actions + [Reap(now, added)];
    assert all[..|actions|] == actions && all[..|actions| + 1] == all;
    RunFront(maxPending, all);
    StartsWith(maxPending, actions);
    var s := Run(Start(maxPending), actions).value;
    RegisteredHasBook(s, Reap(now, added), Run(Start(maxPending), all).value, token);
    assert RemovedAt(maxPending, all, |actions|, token);
    ReplayAfterRemoval(maxPending, all, |actions|, token, later);
    if s.table.records[token].state != Waiting {
      AddedFits(s.table, DueTokens(s.table, now), added);
      SinceWithin(Trail(maxPending, actions), added, (token, s.table.records[token].client));
    }
  }

  // ---------------------------------------------------------------- runs in which the conflict is not given

  lemma RunOne(maxPending: nat, actions: seq<Action>, a: Action)
    requires Run(Start(maxPending), actions).Some? && Do(Run(Start(maxPending), actions).value, a).Some?
    ensures Run(Start(maxPending), actions + [a]) == Do(Run(Start(maxPending), actions).value, a)
    ensures Trail(maxPending, actions + [a])
         == Trail(maxPending, actions) + Appended(Run(Start(maxPending), actions).value, a)
  {
    hide Do, Appended;
    assert (actions + [a])[..|actions|] == actions;
  }

  /** Nothing is pending, and only smaller numbers have been used. */
  ghost predicate Rested(s: Sys, n: nat) {
    && s.table.records == map[] && s.maxPending >= 1
    && (forall leg :: leg in s.legs ==> leg < 2 * n)
    && (forall token :: token in s.books ==> token.Issued? && token.bits < n)
  }

  /** Only turn `n` is pending; its first thread is `2 * n`. */
  ghost predicate Pending(s: Sys, n: nat, rec: Rec) {
    && s.table.records == map[Issued(n) := rec] && s.maxPending >= 1
    && Issued(n) in s.books && s.books[Issued(n)].client == rec.client
    && (forall leg :: leg in s.legs ==> leg <= 2 * n + 1)
    && (forall token :: token in s.books ==> token.Issued? && token.bits <= n)
    && if rec.state == Waiting then 2 * n + 1 !in s.legs
       else 2 * n + 1 in s.legs && s.legs[2 * n + 1].mode == Checking(Issued(n))
  }

  lemma Suspends(s: Sys, n: nat, client: Client, started: int, limit: nat)
    requires Rested(s, n) && client != Nobody
    ensures var a, b := StartTurn(2 * n, client, started, limit), Suspend(2 * n, Issued(n));
            && Do(s, a).Some? && Appended(s, a) == []
            && Do(Do(s, a).value, b).Some? && Appended(Do(s, a).value, b) == []
            && var t := Do(Do(s, a).value, b).value;
            && Pending(t, n, Rec(client, started + limit, Waiting)) && t.table.tombstones == s.table.tombstones
  {
    assert 2 * n !in s.legs && Issued(n) !in s.books;
  }

  lemma Resumes(s: Sys, n: nat, client: Client, deadline: int, now: int)
    requires Pending(s, n, Rec(client, deadline, Waiting)) && client != Nobody && now < deadline
    ensures var c := Claim(2 * n + 1, Issued(n), client, now, 0, now);
            && Do(s, c).Some? && Appended(s, c) == []
            && Pending(Do(s, c).value, n, Rec(client, deadline, Resuming))
  {
  }

  lemma Completes(s: Sys, n: nat, client: Client, deadline: int)
    requires Pending(s, n, Rec(client, deadline, Resuming))
    ensures var d := Finish(2 * n + 1, Completed);
            && Do(s, d).Some? && Appended(s, d) == [(Issued(n), client)]
            && Rested(Do(s, d).value, n + 1)
  {
  }

  /** The reaper removes the one pending record. */
  lemma Reaps(s: Sys, n: nat, client: Client, deadline: int, state: Phase)
    requires Pending(s, n, Rec(client, deadline, state))
    ensures var d := Reap(deadline, if state == Waiting then [] else [(Issued(n), client)]);
            && Do(s, d).Some? && Appended(s, d) == d.added && Rested(Do(s, d).value, n + 1)
            && Issued(n) in Do(s, d).value.books && Do(s, d).value.books[Issued(n)].client == client
  {
    assert DueTokens(s.table, deadline) == {Issued(n)};
    assert (Issued(n), client) in [(Issued(n), client)];
  }

  /** A turn suspends and nothing claims it before the reaper comes at its deadline. */
  function Unclaimed(client: Client, started: int, limit: nat): seq<Action> {
    [StartTurn(0, client, started, limit), Suspend(0, Issued(0)), Reap(started + limit, [])]
  }

  lemma RunTwo(maxPending: nat, actions: seq<Action>, a: Action, b: Action)
    requires Run(Start(maxPending), actions).Some?
    requires var s := Run(Start(maxPending), actions).value; Do(s, a).Some? && Do(Do(s, a).value, b).Some?
    ensures var s := Run(Start(maxPending), actions).value;
            Run(Start(maxPending), actions + [a, b]) == Do(Do(s, a).value, b)
    ensures var s := Run(Start(maxPending), actions).value;
            Trail(maxPending, actions + [a, b])
            == Trail(maxPending, actions) + Appended(s, a) + Appended(Do(s, a).value, b)
  {
    hide Do, Appended, Run, Trail;
    RunOne(maxPending, actions, a);
    RunOne(maxPending, actions + [a], b);
    assert actions + [a] + [b] == actions + [a, b];
  }

  /** The shortest failing run: the owner's replay is answered as unknown at once, whatever the clock. */
  lemma UnclaimedIsForgotten(maxPending: nat, client: Client, started: int, limit: nat, now: int)
    requires maxPending >= 1 && client != Nobody
    ensures var actions := Unclaimed(client, started, limit);
            && Run(Start(maxPending), actions).Some?
            && RemovedAt(maxPending, actions, 2, Issued(0)) && ReapedWaiting(maxPending, actions, 2, Issued(0))
            && Respond(Run(Start(maxPending), actions).value.table, Issued(0), client, now) == Unknown
  {
    hide Do, Appended;
    assert Run(Start(maxPending), []) == Some(Start(maxPending));
    hide Run;
    var actions := Unclaimed(client, started, limit);
    var a, b, c := actions[0], actions[1], actions[2];
    Suspends(Start(maxPending), 0, client, started, limit);
    RunTwo(maxPending, [], a, b);
    assert [] + [a, b] == actions[..2];
    var s := Run(Start(maxPending), actions[..2]).value;
    Reaps(s, 0, client, started + limit, Waiting);
    RunOne(maxPending, actions[..2], c);
    assert actions[..2] + [c] == actions && actions[..2 + 1] == actions;
    assert Run(Start(maxPending), actions) == Do(s, c);
    assert RemovedAt(maxPending, actions, 2, Issued(0));
    assert ReapedWaiting(maxPending, actions, 2, Issued(0));
    ReplayAfterRemoval(maxPending, actions, 2, Issued(0), now);
  }

  /** Turn `n` suspends and is claimed; turn 0 is then reaped while being resumed, every later one completes. */
  function Turn(client: Client, n: nat): seq<Action> {
    [StartTurn(2 * n, client, 0, 10), Suspend(2 * n, Issued(n)),
     Claim(2 * n + 1, Issued(n), client, 0, 0, 0),
     if n == 0 then Reap(10, [(Issued(0), client)]) else Finish(2 * n + 1, Completed)]
  }

  function Turns(client: Client, n: nat): seq<Action> {
    if n == 0 then [] else Turns(client, n - 1) + Turn(client, n - 1)
  }

  lemma {:induction false} TurnsRun(maxPending: nat, client: Client, n: nat)
    requires maxPending >= 1 && client != Nobody
    ensures var actions := Turns(client, n);
            && |actions| == 4 * n && Run(Start(maxPending), actions).Some?
            && Rested(Run(Start(maxPending), actions).value, n)
            && Trail(maxPending, actions) == seq(n, i requires 0 <= i < n => (Issued(i), client))
  {
    hide Do, Appended;
    if n == 0 {
      assert Run(Start(maxPending), []) == Some(Start(maxPending));
    } else {
      TurnsRun(maxPending, client, n - 1);
      OneTurn(maxPending, Turns(client, n - 1), client, n - 1);
    }
  }

  lemma OneTurn(maxPending: nat, actions: seq<Action>, client: Client, n: nat)
    requires client != Nobody
    requires Run(Start(maxPending), actions).Some? && Rested(Run(Start(maxPending), actions).value, n)
    ensures var more := actions + Turn(client, n);
            && Run(Start(maxPending), more).Some? && Rested(Run(Start(maxPending), more).value, n + 1)
            && Trail(maxPending, more) == Trail(maxPending, actions) + [(Issued(n), client)]
  {
    hide Do, Appended, Run, Trail;
    var turn := Turn(client, n);
    var s := Run(Start(maxPending), actions).value;
    Suspends(s, n, client, 0, 10);
    RunTwo(maxPending, actions, turn[0], turn[1]);
    var suspended := Do(Do(s, turn[0]).value, turn[1]).value;
    Resumes(suspended, n, client, 10, 0);
    var resuming := Do(suspended, turn[2]).value;
    if n == 0 { Reaps(resuming, n, client, 10, Resuming); } else { Completes(resuming, n, client, 10); }
    RunTwo(maxPending, actions + [turn[0], turn[1]], turn[2], turn[3]);
    assert actions + [turn[0], turn[1]] + [turn[2], turn[3]] == actions + turn;
  }

  /**
   * A tombstone lasts exactly as long as the ring is large: the owner of the reaped turn 0 gets the conflict while at
   * most 255 further turns have completed, and is answered as unknown from the 256th on.
   */
  lemma ConflictLastsOneRing(maxPending: nat, client: Client, n: nat, now: int)
    requires maxPending >= 1 && client != Nobody
    ensures var actions := Turns(client, n + 1);
            && Run(Start(maxPending), actions).Some?
            && Respond(Run(Start(maxPending), actions).value.table, Issued(0), client, now)
               == if n < MAX_TOMBSTONES then Resolved else Unknown
  {
    hide Do, Run, Trail, Since;
    TurnsRun(maxPending, client, n + 1);
    var actions := Turns(client, n + 1);
    var trail := Trail(maxPending, actions);
    RingOfTrail(maxPending, actions);
    RingHasNewest(trail, (Issued(0), client));
    LatestAt(trail, (Issued(0), client));
    assert trail[0] == (Issued(0), client);
  }
}
