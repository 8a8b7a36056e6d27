/**
 * What the threads of the continuation protocol can do in every reachable state, and that what they do is recorded:
 * results are not only delivered at most once, each one that is claimed in time can be delivered, and is.
 */
module Delivery {
  import opened Wrappers
  import opened Continuation
  import opened ContinuationProtocol

  /** What one action does to the history of one token. */
  ghost function ActsOn(s: Sys, a: Action, token: Token): seq<Act>
    requires Inv(s) && token in s.books
  {
    var live := token in s.table.records;
    match a
    case Claim(leg, claimed, client, _, _, now) =>
      if claimed != token || !live then []
      else
        (match Respond(s.table, token, client, now)
         case Resume => [Claimed(leg)]
         case TooLate => [Removed]
         case _ => [])
    case Check(leg, now) =>
      if live && leg in s.legs && s.legs[leg].mode == Checking(token) && now >= s.legs[leg].deadline
      then [Removed] else []
    case Deliver(leg) =>
      if leg in s.legs && s.legs[leg].mode.Ready? && s.legs[leg].mode.token == token
      then [Delivered(leg, s.legs[leg].mode.checked)] else []
    case Finish(leg, _) => if live && leg in s.legs && Active(s.legs[leg].mode, token) then [Removed] else []
    case Release(released) => if released == token && live && s.table.records[token].state == Resuming
                              then [Released] else []
    case Reap(now, _) => if live && now >= s.table.records[token].deadline then [Removed] else []
    case RunCancel(owed) => if owed == token then [CancelRan] else []
    case _ => []
  }

  lemma ClaimedTokens(s: Sys, a: Action, t: Sys, token: Token)
    requires Inv(s) && Do(s, a) == Some(t) && token in s.books && a.Claim?
    ensures token in t.books && t.books[token].log == s.books[token].log + ActsOn(s, a, token)
  {
    hide Ring, TombstonesFor, Replay, LegsOk, TombstonesOk;
    BookIn(s, token);
    assert s.books[token].log + [] == s.books[token].log;
  }

  lemma KnownTokens(s: Sys, a: Action, t: Sys, token: Token)
    requires Inv(s) && Do(s, a) == Some(t) && token in s.books && !a.Claim?
    ensures token in t.books && t.books[token].log == s.books[token].log + ActsOn(s, a, token)
  {
    hide Ring, TombstonesFor, Replay, LegsOk, TombstonesOk;
    BookIn(s, token);
    assert s.books[token].log + [] == s.books[token].log;
  }

  lemma NewTokens(s: Sys, a: Action, t: Sys, token: Token)
    requires Inv(s) && Do(s, a) == Some(t) && token !in s.books
    ensures token in t.books <==> a.Suspend? && a.token == token && t != s
    ensures token in t.books ==> t.books[token].log == [Registered]
  {
    hide Ring, TombstonesFor, Inv, ClaimVerdict, DueTokens;
  }

  /** Every step is recorded for the tokens it is about, and for no other. */
  lemma StepsAreRecorded(s: Sys, a: Action, t: Sys, token: Token)
    requires Inv(s) && Do(s, a) == Some(t)
    ensures token in s.books ==>
              token in t.books && t.books[token].log == s.books[token].log + ActsOn(s, a, token)
    ensures token !in s.books ==> (token in t.books <==> a.Suspend? && a.token == token && t != s)
    ensures token !in s.books && token in t.books ==> t.books[token].log == [Registered]
  {
    hide Inv, Do, ActsOn;
    if token !in s.books { NewTokens(s, a, t, token); }
    else if a.Claim? { ClaimedTokens(s, a, t, token); }
    else { KnownTokens(s, a, t, token); }
  }

  /** A thread is moved only by its own steps, and never goes back to checking a result or waiting to deliver it. */
  lemma ThreadsMove(s: Sys, a: Action, t: Sys, leg: nat)
    requires Do(s, a) == Some(t) && leg in t.legs && (t.legs[leg].mode.Checking? || t.legs[leg].mode.Ready?)
    ensures leg in s.legs ==>
              && (s.legs[leg].mode.Checking? || s.legs[leg].mode.Ready?)
              && s.legs[leg].mode.token == t.legs[leg].mode.token && a != Deliver(leg)
    ensures leg !in s.legs ==> a.Claim? && a.leg == leg && a.token == t.legs[leg].mode.token
  {
    hide Ring, TombstonesFor, DueTokens;
  }

  // ---------------------------------------------------------------- runs, step by step

  lemma RunNext(maxPending: nat, actions: seq<Action>, a: Action)
    requires Run(Start(maxPending), actions).Some?
    ensures Run(Start(maxPending), actions + [a]) == Do(Run(Start(maxPending), actions).value, a)
  {
    hide Do;
    assert (actions + [a])[..|actions|] == actions;
  }

  lemma RunLast(maxPending: nat, actions: seq<Action>)
    requires Run(Start(maxPending), actions).Some? && actions != []
    ensures var front := actions[..|actions| - 1];
            && Run(Start(maxPending), front).Some?
            && Do(Run(Start(maxPending), front).value, actions[|actions| - 1]) == Run(Start(maxPending), actions)
            && Inv(Run(Start(maxPending), front).value)
            && (forall a :: a in actions <==> a in front || a == actions[|actions| - 1])
  {
    hide Do, Inv;
    RunKeeps(maxPending, actions[..|actions| - 1]);
  }

  // ---------------------------------------------------------------- who delivered what

  predicate DeliversFor(log: seq<Act>, leg: nat) {
    exists i :: 0 <= i < |log| && log[i].Delivered? && log[i].leg == leg
  }

  predicate ClaimsFor(log: seq<Act>, leg: nat) { Claimed(leg) in log }

  lemma DeliversMore(log: seq<Act>, acts: seq<Act>, leg: nat)
    requires |acts| <= 1
    ensures DeliversFor(log + acts, leg) <==>
            DeliversFor(log, leg) || (|acts| == 1 && acts[0].Delivered? && acts[0].leg == leg)
    ensures ClaimsFor(log + acts, leg) <==> ClaimsFor(log, leg) || acts == [Claimed(leg)]
  {
    var all := log + acts;
    if DeliversFor(log, leg) {
      var i :| 0 <= i < |log| && log[i].Delivered? && log[i].leg == leg;
      assert all[i] == log[i];
    }
    if |acts| == 1 { assert all[|log|] == acts[0]; }
  }

  /** A claim is made once, by a thread that did not exist before. */
  lemma {:induction false} ClaimersExist(maxPending: nat, actions: seq<Action>, token: Token, leg: nat)
    requires Run(Start(maxPending), actions).Some?
    requires var s := Run(Start(maxPending), actions).value; token in s.books && ClaimsFor(s.books[token].log, leg)
    ensures leg in Run(Start(maxPending), actions).value.legs
  {
    hide Do, Inv, Respond;
    if actions != [] {
      var front, last := actions[..|actions| - 1], actions[|actions| - 1];
      RunLast(maxPending, actions);
      var s, t := Run(Start(maxPending), front).value, Run(Start(maxPending), actions).value;
      StepsAreRecorded(s, last, t, token);
      LegsRemain(s, last, t, leg);
      if token in s.books {
        DeliversMore(s.books[token].log, ActsOn(s, last, token), leg);
        if ClaimsFor(s.books[token].log, leg) {
          ClaimersExist(maxPending, front, token, leg);
        } else {
          ClaimStarts(s, last, t, token);
        }
      }
    }
  }

  lemma LegsRemain(s: Sys, a: Action, t: Sys, leg: nat)
    requires Do(s, a) == Some(t)
    ensures leg in s.legs ==> leg in t.legs
    ensures a == Deliver(leg) ==> leg in s.legs && s.legs[leg].mode.Ready?
    ensures a.Claim? ==> a.leg !in s.legs
  {
    hide Ring, TombstonesFor, DueTokens;
  }

  lemma ClaimStarts(s: Sys, a: Action, t: Sys, token: Token)
    requires Inv(s) && Do(s, a) == Some(t) && token in s.books && ActsOn(s, a, token) != []
    requires ActsOn(s, a, token)[0].Claimed?
    ensures a.Claim? && a.leg == ActsOn(s, a, token)[0].leg && a.token == token
    ensures a.leg in t.legs && t.legs[a.leg].mode == Checking(token)
  {
    hide Inv, Ring, TombstonesFor, DueTokens;
  }

  lemma {:induction false} DeliverersExist(maxPending: nat, actions: seq<Action>, leg: nat)
    requires Run(Start(maxPending), actions).Some? && Deliver(leg) in actions
    ensures leg in Run(Start(maxPending), actions).value.legs
  {
    hide Do, Inv;
    var front, last := actions[..|actions| - 1], actions[|actions| - 1];
    RunLast(maxPending, actions);
    LegsRemain(Run(Start(maxPending), front).value, last, Run(Start(maxPending), actions).value, leg);
    if Deliver(leg) in front { DeliverersExist(maxPending, front, leg); }
  }

  /** A thread claims one token in its life. */
  lemma {:induction false} ClaimsOneToken(maxPending: nat, actions: seq<Action>, token: Token, other: Token, leg: nat)
    requires Run(Start(maxPending), actions).Some?
    requires var s := Run(Start(maxPending), actions).value;
             && token in s.books && other in s.books
             && ClaimsFor(s.books[token].log, leg) && ClaimsFor(s.books[other].log, leg)
    ensures token == other
  {
    hide Do, Inv, Respond;
    if actions != [] {
      var front, last := actions[..|actions| - 1], actions[|actions| - 1];
      RunLast(maxPending, actions);
      var s, t := Run(Start(maxPending), front).value, Run(Start(maxPending), actions).value;
      StepsAreRecorded(s, last, t, token);
      StepsAreRecorded(s, last, t, other);
      LegsRemain(s, last, t, leg);
      if token in s.books && other in s.books {
        DeliversMore(s.books[token].log, ActsOn(s, last, token), leg);
        DeliversMore(s.books[other].log, ActsOn(s, last, other), leg);
        if !ClaimsFor(s.books[token].log, leg) { ClaimStarts(s, last, t, token); }
        if !ClaimsFor(s.books[other].log, leg) { ClaimStarts(s, last, t, other); }
        if ClaimsFor(s.books[token].log, leg) { ClaimersExist(maxPending, front, token, leg); }
        if ClaimsFor(s.books[other].log, leg) { ClaimersExist(maxPending, front, other, leg); }
        if ClaimsFor(s.books[token].log, leg) && ClaimsFor(s.books[other].log, leg) {
          ClaimsOneToken(maxPending, front, token, other, leg);
        }
      }
    }
  }

  /**
   * A thread that claimed a token has delivered its result exactly if it took the step that delivers; while it is
   * checking the result or about to deliver it, it has not.
   */
  lemma {:induction false} DeliverIsRecorded(maxPending: nat, actions: seq<Action>, token: Token, leg: nat)
    requires Run(Start(maxPending), actions).Some?
    requires var s := Run(Start(maxPending), actions).value; token in s.books && ClaimsFor(s.books[token].log, leg)
    ensures var s := Run(Start(maxPending), actions).value;
            && leg in s.legs
            && (Deliver(leg) in actions <==> DeliversFor(s.books[token].log, leg))
            && (s.legs[leg].mode.Checking? || s.legs[leg].mode.Ready? ==>
                  s.legs[leg].mode.token == token && Deliver(leg) !in actions)
  {
    hide Do, Inv, Respond, Replay;
    ClaimersExist(maxPending, actions, token, leg);
    if actions != [] {
      var front, last := actions[..|actions| - 1], actions[|actions| - 1];
      RunLast(maxPending, actions);
      var s, t := Run(Start(maxPending), front).value, Run(Start(maxPending), actions).value;
      StepsAreRecorded(s, last, t, token);
      if t.legs[leg].mode.Checking? || t.legs[leg].mode.Ready? { ThreadsMove(s, last, t, leg); }
      LegsRemain(s, last, t, leg);
      if token in s.books {
        DeliversMore(s.books[token].log, ActsOn(s, last, token), leg);
        if ClaimsFor(s.books[token].log, leg) {
          DeliverIsRecorded(maxPending, front, token, leg);
          DeliveryActs(s, last, token, leg);
        } else {
          ClaimStarts(s, last, t, token);
          if Deliver(leg) in front { DeliverersExist(maxPending, front, leg); }
          NotYetDelivered(maxPending, front, token, leg);
        }
      }
    }
  }

  lemma DeliveryActs(s: Sys, a: Action, token: Token, leg: nat)
    requires Inv(s) && token in s.books
    ensures var acts := ActsOn(s, a, token);
            |acts| == 1 && acts[0].Delivered? && acts[0].leg == leg <==>
            a == Deliver(leg) && leg in s.legs && s.legs[leg].mode.Ready? && s.legs[leg].mode.token == token
  {
    hide Inv, Respond;
  }

  lemma NotYetDelivered(maxPending: nat, actions: seq<Action>, token: Token, leg: nat)
    requires Run(Start(maxPending), actions).Some?
    requires var s := Run(Start(maxPending), actions).value; token in s.books && !ClaimsFor(s.books[token].log, leg)
    ensures !DeliversFor(Run(Start(maxPending), actions).value.books[token].log, leg)
  {
    hide Run, Replay, LegsOk, TombstonesOk;
    RunKeeps(maxPending, actions);
    var s := Run(Start(maxPending), actions).value;
    BookIn(s, token);
    if DeliversFor(s.books[token].log, leg) {
      var j :| 0 <= j < |s.books[token].log| && s.books[token].log[j].Delivered? && s.books[token].log[j].leg == leg;
      DeliveryFollowsClaim(s.books[token].log, j);
    }
  }

  /** A step that delivers is recorded for the one token its thread had claimed. */
  lemma {:induction false} EveryDeliverDelivers(maxPending: nat, actions: seq<Action>, leg: nat)
    requires Run(Start(maxPending), actions).Some? && Deliver(leg) in actions
    ensures var s := Run(Start(maxPending), actions).value;
            exists token :: token in s.books && ClaimsFor(s.books[token].log, leg)
                            && DeliversFor(s.books[token].log, leg)
  {
    hide Do, Inv, Respond, Replay;
    var front, last := actions[..|actions| - 1], actions[|actions| - 1];
    RunLast(maxPending, actions);
    var s, t := Run(Start(maxPending), front).value, Run(Start(maxPending), actions).value;
    if Deliver(leg) in front {
      EveryDeliverDelivers(maxPending, front, leg);
      var token :| token in s.books && ClaimsFor(s.books[token].log, leg) && DeliversFor(s.books[token].log, leg);
      StepsAreRecorded(s, last, t, token);
      ActsAreFew(s, last, token);
      DeliversMore(s.books[token].log, ActsOn(s, last, token), leg);
    } else {
      LegsRemain(s, last, t, leg);
      var token := s.legs[leg].mode.token;
      ReadyClaimed(s, leg);
      StepsAreRecorded(s, last, t, token);
      DeliveryActs(s, last, token, leg);
      DeliversMore(s.books[token].log, ActsOn(s, last, token), leg);
    }
  }

  lemma ActsAreFew(s: Sys, a: Action, token: Token)
    requires Inv(s) && token in s.books
    ensures |ActsOn(s, a, token)| <= 1
  {
    hide Inv, Respond;
  }

  lemma ReadyClaimed(s: Sys, leg: nat)
    requires Inv(s) && leg in s.legs && (s.legs[leg].mode.Checking? || s.legs[leg].mode.Ready?)
    ensures var token := s.legs[leg].mode.token; token in s.books && ClaimsFor(s.books[token].log, leg)
  {
    hide Replay, BooksOk, TombstonesOk;
    LegIn(s, leg);
    var log := s.books[s.legs[leg].mode.token].log;
    Entitled(log, leg);
  }

  lemma {:induction false} NoDelivery(log: seq<Act>)
    ensures Deliveries(log) > 0 <==> exists i :: 0 <= i < |log| && log[i].Delivered?
  {
    if log != [] { NoDelivery(log[..|log| - 1]); }
  }

  /**
   * Without releases a token's result is delivered exactly once if the thread that claimed it took the step that
   * delivers, and never otherwise.
   */
  lemma DeliveredExactlyOnce(maxPending: nat, actions: seq<Action>, token: Token)
    requires Run(Start(maxPending), actions).Some? && NoReleases(actions)
    requires token in Run(Start(maxPending), actions).value.books
    ensures var log := Run(Start(maxPending), actions).value.books[token].log;
            Deliveries(log) == if exists leg :: ClaimsFor(log, leg) && Deliver(leg) in actions then 1 else 0
  {
    hide Run, NoReleases, Claims, Releases, Deliveries, Replay, Inv, ClaimsFor;
    var log := Run(Start(maxPending), actions).value.books[token].log;
    DeliveredOnce(maxPending, actions, token);
    NoDelivery(log);
    if Deliveries(log) > 0 {
      var i :| 0 <= i < |log| && log[i].Delivered?;
      var leg := log[i].leg;
      assert DeliversFor(log, leg);
      if !ClaimsFor(log, leg) { NotYetDelivered(maxPending, actions, token, leg); }
      DeliverIsRecorded(maxPending, actions, token, leg);
    }
    if leg :| ClaimsFor(log, leg) && Deliver(leg) in actions {
      DeliverIsRecorded(maxPending, actions, token, leg);
      var i :| 0 <= i < |log| && log[i].Delivered? && log[i].leg == leg;
    }
  }

  // ---------------------------------------------------------------- what can always be done

  /** The owner's request for a waiting record in time becomes a thread that checks its result. */
  lemma CanClaim(s: Sys, leg: nat, token: Token, started: int, limit: nat, now: int)
    requires Inv(s) && token in s.table.records && s.table.records[token].state == Waiting
    requires token in s.books && now < s.books[token].deadline && leg !in s.legs
    ensures var a := Claim(leg, token, s.books[token].client, started, limit, now);
            && Do(s, a).Some?
            && var t := Do(s, a).value;
            && leg in t.legs && t.legs[leg].mode == Checking(token) && t.legs[leg].deadline == s.books[token].deadline
            && token in t.books && t.books[token].log == s.books[token].log + [Claimed(leg)]
            && token in t.table.records && t.table.records[token].state == Resuming
  {
    hide Ring, Replay, LegsOk, TombstonesOk;
    BookIn(s, token);
  }

  /** Whatever the others did meanwhile, a result checked in time is about to be delivered, and can be. */
  lemma CanDeliver(s: Sys, leg: nat, now: int)
    requires Inv(s) && leg in s.legs
    ensures s.legs[leg].mode.Checking? && now < s.legs[leg].deadline ==>
              && Do(s, Check(leg, now)).Some?
              && var t := Do(s, Check(leg, now)).value;
              && leg in t.legs && t.legs[leg] == s.legs[leg].(mode := Ready(s.legs[leg].mode.token, now))
              && t.books == s.books && t.table == s.table
    ensures s.legs[leg].mode.Ready? ==>
              && Do(s, Deliver(leg)).Some?
              && var t, token := Do(s, Deliver(leg)).value, s.legs[leg].mode.token;
              && token in s.books && token in t.books
              && t.books[token].log == s.books[token].log + [Delivered(leg, s.legs[leg].mode.checked)]
              && leg in t.legs && t.legs[leg].mode == Delivering(token) && t.table == s.table
  {
    hide Ring, Replay, BooksOk, TombstonesOk;
    LegIn(s, leg);
  }

  lemma {:induction false} OneMoreDelivery(log: seq<Act>, act: Act)
    ensures Deliveries(log + [act]) == Deliveries(log) + (if act.Delivered? then 1 else 0)
  {
    assert (log + [act])[..|log|] == log;
  }

  /**
   * In every reachable state the owner of a waiting record in time gets its result delivered: the claim, the check
   * and the delivery can each be taken, and then the delivery is the last thing that happened to the token.
   */
  lemma ResultIsDelivered(
    maxPending: nat, actions: seq<Action>, token: Token, leg: nat, started: int, limit: nat, now: int, later: int)
    requires Run(Start(maxPending), actions).Some?
    requires var s := Run(Start(maxPending), actions).value;
             && token in s.table.records && s.table.records[token].state == Waiting
             && token in s.books && now < s.books[token].deadline && later < s.books[token].deadline
             && leg !in s.legs
    ensures var s := Run(Start(maxPending), actions).value;
            var claim := Claim(leg, token, s.books[token].client, started, limit, now);
            var all := Run(Start(maxPending), actions + [claim] + [Check(leg, later)] + [Deliver(leg)]);
            && all.Some? && token in all.value.books
            && all.value.books[token].log == s.books[token].log + [Claimed(leg)] + [Delivered(leg, later)]
            && Deliveries(all.value.books[token].log) == Deliveries(s.books[token].log) + 1
  {
    hide Do, Run, Inv, Deliveries;
    RunKeeps(maxPending, actions);
    var s := Run(Start(maxPending), actions).value;
    var claim := Claim(leg, token, s.books[token].client, started, limit, now);
    CanClaim(s, leg, token, started, limit, now);
    RunNext(maxPending, actions, claim);
    RunKeeps(maxPending, actions + [claim]);
    var claimed := Run(Start(maxPending), actions + [claim]).value;
    CanDeliver(claimed, leg, later);
    RunNext(maxPending, actions + [claim], Check(leg, later));
    RunKeeps(maxPending, actions + [claim] + [Check(leg, later)]);
    var ready := Run(Start(maxPending), actions + [claim] + [Check(leg, later)]).value;
    CanDeliver(ready, leg, later);
    RunNext(maxPending, actions + [claim] + [Check(leg, later)], Deliver(leg));
    OneMoreDelivery(s.books[token].log, Claimed(leg));
    OneMoreDelivery(s.books[token].log + [Claimed(leg)], Delivered(leg, later));
  }

  /** A turn suspends under a fresh token exactly while there is room, with the deadline of its thread. */
  lemma CanSuspend(s: Sys, leg: nat, token: Token)
    requires Inv(s) && leg in s.legs && (s.legs[leg].mode.Dispatching? || s.legs[leg].mode.Delivering?)
    requires token.Issued? && token !in s.books
    ensures Do(s, Suspend(leg, token)).Some?
    ensures var t := Do(s, Suspend(leg, token)).value;
            if |s.table.records| < s.maxPending
            then && t.table.records == s.table.records[token := Rec(s.legs[leg].client, s.legs[leg].deadline, Waiting)]
                 && token in t.books && t.books[token].log == [Registered]
                 && t.books[token].client == s.legs[leg].client && t.books[token].root == s.legs[leg].root
            else t == s
  {
    hide Ring, Replay, BooksOk, LegsOk, TombstonesOk;
  }

  /** A thread that has not ended can end, in any terminal way, and then its token is registered no more. */
  lemma CanFinish(s: Sys, leg: nat, phase: Phase, now: int)
    requires Inv(s) && leg in s.legs && !s.legs[leg].mode.Ended? && !Live(phase)
    ensures Do(s, Finish(leg, phase)).Some?
    ensures var t := Do(s, Finish(leg, phase)).value;
            && leg in t.legs && t.legs[leg].mode == Ended
            && forall token :: Active(s.legs[leg].mode, token) ==> token !in t.table.records
    ensures s.legs[leg].mode.Checking? && now >= s.legs[leg].deadline ==>
              && Do(s, Check(leg, now)).Some?
              && var t := Do(s, Check(leg, now)).value;
              leg in t.legs && t.legs[leg].mode == Ended && s.legs[leg].mode.token !in t.table.records
  {
    hide Ring, Replay, BooksOk, LegsOk, TombstonesOk;
  }

  /** A token that is held and released is waiting again, and an owed cancellation can run. */
  lemma CanReleaseAndCancel(s: Sys, token: Token)
    requires Inv(s)
    ensures token in s.table.records && s.table.records[token].state == Resuming ==>
              && Do(s, Release(token)).Some?
              && var t := Do(s, Release(token)).value;
              && token in t.table.records && t.table.records[token] == s.table.records[token].(state := Waiting)
              && token in s.books && token in t.books && t.books[token].log == s.books[token].log + [Released]
    ensures token in s.owed ==>
              && Do(s, RunCancel(token)).Some?
              && var t := Do(s, RunCancel(token)).value;
              && token !in t.owed
              && token in s.books && token in t.books && t.books[token].log == s.books[token].log + [CancelRan]
  {
    hide Ring, Replay, BooksOk, LegsOk, TombstonesOk;
  }

  lemma TombstonesExist(table: Table, tokens: set<Token>) returns (added: seq<(Token, Client)>)
    requires tokens <= table.records.Keys
    ensures TombstonesFor(table, tokens, added)
    decreases tokens
  {
    if tokens == {} {
      added := [];
    } else {
      var token :| token in tokens;
      added := TombstonesExist(table, tokens - {token});
      TombstonesStep(table, tokens - {token}, added, token);
      assert tokens - {token} + {token} == tokens;
      if table.records[token].state != Waiting { added := added + [(token, table.records[token].client)]; }
    }
  }

  /** The reaper can always run, and leaves no record past its deadline. */
  lemma CanReap(s: Sys, now: int) returns (added: seq<(Token, Client)>)
    requires Inv(s)
    ensures Do(s, Reap(now, added)).Some?
    ensures var t := Do(s, Reap(now, added)).value;
            forall token :: token in s.table.records ==>
              (token in t.table.records <==> now < s.table.records[token].deadline)
  {
    hide Ring, Replay, BooksOk, LegsOk, TombstonesOk, TombstonesFor;
    added := TombstonesExist(s.table, DueTokens(s.table, now));
  }
}
