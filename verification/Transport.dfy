/** A transport that goes on after refused calls, and what it has returned to its client by then. */
module Transport {
  import opened Wrappers
  import opened ResponseStream

  /** One call a transport makes on the encoder. */
  datatype Command = PushCommand(chunk: Chunk) | FinishCommand(outcome: Option<Outcome>) | FailCommand

  ghost predicate Increasing(events: seq<Event>) {
    forall i, j :: 0 <= i < j < |events| ==> events[i].number < events[j].number
  }

  /** The returned events are taken from the numbered history, in order. */
  ghost predicate DrawnFrom(returned: seq<Event>, emitted: seq<Event>) {
    && Increasing(returned)
    && forall i :: 0 <= i < |returned| ==> returned[i].number < |emitted| && emitted[returned[i].number] == returned[i]
  }

  lemma {:induction false} DrawnMore(returned: seq<Event>, emitted: seq<Event>, longer: seq<Event>, more: seq<Event>)
    requires DrawnFrom(returned, emitted) && |emitted| <= |longer| && longer[..|emitted|] == emitted
    requires Rebuild(longer).Some?
    ensures DrawnFrom(returned, longer)
    ensures longer == emitted + more ==> DrawnFrom(returned + more, longer)
  {
    hide Rebuild;
    assert forall i :: 0 <= i < |emitted| ==> longer[i] == emitted[i];
    NumbersAreGapFree(longer);
    if longer == emitted + more {
      var all := returned + more;
      forall i | |returned| <= i < |all|
        ensures all[i].number == |emitted| + i - |returned| && longer[all[i].number] == all[i]
      {
        assert all[i] == longer[|emitted| + i - |returned|];
      }
    }
  }

  // ---------------------------------------------------------------- which announcements are not returned

  /** What one call does to the encoder's records, and whether it is not refused. */
  function Obey(request: Request, responseId: string, s: Ledger, c: Command): (Ledger, bool) {
    match c
    case PushCommand(chunk) => TakeChunk(request, s, chunk)
    case FinishCommand(outcome) => Concluded(request, responseId, s, outcome)
    case FailCommand => (s.(done := true), true)
  }

  function After(request: Request, responseId: string, commands: seq<Command>): Ledger {
    if commands == [] then FRESH_LEDGER
    else Obey(request, responseId, After(request, responseId, commands[..|commands| - 1]), commands[|commands| - 1]).0
  }

  predicate Refused(request: Request, responseId: string, commands: seq<Command>, i: nat)
    requires i < |commands|
  {
    !Obey(request, responseId, After(request, responseId, commands[..i]), commands[i]).1
  }

  /** Call `i` is a finish that opens the item of one kind and is then refused. */
  predicate Hides(request: Request, responseId: string, commands: seq<Command>, i: nat, kind: Kind)
    requires i < |commands|
  {
    && commands[i].FinishCommand? && commands[i].outcome.Some?
    && var s := After(request, responseId, commands[..i]);
    && !s.done && Opens(request, responseId, s, commands[i].outcome.value, kind)
    && Refused(request, responseId, commands, i)
  }

  ghost predicate Hidden(request: Request, responseId: string, commands: seq<Command>, kind: Kind) {
    exists i: nat :: i < |commands| && Hides(request, responseId, commands, i, kind)
  }

  /** Call `i` is one that announces the response, unless an earlier one did. */
  predicate Starts(request: Request, responseId: string, commands: seq<Command>, i: nat)
    requires i < |commands|
  {
    StartsNow(request, responseId, After(request, responseId, commands[..i]), commands[i])
  }

  predicate StartsNow(request: Request, responseId: string, s: Ledger, c: Command) {
    && !s.done
    && match c
       case PushCommand(chunk) => MayFollow(s.reason, chunk)
       case FinishCommand(outcome) => outcome.Some? && Matches(request, responseId, s, outcome.value)
       case FailCommand => false
  }

  ghost predicate StartedBefore(request: Request, responseId: string, commands: seq<Command>, n: nat)
    requires n <= |commands|
  {
    exists i: nat :: i < n && Starts(request, responseId, commands, i)
  }

  /** The first of these calls that announces the response is not refused. */
  ghost predicate OpeningTold(request: Request, responseId: string, commands: seq<Command>, n: nat)
    requires n <= |commands|
  {
    exists i: nat :: i < n && Starts(request, responseId, commands, i) && !Refused(request, responseId, commands, i)
                     && !StartedBefore(request, responseId, commands, i)
  }

  lemma StartsOne(request: Request, responseId: string, commands: seq<Command>, n: nat)
    requires n < |commands|
    ensures StartedBefore(request, responseId, commands, n + 1) <==>
            StartedBefore(request, responseId, commands, n) || Starts(request, responseId, commands, n)
    ensures OpeningTold(request, responseId, commands, n + 1) <==>
            OpeningTold(request, responseId, commands, n)
            || (Starts(request, responseId, commands, n) && !Refused(request, responseId, commands, n)
                && !StartedBefore(request, responseId, commands, n))
    ensures OpeningTold(request, responseId, commands, n) ==> StartedBefore(request, responseId, commands, n)
  {
    hide Starts, Refused;
  }

  /** Once the response is announced in the history, nothing returned later announces it. */
  lemma OpeningKept(returned: seq<Event>, more: seq<Event>, before: seq<Event>, after: seq<Event>)
    requires OPENING <= before && Rebuild(after).Some?
    requires more != [] ==> after == before + more
    ensures OPENING <= returned + more <==> OPENING <= returned
  {
    hide Rebuild;
    var all := returned + more;
    if more != [] {
      NumbersAreGapFree(after);
      assert more[0] == after[|before|] && more[0].number >= 2;
      if |returned| < 2 { assert all[|returned|] == more[0]; }
    }
  }

  /** What is drawn from a history announces the response only where the history does. */
  lemma OpeningDrawn(returned: seq<Event>, emitted: seq<Event>)
    requires DrawnFrom(returned, emitted) && OPENING <= returned
    ensures OPENING <= emitted
  {
    assert returned[0] == OPENING[0] && returned[1] == OPENING[1];
    assert emitted[0] == OPENING[0] && emitted[1] == OPENING[1];
  }

  lemma DrawnFromNothing(returned: seq<Event>, emitted: seq<Event>)
    requires DrawnFrom(returned, emitted)
    ensures emitted == [] ==> returned == []
  {
    assert returned != [] ==> returned[0].number < |emitted|;
  }

  /** Whether the announcement of the response has been returned, after one more call. */
  lemma OpeningOne(
    request: Request, responseId: string, commands: seq<Command>, n: nat,
    returned: seq<Event>, more: seq<Event>, before: seq<Event>, after: seq<Event>)
    requires n < |commands| && DrawnFrom(returned, before) && DrawnFrom(returned + more, after)
    requires OPENING <= before <==> StartedBefore(request, responseId, commands, n)
    requires OPENING <= after <==> StartedBefore(request, responseId, commands, n + 1)
    requires Starts(request, responseId, commands, n) && !StartedBefore(request, responseId, commands, n) ==>
               before == []
    requires OPENING <= returned <==> OpeningTold(request, responseId, commands, n)
    requires |before| <= |after| && after[..|before|] == before && Rebuild(after).Some?
    requires if Refused(request, responseId, commands, n) then more == [] else after == before + more
    ensures OPENING <= returned + more <==> OpeningTold(request, responseId, commands, n + 1)
  {
    hide Starts, Refused, Rebuild, StartedBefore, OpeningTold, DrawnFrom, After;
    StartsOne(request, responseId, commands, n);
    if StartedBefore(request, responseId, commands, n) {
      assert Refused(request, responseId, commands, n) ==> more == [];
      OpeningKept(returned, more, before, after);
    } else if Starts(request, responseId, commands, n) {
      DrawnFromNothing(returned, before);
      assert returned + more == more && (more != [] ==> after == more);
    } else if OPENING <= returned + more {
      OpeningDrawn(returned + more, after);
    }
  }

  lemma AfterOne(request: Request, responseId: string, commands: seq<Command>, n: nat)
    requires n < |commands|
    ensures After(request, responseId, commands[..n + 1])
         == Obey(request, responseId, After(request, responseId, commands[..n]), commands[n]).0
  {
    hide Obey;
    assert commands[..n + 1][..n] == commands[..n];
  }

  lemma HiddenOne(request: Request, responseId: string, commands: seq<Command>, n: nat, kind: Kind)
    requires n < |commands|
    ensures Hidden(request, responseId, commands[..n + 1], kind) <==>
            Hidden(request, responseId, commands[..n], kind) || Hides(request, responseId, commands, n, kind)
  {
    hide Obey, After, Opens;
    var more := commands[..n + 1];
    forall i: nat | i <= n
      ensures Hides(request, responseId, more, i, kind) <==> Hides(request, responseId, commands, i, kind)
      ensures i < n ==>
                (Hides(request, responseId, commands[..n], i, kind) <==> Hides(request, responseId, commands, i, kind))
    {
      assert more[..i] == commands[..i] && (i < n ==> commands[..n][..i] == commands[..i]);
    }
    if Hidden(request, responseId, commands[..n], kind) {
      var i: nat :| i < n && Hides(request, responseId, commands[..n], i, kind);
      assert Hides(request, responseId, more, i, kind);
    }
    if Hides(request, responseId, commands, n, kind) { assert Hides(request, responseId, more, n, kind); }
    if Hidden(request, responseId, more, kind) {
      var i: nat :| i <= n && Hides(request, responseId, more, i, kind);
      if i < n { assert Hides(request, responseId, commands[..n], i, kind); }
    }
  }

  /** No call takes an item away, and a refused one opens an item exactly if it hides it. */
  lemma OpenedBy(request: Request, responseId: string, commands: seq<Command>, n: nat, kind: Kind)
    requires n < |commands|
    ensures var s, t := After(request, responseId, commands[..n]), After(request, responseId, commands[..n + 1]);
            && (s.Of(kind).Some? ==> t.Of(kind).Some? && !Hides(request, responseId, commands, n, kind))
            && (s.Of(kind).None? && Refused(request, responseId, commands, n) ==>
                  (t.Of(kind).Some? <==> Hides(request, responseId, commands, n, kind)))
  {
    hide After, Concluded, Opens;
    AfterOne(request, responseId, commands, n);
    var s := After(request, responseId, commands[..n]);
    match commands[n] {
      case PushCommand(chunk) =>
      case FinishCommand(outcome) =>
        ConcludedKeeps(request, responseId, s, outcome, kind);
        if outcome.Some? && !s.done {
          OpensIs(request, responseId, s, outcome.value, kind);
          if s.Of(kind).None? { ConcludedOpens(request, responseId, s, outcome.value, kind); }
        } else {
          NothingConcluded(request, responseId, s, outcome);
        }
      case FailCommand =>
    }
  }

  lemma OpensIs(request: Request, responseId: string, s: Ledger, o: Outcome, kind: Kind)
    ensures Opens(request, responseId, s, o, kind) ==> s.Of(kind).None?
  {
  }

  lemma NothingConcluded(request: Request, responseId: string, s: Ledger, outcome: Option<Outcome>)
    requires outcome.None? || s.done
    ensures Concluded(request, responseId, s, outcome) == (s, true)
  {
  }

  // ---------------------------------------------------------------- announcements in a history

  predicate AnnouncesPart(body: Body, kind: Kind) { body.ItemAdded? && body.item.id == PartId(kind) }

  ghost predicate PartAnnounced(events: seq<Event>, kind: Kind) {
    exists at :: 0 <= at < |events| && AnnouncesPart(events[at].body, kind)
  }

  /** Delta `j` names an item that an earlier one of these events announces. */
  ghost predicate AnnouncedBefore(events: seq<Event>, j: nat)
    requires j < |events| && (events[j].body.TextDelta? || events[j].body.ArgumentsDelta?)
  {
    exists at :: 0 <= at < j && Announces(events[at].body, events[j].body.index, events[j].body.id)
  }

  ghost predicate NotDoneBefore(events: seq<Event>, j: nat)
    requires j < |events| && (events[j].body.TextDelta? || events[j].body.ArgumentsDelta?)
  {
    forall k :: 0 <= k < j && events[k].body.ItemDone? ==> events[k].body.index != events[j].body.index
  }

  lemma {:induction false} AddedStays(events: seq<Event>, at: nat)
    requires Rebuild(events).Some? && at < |events| && events[at].body.ItemAdded?
    ensures var items := Rebuild(events).value.items;
            events[at].body.index < |items| && items[events[at].body.index].id == events[at].body.item.id
  {
    var n := |events| - 1;
    var before := Rebuild(events[..n]).value;
    if at < n {
      AddedStays(events[..n], at);
      SameIdentity(before, events[n], events[at].body.index);
    }
  }

  lemma {:induction false} AddedInOrder(events: seq<Event>, at: nat, later: nat)
    requires Rebuild(events).Some? && at < later < |events|
    requires events[at].body.ItemAdded? && events[later].body.ItemAdded?
    ensures events[at].body.index < events[later].body.index
  {
    var n := |events| - 1;
    if later < n {
      AddedInOrder(events[..n], at, later);
    } else {
      AddedStays(events[..n], at);
    }
  }

  lemma OnePart(
    items: seq<Item>, pieces: Pieces, parts: Parts, tools: seq<ToolCall>, held: seq<Item>, kind: Kind, i: nat)
    requires Fits(items, pieces, parts, tools, held) && i < |held| && held[i].id == PartId(kind)
    ensures parts.At(kind) == Some(i)
  {
    hide Join, CallsOf, DistinctIds;
    assert held[i] == Seen(items[i], pieces);
  }

  lemma PartHeld(
    items: seq<Item>, pieces: Pieces, parts: Parts, tools: seq<ToolCall>, held: seq<Item>, kind: Kind)
    requires Fits(items, pieces, parts, tools, held) && parts.At(kind).Some?
    ensures parts.At(kind).value < |held| && held[parts.At(kind).value].id == PartId(kind)
  {
    hide Join, CallsOf, DistinctIds;
    assert held[parts.At(kind).value] == Seen(items[parts.At(kind).value], pieces);
  }

  /** A kind has an item exactly if the numbered history announces one, and then it announces it once. */
  lemma OpenIsAnnounced(stream: ResponsesStreamEvents, kind: Kind)
    requires stream.Valid()
    ensures PartAnnounced(stream.emitted, kind) <==> stream.Kept().Of(kind).Some?
    ensures forall at, later :: 0 <= at < later < |stream.emitted| && AnnouncesPart(stream.emitted[at].body, kind) ==>
              !AnnouncesPart(stream.emitted[later].body, kind)
  {
    hide Rebuild, DeltaText, Chars, Join, Fits, Tidy, Settled;
    var events, held := stream.emitted, stream.client.items;
    forall at: nat | at < |events| && AnnouncesPart(events[at].body, kind)
      ensures stream.parts.At(kind) == Some(events[at].body.index)
    {
      AddedStays(events, at);
      OnePart(stream.output.items, stream.pieces, stream.parts, stream.tools, held, kind, events[at].body.index);
    }
    forall at: nat, later: nat | at < later < |events| && AnnouncesPart(events[at].body, kind)
      ensures !AnnouncesPart(events[later].body, kind)
    {
      if AnnouncesPart(events[later].body, kind) { AddedInOrder(events, at, later); }
    }
    if stream.parts.At(kind).Some? {
      PartHeld(stream.output.items, stream.pieces, stream.parts, stream.tools, held, kind);
      ItemsComeFromEvents(events, stream.parts.At(kind).value);
      var at: nat :| Adds(events, at, stream.parts.At(kind).value, PartId(kind));
      assert AnnouncesPart(events[at].body, kind);
    }
  }

  lemma AnnouncedInEither(a: seq<Event>, b: seq<Event>, kind: Kind)
    ensures PartAnnounced(a + b, kind) <==> PartAnnounced(a, kind) || PartAnnounced(b, kind)
  {
    var all := a + b;
    forall at | 0 <= at < |a| && AnnouncesPart(a[at].body, kind) ensures PartAnnounced(all, kind) {
      assert all[at] == a[at];
    }
    forall at | 0 <= at < |b| && AnnouncesPart(b[at].body, kind) ensures PartAnnounced(all, kind) {
      assert all[|a| + at] == b[at];
    }
  }

  /** Every arguments delta comes right after the announcement of its call. */
  ghost predicate Paired(events: seq<Event>) {
    forall j :: 0 <= j < |events| && events[j].body.ArgumentsDelta? ==>
      j > 0 && Announces(events[j - 1].body, events[j].body.index, events[j].body.id)
  }

  lemma FirstIsNoArgument(before: seq<Event>, more: seq<Event>)
    requires Settled(before) && Tidy(before + more) && more != []
    ensures !more[0].body.ArgumentsDelta?
  {
    hide Tidy, TidyNext;
    var history := before + more;
    assert history[|before|] == more[0];
    if before == [] { TidyFirst(history); } else { TidyAt(history, |before|); }
  }

  /** What one call returns is paired in itself, so it may follow anything. */
  lemma PairedMore(returned: seq<Event>, before: seq<Event>, more: seq<Event>)
    requires Paired(returned) && Settled(before) && Tidy(before + more)
    ensures Paired(returned + more)
  {
    hide Tidy, TidyNext, Settled;
    var all, history := returned + more, before + more;
    if more != [] { FirstIsNoArgument(before, more); }
    forall j | |returned| < j < |all| && all[j].body.ArgumentsDelta?
      ensures Announces(all[j - 1].body, all[j].body.index, all[j].body.id)
    {
      var k := |before| + j - |returned|;
      TidyAt(history, k);
      assert history[k] == all[j] && history[k - 1] == all[j - 1];
    }
  }

  /** A kind's announcement has been returned exactly if the kind has an item that no refused finish opened. */
  ghost predicate Known(
    request: Request, responseId: string, commands: seq<Command>, returned: seq<Event>, s: Ledger, kind: Kind)
  {
    && (Hidden(request, responseId, commands, kind) ==> s.Of(kind).Some?)
    && (PartAnnounced(returned, kind) <==> s.Of(kind).Some? && !Hidden(request, responseId, commands, kind))
  }

  lemma KnownNothing(request: Request, responseId: string, kind: Kind)
    ensures Known(request, responseId, [], [], FRESH_LEDGER, kind)
  {
  }

  /** What one more call changes about it. */
  lemma KnownOne(
    request: Request, responseId: string, commands: seq<Command>, n: nat, returned: seq<Event>, more: seq<Event>,
    before: seq<Event>, after: seq<Event>, kind: Kind)
    requires n < |commands|
    requires var s, t := After(request, responseId, commands[..n]), After(request, responseId, commands[..n + 1]);
             && Known(request, responseId, commands[..n], returned, s, kind)
             && (PartAnnounced(before, kind) <==> s.Of(kind).Some?)
             && (PartAnnounced(after, kind) <==> t.Of(kind).Some?)
    requires |before| <= |after| && after[..|before|] == before
    requires forall at, later :: 0 <= at < later < |after| && AnnouncesPart(after[at].body, kind) ==>
               !AnnouncesPart(after[later].body, kind)
    requires Refused(request, responseId, commands, n) ==> more == []
    requires !Refused(request, responseId, commands, n) ==> after == before + more
    ensures Known(request, responseId, commands[..n + 1], returned + more,
                 After(request, responseId, commands[..n + 1]), kind)
  {
    hide After, Obey, Opens;
    OpenedBy(request, responseId, commands, n, kind);
    HiddenOne(request, responseId, commands, n, kind);
    AnnouncedInEither(returned, more, kind);
    if !Refused(request, responseId, commands, n) {
      NotHidden(request, responseId, commands, n, kind);
      AnnouncedInEither(before, more, kind);
      if PartAnnounced(before, kind) { NotTwice(before, more, kind); }
    }
  }

  lemma NotHidden(request: Request, responseId: string, commands: seq<Command>, n: nat, kind: Kind)
    requires n < |commands| && !Refused(request, responseId, commands, n)
    ensures !Hides(request, responseId, commands, n, kind)
  {
    hide After, Refused, Opens;
  }

  lemma NotTwice(before: seq<Event>, more: seq<Event>, kind: Kind)
    requires var after := before + more;
             forall at, later :: 0 <= at < later < |after| && AnnouncesPart(after[at].body, kind) ==>
               !AnnouncesPart(after[later].body, kind)
    requires PartAnnounced(before, kind)
    ensures !PartAnnounced(more, kind)
  {
    var after := before + more;
    var at :| 0 <= at < |before| && AnnouncesPart(before[at].body, kind);
    assert after[at] == before[at];
    forall i | 0 <= i < |more| ensures !AnnouncesPart(more[i].body, kind) {
      assert after[|before| + i] == more[i];
    }
  }

  lemma TextDeltaNames(events: seq<Event>, q: nat)
    requires Tidy(events) && q < |events| && events[q].body.TextDelta?
    ensures events[q].body.id == PartId(events[q].body.kind)
  {
    assert TidyNext(events[..q], events[q].body);
  }

  /** A returned text delta follows the announcement of its item exactly if that announcement was returned. */
  lemma TextDeltaFollows(returned: seq<Event>, emitted: seq<Event>, j: nat, kind: Kind)
    requires Rebuild(emitted).Some? && Tidy(emitted) && DrawnFrom(returned, emitted)
    requires forall at, later :: 0 <= at < later < |emitted| && AnnouncesPart(emitted[at].body, kind) ==>
               !AnnouncesPart(emitted[later].body, kind)
    requires j < |returned| && returned[j].body.TextDelta? && returned[j].body.kind == kind
    ensures AnnouncedBefore(returned, j) <==> PartAnnounced(returned, kind)
    ensures PartAnnounced(emitted, kind)
  {
    hide Rebuild, Tidy, TidyNext;
    var q := returned[j].number;
    TextDeltaNames(emitted, q);
    DeltasHitOpenItems(emitted, q);
    var at: nat :| at < q && Adds(emitted, at, returned[j].body.index, PartId(kind));
    assert AnnouncesPart(emitted[at].body, kind);
    if PartAnnounced(returned, kind) {
      var i :| 0 <= i < |returned| && AnnouncesPart(returned[i].body, kind);
      assert emitted[returned[i].number] == returned[i];
      assert returned[i].number == at;
      assert i < j && Announces(returned[i].body, returned[j].body.index, returned[j].body.id);
    }
    if AnnouncedBefore(returned, j) {
      var i :| 0 <= i < j && Announces(returned[i].body, returned[j].body.index, returned[j].body.id);
      assert AnnouncesPart(returned[i].body, kind);
    }
  }

  lemma StillOpen(returned: seq<Event>, emitted: seq<Event>, j: nat)
    requires Rebuild(emitted).Some? && DrawnFrom(returned, emitted)
    requires j < |returned| && (returned[j].body.TextDelta? || returned[j].body.ArgumentsDelta?)
    ensures NotDoneBefore(returned, j)
  {
    hide Rebuild;
    DeltasHitOpenItems(emitted, returned[j].number);
  }

  /**
   * Any sequence of calls, with any of them refused: returned numbers strictly increase, at most one terminal event is
   * returned and it is the last event, the output stays within its budget, and while no call was refused the returned
   * events are the whole gap-free history. In any case they are drawn, in order, from the history that was numbered,
   * `emitted`, which a client could fold. Every returned delta names an item that is not done yet and whose
   * announcement was returned before it, except the text deltas of a kind whose item a refused finish has opened.
   */
  method Drive(request: Request, responseId: string, commands: seq<Command>)
    returns (returned: seq<Event>, refused: bool, ghost emitted: seq<Event>)
    ensures Rebuild(emitted).Some? && DrawnFrom(returned, emitted)
    ensures Increasing(returned)
    ensures forall i :: 0 <= i < |returned| && Final(returned[i].body) ==> i == |returned| - 1
    ensures refused <==> exists i: nat :: i < |commands| && Refused(request, responseId, commands, i)
    ensures !refused ==> returned == emitted
    ensures !refused ==> forall i :: 0 <= i < |returned| ==> returned[i].number == i
    ensures Chars(returned) <= MAX_RESPONSE_CHARS
    ensures OPENING <= returned <==> OpeningTold(request, responseId, commands, |commands|)
    ensures forall j :: 0 <= j < |returned| && returned[j].body.ArgumentsDelta? ==>
              AnnouncedBefore(returned, j) && NotDoneBefore(returned, j)
    ensures forall j :: 0 <= j < |returned| && returned[j].body.TextDelta? ==>
              && NotDoneBefore(returned, j)
              && (AnnouncedBefore(returned, j) <==> !Hidden(request, responseId, commands, returned[j].body.kind))
  {
    hide Tracking;
    var stream := new ResponsesStreamEvents(request, responseId);
    returned, refused := [], false;
    TracksNothing(stream, commands, returned);
    for n := 0 to |commands|
      invariant fresh(stream) && fresh(stream.output)
      invariant Tracking(stream, request, responseId, commands, n, returned, refused)
    {
      returned, refused := Proceed(stream, request, responseId, commands, n, returned, refused);
    }
    emitted := stream.emitted;
    Tracked(stream, request, responseId, commands, returned, refused);
  }

  /** What is known after the first `n` calls. */
  ghost predicate Tracking(
    stream: ResponsesStreamEvents, request: Request, responseId: string, commands: seq<Command>, n: nat,
    returned: seq<Event>, refused: bool)
    reads stream, stream.output
  {
    && n <= |commands|
    && stream.Valid() && stream.request == request && stream.responseId == responseId
    && stream.Kept() == After(request, responseId, commands[..n])
    && DrawnFrom(returned, stream.emitted)
    && Chars(returned) <= Chars(stream.emitted)
    && (!refused ==> returned == stream.emitted)
    && (refused <==> exists i: nat :: i < n && Refused(request, responseId, commands, i))
    && Paired(returned)
    && (stream.started <==> StartedBefore(request, responseId, commands, n))
    && (OPENING <= returned <==> OpeningTold(request, responseId, commands, n))
    && Known(request, responseId, commands[..n], returned, stream.Kept(), Text)
    && Known(request, responseId, commands[..n], returned, stream.Kept(), Reasoning)
  }

  lemma TracksNothing(stream: ResponsesStreamEvents, commands: seq<Command>, returned: seq<Event>)
    requires stream.Valid() && stream.Kept() == FRESH_LEDGER && stream.emitted == returned == [] && !stream.started
    ensures Tracking(stream, stream.request, stream.responseId, commands, 0, returned, false)
  {
    hide Rebuild, DeltaText, Chars, Fits, Join, Ids, Tidy, Settled, Paired, Known, ResponsesStreamEvents.Valid,
         ResponsesStreamEvents.Kept, Refused, DrawnFrom, StartedBefore, OpeningTold, After;
    Begins(stream.request, stream.responseId);
    NothingStarted(stream.request, stream.responseId, commands);
    assert commands[..0] == [];
  }

  /** What is known after all calls, in terms of the events alone. */
  lemma Tracked(
    stream: ResponsesStreamEvents, request: Request, responseId: string, commands: seq<Command>,
    returned: seq<Event>, refused: bool)
    requires Tracking(stream, request, responseId, commands, |commands|, returned, refused)
    ensures Rebuild(stream.emitted).Some? && DrawnFrom(returned, stream.emitted)
    ensures Increasing(returned)
    ensures forall i :: 0 <= i < |returned| && Final(returned[i].body) ==> i == |returned| - 1
    ensures refused <==> exists i: nat :: i < |commands| && Refused(request, responseId, commands, i)
    ensures !refused ==> returned == stream.emitted
    ensures !refused ==> forall i :: 0 <= i < |returned| ==> returned[i].number == i
    ensures Chars(returned) <= MAX_RESPONSE_CHARS
    ensures OPENING <= returned <==> OpeningTold(request, responseId, commands, |commands|)
    ensures forall j :: 0 <= j < |returned| && returned[j].body.ArgumentsDelta? ==>
              AnnouncedBefore(returned, j) && NotDoneBefore(returned, j)
    ensures forall j :: 0 <= j < |returned| && returned[j].body.TextDelta? ==>
              && NotDoneBefore(returned, j)
              && (AnnouncedBefore(returned, j) <==> !Hidden(request, responseId, commands, returned[j].body.kind))
  {
    hide Rebuild, DeltaText, Chars, Fits, Join, Ids, Final, After, Tidy, Settled, Paired, Known, Hidden,
         ResponsesStreamEvents.Valid, ResponsesStreamEvents.Kept, AnnouncedBefore, NotDoneBefore, Refused, DrawnFrom,
         Increasing, Begun, StartedBefore, OpeningTold;
    assert commands[..|commands|] == commands;
    stream.Told();
    Ends(stream, returned, refused);
    Deltas(stream, request, responseId, commands, returned);
  }

  /** One more call. */
  method Proceed(
    stream: ResponsesStreamEvents, request: Request, responseId: string, commands: seq<Command>, n: nat,
    returned: seq<Event>, refused: bool)
    returns (told: seq<Event>, failed: bool)
    requires n < |commands| && Tracking(stream, request, responseId, commands, n, returned, refused)
    modifies stream, stream.output
    ensures Tracking(stream, request, responseId, commands, n + 1, told, failed)
  {
    hide Rebuild, Step, DeltaText, Chars, Fits, Join, Ids, FinalOrder, CallsOf, AfterChunk, Final, Obey, After, Tidy,
         Settled, Paired, Known, ResponsesStreamEvents.Valid, ResponsesStreamEvents.Kept, Refused, DrawnFrom, Begun,
         StartedBefore, OpeningTold, StartsNow, PartAnnounced;
    ghost var before := stream.emitted;
    stream.Told();
    stream.BegunIs();
    KeptTells(stream);
    StartsIs(request, responseId, commands, n);
    StartsOne(request, responseId, commands, n);
    OpenIsAnnounced(stream, Text);
    OpenIsAnnounced(stream, Reasoning);
    var more, ok := Call(stream, commands[n]);
    stream.Told();
    OpenIsAnnounced(stream, Text);
    OpenIsAnnounced(stream, Reasoning);
    AfterOne(request, responseId, commands, n);
    RefusedIs(request, responseId, commands, n);
    KnownOne(request, responseId, commands, n, returned, more, before, stream.emitted, Text);
    KnownOne(request, responseId, commands, n, returned, more, before, stream.emitted, Reasoning);
    if ok { PairedMore(returned, before, more); } else { assert returned + more == returned; }
    Grown(returned, before, stream.emitted, more, ok);
    stream.BegunIs();
    OpeningOne(request, responseId, commands, n, returned, more, before, stream.emitted);
    told := returned + more;
    failed := refused || !ok;
  }

  /** One call of a transport: the events it returns, if it is not refused. */
  method Call(stream: ResponsesStreamEvents, c: Command) returns (more: seq<Event>, ok: bool)
    requires stream.Valid()
    modifies stream, stream.output
    ensures stream.Valid()
    ensures (stream.Kept(), ok) == Obey(stream.request, stream.responseId, old(stream.Kept()), c)
    ensures stream.started <==>
              old(stream.started) || StartsNow(stream.request, stream.responseId, old(stream.Kept()), c)
    ensures |old(stream.emitted)| <= |stream.emitted|
    ensures stream.emitted[..|old(stream.emitted)|] == old(stream.emitted)
    ensures if ok then stream.emitted == old(stream.emitted) + more else more == []
  {
    hide Rebuild, Step, DeltaText, Chars, Fits, Join, Ids, FinalOrder, CallsOf, AfterChunk, Tidy, Settled, TakeChunk,
         Concluded, ResponsesStreamEvents.Valid, ResponsesStreamEvents.Kept, Opens, Begun, Matches, MayFollow, Brings;
    KeptTells(stream);
    match c {
      case PushCommand(chunk) =>
        var pushed := stream.Push(chunk);
        more, ok := if pushed.Ok? then pushed.value else [], pushed.Ok?;
      case FinishCommand(outcome) =>
        var finished := stream.Finish(outcome);
        more, ok := if finished.Ok? then finished.value else [], finished.Ok?;
      case FailCommand =>
        stream.IsConsistent();
        more := stream.Fail();
        ok := true;
    }
  }

  lemma KeptTells(stream: ResponsesStreamEvents)
    ensures stream.Kept().done == stream.done && stream.Kept().reason == stream.finishReason
  {
    hide Join;
  }

  lemma Begins(request: Request, responseId: string)
    ensures After(request, responseId, []) == FRESH_LEDGER && Paired([]) && DrawnFrom([], []) && Chars([]) == 0
    ensures forall kind :: Known(request, responseId, [], [], FRESH_LEDGER, kind)
  {
    forall kind ensures Known(request, responseId, [], [], FRESH_LEDGER, kind) {
      KnownNothing(request, responseId, kind);
    }
  }

  lemma StartsIs(request: Request, responseId: string, commands: seq<Command>, n: nat)
    requires n < |commands|
    ensures Starts(request, responseId, commands, n) <==>
            StartsNow(request, responseId, After(request, responseId, commands[..n]), commands[n])
    ensures StartsNow(request, responseId, After(request, responseId, commands[..n]), commands[n]) ==>
              !After(request, responseId, commands[..n]).done
  {
    hide After;
  }

  lemma NothingStarted(request: Request, responseId: string, commands: seq<Command>)
    ensures !StartedBefore(request, responseId, commands, 0) && !OpeningTold(request, responseId, commands, 0)
  {
  }

  lemma RefusedIs(request: Request, responseId: string, commands: seq<Command>, n: nat)
    requires n < |commands|
    ensures Refused(request, responseId, commands, n) <==>
            !Obey(request, responseId, After(request, responseId, commands[..n]), commands[n]).1
  {
  }

  lemma Grown(returned: seq<Event>, before: seq<Event>, after: seq<Event>, more: seq<Event>, ok: bool)
    requires DrawnFrom(returned, before) && Chars(returned) <= Chars(before) && Rebuild(after).Some?
    requires |before| <= |after| && after[..|before|] == before
    requires if ok then after == before + more else more == []
    ensures DrawnFrom(returned + more, after) && Chars(returned + more) <= Chars(after)
  {
    hide Rebuild, Chars;
    DrawnMore(returned, before, after, more);
    CharsConcat(returned, more);
    CharsConcat(before, after[|before|..]);
    assert after == before + after[|before|..];
    if ok { assert after[|before|..] == more; } else { assert returned + more == returned; }
  }

  lemma Ends(stream: ResponsesStreamEvents, returned: seq<Event>, refused: bool)
    requires stream.Valid() && DrawnFrom(returned, stream.emitted)
    requires !refused ==> returned == stream.emitted
    ensures Increasing(returned)
    ensures forall i :: 0 <= i < |returned| && Final(returned[i].body) ==> i == |returned| - 1
    ensures !refused ==> forall i :: 0 <= i < |returned| ==> returned[i].number == i
  {
    hide Rebuild, Final, ResponsesStreamEvents.Valid;
    stream.Told();
    forall i | 0 <= i < |returned| && Final(returned[i].body) ensures i == |returned| - 1 {
      NothingFollowsTheEnd(stream.emitted, returned[i].number);
      assert returned[|returned| - 1].number <= returned[i].number;
    }
    if !refused { NumbersAreGapFree(returned); }
  }

  lemma Deltas(
    stream: ResponsesStreamEvents, request: Request, responseId: string, commands: seq<Command>, returned: seq<Event>)
    requires stream.Valid() && DrawnFrom(returned, stream.emitted) && Paired(returned)
    requires Known(request, responseId, commands, returned, stream.Kept(), Text)
    requires Known(request, responseId, commands, returned, stream.Kept(), Reasoning)
    ensures forall j :: 0 <= j < |returned| && returned[j].body.ArgumentsDelta? ==>
              AnnouncedBefore(returned, j) && NotDoneBefore(returned, j)
    ensures forall j :: 0 <= j < |returned| && returned[j].body.TextDelta? ==>
              && NotDoneBefore(returned, j)
              && (AnnouncedBefore(returned, j) <==> !Hidden(request, responseId, commands, returned[j].body.kind))
  {
    hide Rebuild, Tidy, Settled, ResponsesStreamEvents.Valid, ResponsesStreamEvents.Kept, Hidden, NotDoneBefore,
         PartAnnounced;
    stream.Told();
    forall j: nat | j < |returned| && returned[j].body.ArgumentsDelta?
      ensures AnnouncedBefore(returned, j) && NotDoneBefore(returned, j)
    {
      StillOpen(returned, stream.emitted, j);
      assert Announces(returned[j - 1].body, returned[j].body.index, returned[j].body.id);
    }
    forall j: nat | j < |returned| && returned[j].body.TextDelta?
      ensures NotDoneBefore(returned, j)
      ensures AnnouncedBefore(returned, j) <==> !Hidden(request, responseId, commands, returned[j].body.kind)
    {
      StillOpen(returned, stream.emitted, j);
      OpenIsAnnounced(stream, returned[j].body.kind);
      TextDeltaFollows(returned, stream.emitted, j, returned[j].body.kind);
    }
  }

  // ---------------------------------------------------------------- a call that hides an announcement

  /** How many items a stream announces. */
  function Announced(events: seq<Event>): nat {
    if events == [] then 0
    else Announced(events[..|events| - 1]) + (if events[|events| - 1].body.ItemAdded? then 1 else 0)
  }

  lemma {:induction false} AnnouncedItems(events: seq<Event>)
    requires Rebuild(events).Some?
    ensures |Rebuild(events).value.items| == Announced(events)
  {
    if events != [] { AnnouncedItems(events[..|events| - 1]); }
  }

  /** Later events that carry text and announce nothing hold a text delta and no announcement. */
  lemma {:induction false} OnlyDeltas(before: seq<Event>, more: seq<Event>)
    ensures Announced(before) <= Announced(before + more)
    ensures Announced(before) == Announced(before + more) ==>
              forall i :: 0 <= i < |more| ==> !more[i].body.ItemAdded?
    ensures DeltaText(before + more, Text) != DeltaText(before, Text) ==>
              exists i :: 0 <= i < |more| && more[i].body.TextDelta?
  {
    if more == [] {
      assert before + more == before;
    } else {
      var front := more[..|more| - 1];
      OnlyDeltas(before, front);
      assert (before + more)[..|before + more| - 1] == before + front;
      assert forall i :: 0 <= i < |front| ==> front[i] == more[i];
    }
  }

  /**
   * What a refused call may take away: an outcome that only the final response refuses has already been numbered, so
   * its text item is announced in events that were never returned, and the next delta names that item.
   */
  method AnnouncementLost(request: Request, responseId: string, o: Outcome, piece: string)
    returns (finished: Result<seq<Event>, StreamError>, pushed: Result<seq<Event>, StreamError>)
    requires o.requestId == responseId && o.modelEcho == request.model && o.role != "assistant"
    requires o.content.Some? && o.reasoning.None? && o.calls == [] && piece != ""
    requires |o.content.value| + |piece| <= MAX_DELTA
    ensures finished.Err? && pushed.Ok?
    ensures exists i :: 0 <= i < |pushed.value| && pushed.value[i].body.TextDelta?
    ensures forall i :: 0 <= i < |pushed.value| ==> !pushed.value[i].body.ItemAdded?
  {
    hide Rebuild, Step, DeltaText, Chars, Fits, Join, CallsOf, TextsAre, AllHave, Announced,
         ResponsesStreamEvents.Valid,
         Ids, MissingChars, MissingCount, Renderable, FinalOrder, Extends;
    var stream := new ResponsesStreamEvents(request, responseId);
    FreshIds(stream.output.items);
    FreshTexts();
    Owed(request, o);
    assert stream.OnlyUnrenderable(o);
    finished := stream.Finish(Some(o));
    assert Ids(stream.output.items) == [PartId(Text)];
    assert stream.Accepts(DeltaChunk(Text, piece));
    ghost var before := stream.emitted;
    stream.Told();
    JoinAppend(stream.pieces.text, piece);
    pushed := stream.Push(DeltaChunk(Text, piece));
    stream.Told();
    assert |DeltaText(stream.emitted, Text)| == |DeltaText(before, Text)| + |piece|;
    assert |stream.output.items| == |Ids(stream.output.items)| == 1;
    AnnouncedItems(before);
    AnnouncedItems(stream.emitted);
    OnlyDeltas(before, pushed.value);
  }

  /** A single text is owed in one piece, and opens the one item. */
  lemma Owed(request: Request, o: Outcome)
    requires o.content.Some? && o.reasoning.None? && o.calls == [] && |o.content.value| <= MAX_DELTA
    requires o.role != "assistant"
    ensures !Renderable(request, o)
    ensures MissingChars(o, Pieces([], []), 0) == |o.content.value| && MissingCount(o, Pieces([], []), 0) <= 1
    ensures FinalOrder([], 0, o) == [PartId(Text)]
    ensures Extends(o, Pieces([], []), [])
  {
    assert o.calls[0..] == [];
  }

  /** One short piece is sent at once. */
  lemma SendOnce(s: Ledger, kind: Kind, rest: string)
    requires 0 < |rest| <= MAX_DELTA && s.Billed(|rest|).Covered()
    ensures SendText(s, kind, rest) == (s.Billed(|rest|).Put(kind, s.Observed(kind) + rest), true)
  {
    assert rest[..|rest|] == rest && rest[|rest|..] == "";
  }

  /**
   * A conflict does the same: once the final reasoning was sent, a text that contradicts what was streamed refuses the
   * finish, and the reasoning delta that is accepted next names an item the client was never told of.
   */
  lemma ConflictHides(request: Request, responseId: string, said: string, o: Outcome, piece: string)
    requires o.requestId == responseId && o.modelEcho == request.model
    requires o.reasoning.Some? && o.content.Some? && !(said <= o.content.value)
    requires 0 < |o.reasoning.value| && |said| + |o.reasoning.value| + |piece| <= MAX_DELTA
    ensures var commands := [PushCommand(DeltaChunk(Text, said)), FinishCommand(Some(o)),
                             PushCommand(DeltaChunk(Reasoning, piece))];
            && !Refused(request, responseId, commands, 0) && Hides(request, responseId, commands, 1, Reasoning)
            && !Refused(request, responseId, commands, 2)
  {
    hide SendText, TakeCalls, Renderable;
    var commands := [PushCommand(DeltaChunk(Text, said)), FinishCommand(Some(o)),
                     PushCommand(DeltaChunk(Reasoning, piece))];
    AfterOne(request, responseId, commands, 0);
    AfterOne(request, responseId, commands, 1);
    assert commands[..0] == [];
    var pushed := FRESH_LEDGER.Billed(|said|).Put(Text, "" + said);
    assert After(request, responseId, commands[..1]) == pushed;
    var rest := o.reasoning.value;
    assert rest[0..] == rest;
    SendOnce(pushed, Reasoning, rest);
    var reached := pushed.Billed(|rest|).Put(Reasoning, "" + rest);
    assert ReachText(pushed, Reasoning, o.reasoning) == (reached, true);
    assert reached.Observed(Text) == said;
    assert Concluded(request, responseId, pushed, Some(o)) == (reached, false);
  }
}
