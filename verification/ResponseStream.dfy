/** The Responses stream encoder, and the client that rebuilds its output from the events alone. */
module ResponseStream {
  import opened Wrappers

  const MAX_RESPONSE_CHARS := 16_777_216
  const MAX_CHUNKS := 1_000_000
  const MAX_TOOLS := 128
  const MAX_DELTA := 1_048_576

  datatype Kind = Text | Reasoning
  datatype Status = InProgress | Completed | Incomplete
  datatype FinishReason = Stop | ToolCalls | Length | Cancelled
  datatype StreamError = UnsupportedResponse

  datatype ToolCall = ToolCall(id: string, name: string, arguments: string)

  /** `tool_choice`: a mode, or one function by name. */
  datatype Choice = Auto | NoTool | Required | Forced(name: string)

  datatype Request = Request(model: string, tools: set<string>, choice: Choice, parallel: bool)

  datatype Chunk = DeltaChunk(kind: Kind, text: string) | ToolChunk(call: ToolCall)
                 | FinishChunk(reason: FinishReason) | UsageChunk

  datatype Outcome = Outcome(
    requestId: string, modelEcho: string, role: string,
    content: Option<string>, reasoning: Option<string>, calls: seq<ToolCall>, finish: FinishReason)

  /** The outcome's final text of one kind. */
  function FinalText(o: Outcome, kind: Kind): Option<string> {
    if kind == Text then o.content else o.reasoning
  }

  /** `msg-<id>`, `rs-<id>` and `fc-<id>-<n>`: within one response these never coincide. */
  datatype ItemId = PartId(kind: Kind) | CallId(index: nat)

  /** One wire item. `content` is empty until its part is added and one text afterwards. */
  datatype Item =
    | PartItem(id: ItemId, status: Status, kind: Kind, content: seq<string>)
    | CallItem(id: ItemId, status: Status, call: ToolCall)

  datatype Event = Event(number: nat, body: Body)

  datatype Body =
    | Created
    | Started
    | ItemAdded(index: nat, item: Item)
    | PartAdded(index: nat, id: ItemId)
    | TextDelta(kind: Kind, index: nat, id: ItemId, text: string)
    | ArgumentsDelta(index: nat, id: ItemId, text: string)
    | ArgumentsDone(index: nat, id: ItemId, text: string)
    | TextDone(kind: Kind, index: nat, id: ItemId, text: string)
    | PartDone(kind: Kind, index: nat, id: ItemId, text: string)
    | ItemDone(index: nat, item: Item)
    | Ended(status: Status, output: seq<Item>)
    | Failed

  // ---------------------------------------------------------------- the client

  /** A client that knows nothing but the events: the next number, its items, and whether the stream is over. */
  datatype Client = Client(next: nat, items: seq<Item>, over: bool)

  predicate Final(body: Body) { body.Ended? || body.Failed? }

  predicate OpenItem(items: seq<Item>, index: nat, id: ItemId) {
    index < |items| && items[index].id == id && items[index].status == InProgress
  }

  predicate OpenText(items: seq<Item>, kind: Kind, index: nat, id: ItemId) {
    OpenItem(items, index, id) && items[index].PartItem? && items[index].kind == kind && |items[index].content| == 1
  }

  predicate OpenCall(items: seq<Item>, index: nat, id: ItemId) {
    OpenItem(items, index, id) && items[index].CallItem?
  }

  /** What one event does to the client's items. `None` is a protocol violation. */
  function Apply(items: seq<Item>, next: nat, body: Body): Option<seq<Item>> {
    match body
    case Created => if next == 0 then Some(items) else None
    case Started => if next == 1 then Some(items) else None
    case ItemAdded(index, item) =>
      if index == |items| && item.status == InProgress then Some(items + [item]) else None
    case PartAdded(index, id) =>
      if OpenItem(items, index, id) && items[index].PartItem? && items[index].content == []
      then Some(items[index := items[index].(content := [""])]) else None
    case TextDelta(kind, index, id, text) =>
      if OpenText(items, kind, index, id)
      then Some(items[index := items[index].(content := [items[index].content[0] + text])]) else None
    case ArgumentsDelta(index, id, text) =>
      if OpenCall(items, index, id)
      then
        var call := items[index].call;
        Some(items[index := items[index].(call := call.(arguments := call.arguments + text))])
      else None
    case ArgumentsDone(index, id, text) =>
      if OpenCall(items, index, id) && items[index].call.arguments == text then Some(items) else None
    case TextDone(kind, index, id, text) =>
      if OpenText(items, kind, index, id) && items[index].content == [text] then Some(items) else None
    case PartDone(kind, index, id, text) =>
      if OpenText(items, kind, index, id) && items[index].content == [text] then Some(items) else None
    case ItemDone(index, item) =>
      if index < |items| && items[index].status == InProgress && item.status != InProgress
         && item == items[index].(status := item.status)
      then Some(items[index := item]) else None
    case Ended(_, _) =>
      if forall i :: 0 <= i < |items| ==> items[i].status != InProgress then Some(items) else None
    case Failed => Some(items)
  }

  function Step(c: Client, e: Event): Option<Client> {
    if e.number != c.next || c.over then None
    else
      var items := Apply(c.items, c.next, e.body);
      if items.None? then None else Some(Client(c.next + 1, items.value, Final(e.body)))
  }

  const FRESH_CLIENT := Client(0, [], false)

  /** The client's state after a whole stream, or `None` if some event broke the protocol. */
  function Rebuild(events: seq<Event>): Option<Client> {
    if events == [] then Some(FRESH_CLIENT)
    else
      var before := Rebuild(events[..|events| - 1]);
      if before.None? then None else Step(before.value, events[|events| - 1])
  }

  /** All text of one kind a stream carried in deltas, joined. */
  function DeltaText(events: seq<Event>, kind: Kind): string {
    if events == [] then ""
    else DeltaText(events[..|events| - 1], kind) + DeltaOf(events[|events| - 1].body, kind)
  }

  function DeltaOf(body: Body, kind: Kind): string {
    if body.TextDelta? && body.kind == kind then body.text else ""
  }

  /** The characters of output a stream has carried. */
  function Chars(events: seq<Event>): nat {
    if events == [] then 0 else Chars(events[..|events| - 1]) + CharsOf(events[|events| - 1].body)
  }

  function CharsOf(body: Body): nat {
    match body
    case TextDelta(_, _, _, text) => |text|
    case ArgumentsDelta(_, _, text) => |text|
    case ItemAdded(_, item) => if item.CallItem? then |item.call.id| + |item.call.name| else 0
    case _ => 0
  }

  lemma {:induction false} Append(events: seq<Event>, e: Event)
    ensures (events + [e])[..|events|] == events
    ensures Rebuild(events + [e]) == if Rebuild(events).None? then None else Step(Rebuild(events).value, e)
    ensures DeltaText(events + [e], Text) == DeltaText(events, Text) + DeltaOf(e.body, Text)
    ensures DeltaText(events + [e], Reasoning) == DeltaText(events, Reasoning) + DeltaOf(e.body, Reasoning)
    ensures Chars(events + [e]) == Chars(events) + CharsOf(e.body)
  {
    assert (events + [e])[..|events|] == events;
  }

  lemma ClientBegins(c: Client)
    requires !c.over && c.next == 0
    ensures Step(c, Event(0, Created)) == Some(Client(1, c.items, false))
    ensures Step(Client(1, c.items, false), Event(1, Started)) == Some(Client(2, c.items, false))
  {
  }

  lemma ClientOpensPart(c: Client, kind: Kind)
    requires !c.over
    ensures
      var i := |c.items|;
      var item := PartItem(PartId(kind), InProgress, kind, []);
      var added := Client(c.next + 1, c.items + [item], false);
      && Step(c, Event(c.next, ItemAdded(i, item))) == Some(added)
      && Step(added, Event(c.next + 1, PartAdded(i, PartId(kind))))
         == Some(Client(c.next + 2, c.items + [item.(content := [""])], false))
  {
    var item := PartItem(PartId(kind), InProgress, kind, []);
    assert (c.items + [item])[|c.items| := item.(content := [""])] == c.items + [item.(content := [""])];
  }

  lemma ClientTakesDelta(c: Client, i: nat, piece: string)
    requires !c.over && i < |c.items| && c.items[i].PartItem? && c.items[i].status == InProgress
    requires |c.items[i].content| == 1
    ensures Step(c, Event(c.next, TextDelta(c.items[i].kind, i, c.items[i].id, piece)))
            == Some(Client(c.next + 1, c.items[i := c.items[i].(content := [c.items[i].content[0] + piece])], false))
  {
  }

  lemma ClientOpensCall(c: Client, id: ItemId, call: ToolCall)
    requires !c.over
    ensures
      var i := |c.items|;
      var item := CallItem(id, InProgress, call.(arguments := ""));
      var added := Client(c.next + 1, c.items + [item], false);
      && Step(c, Event(c.next, ItemAdded(i, item))) == Some(added)
      && Step(added, Event(c.next + 1, ArgumentsDelta(i, id, call.arguments)))
         == Some(Client(c.next + 2, c.items + [CallItem(id, InProgress, call)], false))
  {
    var item := CallItem(id, InProgress, call.(arguments := ""));
    assert "" + call.arguments == call.arguments;
    assert (c.items + [item])[|c.items| := CallItem(id, InProgress, call)]
           == c.items + [CallItem(id, InProgress, call)];
  }

  lemma {:induction false} CharsConcat(a: seq<Event>, b: seq<Event>)
    ensures Chars(a + b) == Chars(a) + Chars(b)
  {
    if b == [] {
      assert a + b == a;
    } else {
      var n := |b| - 1;
      CharsConcat(a, b[..n]);
      assert (a + b)[..|a + b| - 1] == a + b[..n];
    }
  }

  // ---------------------------------------------------------------- what a rebuildable stream looks like

  /** Numbers are 0, 1, 2, ... without a gap. */
  lemma {:induction false} NumbersAreGapFree(events: seq<Event>)
    requires Rebuild(events).Some?
    ensures Rebuild(events).value.next == |events|
    ensures forall i :: 0 <= i < |events| ==> events[i].number == i
  {
    if events != [] { NumbersAreGapFree(events[..|events| - 1]); }
  }

  /** At most one terminal event is in the stream, and it is the last one. */
  lemma {:induction false} NothingFollowsTheEnd(events: seq<Event>, i: nat)
    requires Rebuild(events).Some? && i < |events| && Final(events[i].body)
    ensures i == |events| - 1
    ensures forall j :: 0 <= j < |events| && j != i ==> !Final(events[j].body)
  {
    forall j | 0 <= j < |events| && Final(events[j].body) ensures j == |events| - 1 {
      NotOverBeforeLast(events, j);
    }
  }

  lemma {:induction false} NotOverBeforeLast(events: seq<Event>, j: nat)
    requires Rebuild(events).Some? && j < |events| && Final(events[j].body)
    ensures j == |events| - 1 && Rebuild(events).value.over
  {
    if j < |events| - 1 { NotOverBeforeLast(events[..|events| - 1], j); }
  }

  /** The event that added the client's item `index`. */
  ghost predicate Adds(events: seq<Event>, at: nat, index: nat, id: ItemId) {
    at < |events| && events[at].body.ItemAdded? && events[at].body.index == index && events[at].body.item.id == id
  }

  /** No event changes the identity of an item, or opens one again. */
  lemma SameIdentity(c: Client, e: Event, index: nat)
    requires Step(c, e).Some? && index < |c.items|
    ensures
      var after := Step(c, e).value.items;
      && index < |after| && after[index].id == c.items[index].id
      && (after[index].status == InProgress ==>
            c.items[index].status == InProgress && !(e.body.ItemDone? && e.body.index == index))
  {
  }

  /** An item that was not there before is the one this event added. */
  lemma NewItem(c: Client, e: Event, index: nat)
    requires Step(c, e).Some? && |c.items| <= index < |Step(c, e).value.items|
    ensures e.body.ItemAdded? && e.body.index == index && e.body.item.id == Step(c, e).value.items[index].id
  {
  }

  /** Every item the client holds was added by one event, and an open one has not been closed since. */
  lemma {:induction false} ItemsComeFromEvents(events: seq<Event>, index: nat)
    requires Rebuild(events).Some? && index < |Rebuild(events).value.items|
    ensures exists at: nat :: Adds(events, at, index, Rebuild(events).value.items[index].id)
    ensures Rebuild(events).value.items[index].status == InProgress ==>
              forall k :: 0 <= k < |events| && events[k].body.ItemDone? ==> events[k].body.index != index
  {
    hide Step;
    var n := |events| - 1;
    var before := Rebuild(events[..n]).value;
    if index < |before.items| {
      SameIdentity(before, events[n], index);
      ItemsComeFromEvents(events[..n], index);
      var at: nat :| Adds(events[..n], at, index, before.items[index].id);
      assert Adds(events, at, index, before.items[index].id);
    } else {
      NewItem(before, events[n], index);
      assert Adds(events, n, index, Rebuild(events).value.items[index].id);
      forall k | 0 <= k < |events| && events[k].body.ItemDone? ensures events[k].body.index != index {
        ClosesExisting(events[..n], k);
        if k < n { assert events[..n][k] == events[k]; }
      }
    }
  }

  lemma {:induction false} ClosesExisting(events: seq<Event>, k: nat)
    requires Rebuild(events).Some?
    ensures k < |events| && events[k].body.ItemDone? ==> events[k].body.index < |Rebuild(events).value.items|
  {
    if events != [] && k < |events| { ClosesExisting(events[..|events| - 1], k); }
  }

  lemma DeltaIsOnOpenItem(c: Client, e: Event)
    requires Step(c, e).Some? && (e.body.TextDelta? || e.body.ArgumentsDelta?)
    ensures OpenItem(c.items, e.body.index, e.body.id)
  {
  }

  /** A delta refers to an item that was added before it and not closed before it. */
  lemma {:induction false} DeltasHitOpenItems(events: seq<Event>, j: nat)
    requires Rebuild(events).Some? && j < |events|
    requires events[j].body.TextDelta? || events[j].body.ArgumentsDelta?
    ensures exists at: nat :: at < j && Adds(events, at, events[j].body.index, events[j].body.id)
    ensures forall k :: 0 <= k < j && events[k].body.ItemDone? ==> events[k].body.index != events[j].body.index
    decreases |events|
  {
    hide Step;
    var n := |events| - 1;
    var index, id := events[j].body.index, events[j].body.id;
    if j < n {
      DeltasHitOpenItems(events[..n], j);
    } else {
      DeltaIsOnOpenItem(Rebuild(events[..n]).value, events[n]);
      ItemsComeFromEvents(events[..n], index);
    }
    hide Rebuild;
    assert forall k :: 0 <= k < n ==> events[..n][k] == events[k];
    var at: nat :| at < j && Adds(events[..n], at, index, id);
    assert Adds(events, at, index, id);
  }

  /** Announcing a response or an item, and closing an item, take more than one event, and these come together. */
  predicate Unfinished(body: Body) {
    body.Created? || body.ItemAdded? || body.TextDone? || body.PartDone? || body.ArgumentsDone?
  }

  /** What comes when nothing is unfinished: only an incomplete call is done without another event before it. */
  predicate ComesAlone(body: Body) {
    && (body.ItemAdded? || body.TextDelta? || body.TextDone? || body.ArgumentsDone? || body.ItemDone? || Final(body))
    && (body.ItemDone? ==> body.item.CallItem? && body.item.status != Completed)
  }

  /** What comes right after an event. */
  predicate MayFollowEvent(last: Body, body: Body) {
    match last
    case Created => body.Started?
    case ItemAdded(index, item) =>
      if item.PartItem? then body == PartAdded(index, item.id)
      else body.ArgumentsDelta? && body.index == index && body.id == item.id
    case TextDone(kind, index, id, text) => body == PartDone(kind, index, id, text)
    case PartDone(kind, index, id, text) =>
      body.ItemDone? && body.index == index && body.item == PartItem(id, body.item.status, kind, [text])
    case ArgumentsDone(index, id, text) =>
      body.ItemDone? && body.index == index && body.item.CallItem? && body.item.id == id
      && body.item.status == Completed && body.item.call.arguments == text
    case _ => ComesAlone(body)
  }

  /** A text delta names its kind's one item, and the stream begins with its own announcement unless it only fails. */
  predicate TidyNext(events: seq<Event>, body: Body) {
    && (body.TextDelta? ==> body.id == PartId(body.kind))
    && if events == [] then body.Created? || body.Failed? else MayFollowEvent(events[|events| - 1].body, body)
  }

  /** The events every stream that is not refused at once begins with. */
  const OPENING := [Event(0, Created), Event(1, Started)]

  ghost predicate Begun(events: seq<Event>) { OPENING <= events }

  predicate Announces(body: Body, index: nat, id: ItemId) {
    body.ItemAdded? && body.index == index && body.item.id == id
  }

  ghost predicate Tidy(events: seq<Event>) {
    forall i :: 0 <= i < |events| ==> TidyNext(events[..i], events[i].body)
  }

  lemma TidyMore(events: seq<Event>, e: Event)
    requires Tidy(events) && TidyNext(events, e.body)
    ensures Tidy(events + [e])
  {
    hide TidyNext;
    var all := events + [e];
    forall i | 0 <= i < |all| ensures TidyNext(all[..i], all[i].body) {
      assert all[..i] == if i < |events| then events[..i] else events;
    }
  }

  /** No call leaves off between events that come together. */
  predicate Settled(events: seq<Event>) { events != [] ==> !Unfinished(events[|events| - 1].body) }

  lemma NotBegunYet(events: seq<Event>)
    requires |events| < 2
    ensures !Begun(events)
  {
  }

  lemma ComesNext(events: seq<Event>, body: Body)
    requires Settled(events) && ComesAlone(body) && (Begun(events) || body.Failed?)
    requires body.TextDelta? ==> body.id == PartId(body.kind)
    ensures TidyNext(events, body)
  {
  }

  // ---------------------------------------------------------------- how items are closed

  /** The item is done once, and right before that, and nowhere else, its text and part, or its arguments, are. */
  ghost predicate ClosedAt(events: seq<Event>, index: nat, item: Item, k: nat) {
    && k < |events| && events[k].body == ItemDone(index, item)
    && (item.PartItem? ==>
          && k >= 2 && |item.content| == 1
          && events[k - 2].body == TextDone(item.kind, index, item.id, item.content[0])
          && events[k - 1].body == PartDone(item.kind, index, item.id, item.content[0]))
    && (item.CallItem? && item.status == Completed ==>
          k >= 1 && events[k - 1].body == ArgumentsDone(index, item.id, item.call.arguments))
    && forall j :: 0 <= j < |events| ==> OnlyCloses(events[j].body, j - k, index, item)
  }

  /** An event that has to do with closing the item comes so many places after the one that closes it. */
  predicate OnlyCloses(body: Body, offset: int, index: nat, item: Item) {
    && (body.ItemDone? && body.index == index ==> offset == 0)
    && (body.TextDone? && body.index == index ==> item.PartItem? && offset == -2)
    && (body.PartDone? && body.index == index ==> item.PartItem? && offset == -1)
    && (body.ArgumentsDone? && body.index == index ==> item.CallItem? && item.status == Completed && offset == -1)
  }

  ghost predicate ClosedOnce(events: seq<Event>, index: nat, item: Item) {
    exists k: nat :: ClosedAt(events, index, item, k)
  }

  lemma TidyAt(events: seq<Event>, j: nat)
    requires Tidy(events) && 0 < j < |events|
    ensures MayFollowEvent(events[j - 1].body, events[j].body)
  {
    assert TidyNext(events[..j], events[j].body);
    assert events[..j][j - 1] == events[j - 1];
  }

  lemma TidyFirst(events: seq<Event>)
    requires Tidy(events) && events != []
    ensures events[0].body.Created? || events[0].body.Failed?
  {
    assert TidyNext(events[..0], events[0].body);
  }

  /** Closing events lead to the one that closes the item. */
  lemma ClosingLeads(events: seq<Event>, j: nat)
    requires Tidy(events) && Settled(events) && j < |events|
    ensures events[j].body.TextDone? ==>
              j + 2 < |events| && events[j + 2].body.ItemDone? && events[j + 2].body.index == events[j].body.index
              && events[j + 2].body.item.PartItem?
    ensures events[j].body.PartDone? ==>
              j + 1 < |events| && events[j + 1].body.ItemDone? && events[j + 1].body.index == events[j].body.index
              && events[j + 1].body.item.PartItem?
    ensures events[j].body.ArgumentsDone? ==>
              j + 1 < |events| && events[j + 1].body.ItemDone? && events[j + 1].body.index == events[j].body.index
              && events[j + 1].body.item.CallItem? && events[j + 1].body.item.status == Completed
  {
    hide Tidy;
    if j + 1 < |events| { TidyAt(events, j + 1); }
    if j + 2 < |events| { TidyAt(events, j + 2); }
  }

  /** What comes before the event that closes an item. */
  lemma ClosingFollows(events: seq<Event>, k: nat)
    requires Tidy(events) && k < |events| && events[k].body.ItemDone?
    ensures var index, item := events[k].body.index, events[k].body.item;
            && (item.PartItem? ==>
                  && k >= 2 && |item.content| == 1
                  && events[k - 2].body == TextDone(item.kind, index, item.id, item.content[0])
                  && events[k - 1].body == PartDone(item.kind, index, item.id, item.content[0]))
            && (item.CallItem? && item.status == Completed ==>
                  k >= 1 && events[k - 1].body == ArgumentsDone(index, item.id, item.call.arguments))
  {
    hide Tidy;
    if k == 0 { TidyFirst(events); } else { TidyAt(events, k); }
    if k >= 2 { TidyAt(events, k - 1); }
    if k == 1 { TidyFirst(events); }
  }

  /** An item that is closed was closed by exactly one event, which shows it as it is. */
  lemma {:induction false} DoneOnce(events: seq<Event>, index: nat) returns (k: nat)
    requires Rebuild(events).Some? && index < |Rebuild(events).value.items|
    requires Rebuild(events).value.items[index].status != InProgress
    ensures k < |events| && events[k].body == ItemDone(index, Rebuild(events).value.items[index])
    ensures forall j :: 0 <= j < |events| && events[j].body.ItemDone? && events[j].body.index == index ==> j == k
  {
    hide Step;
    var n := |events| - 1;
    var front := events[..n];
    var before, after := Rebuild(front).value, Rebuild(events).value;
    assert forall j :: 0 <= j < n ==> front[j] == events[j];
    ClosesOne(before, events[n], index);
    if index < |before.items| && before.items[index].status != InProgress {
      k := DoneOnce(front, index);
    } else {
      k := n;
      ItemsComeFromEvents(front, index);
    }
  }

  /** A closed item stays as it is; one that was not closed is closed by its own event. */
  lemma ClosesOne(c: Client, e: Event, index: nat)
    requires Step(c, e).Some? && index < |Step(c, e).value.items|
    requires Step(c, e).value.items[index].status != InProgress
    ensures if index < |c.items| && c.items[index].status != InProgress
            then Step(c, e).value.items[index] == c.items[index] && !(e.body.ItemDone? && e.body.index == index)
            else index < |c.items| && e.body == ItemDone(index, Step(c, e).value.items[index])
  {
  }

  /** In a whole tidy stream each closed item was closed once, in the right order of events. */
  lemma ItemsCloseOnce(events: seq<Event>, index: nat)
    requires Rebuild(events).Some? && Tidy(events) && Settled(events)
    requires index < |Rebuild(events).value.items| && Rebuild(events).value.items[index].status != InProgress
    ensures ClosedOnce(events, index, Rebuild(events).value.items[index])
  {
    hide Rebuild, Tidy, Settled, Unfinished;
    var item := Rebuild(events).value.items[index];
    var k := DoneOnce(events, index);
    ClosingFollows(events, k);
    forall j | 0 <= j < |events| ensures OnlyCloses(events[j].body, j - k, index, item) { ClosingLeads(events, j); }
    hide OnlyCloses;
    assert ClosedAt(events, index, item, k);
  }

  /** What is closed after a settled part of a stream is closed by the events after it. */
  lemma ClosedLater(before: seq<Event>, more: seq<Event>, index: nat, item: Item)
    requires ClosedOnce(before + more, index, item) && Settled(before)
    requires forall j :: 0 <= j < |before| && before[j].body.ItemDone? ==> before[j].body.index != index
    ensures ClosedOnce(more, index, item)
  {
    hide OnlyCloses;
    var all, n := before + more, |before|;
    var k: nat :| ClosedAt(all, index, item, k);
    assert forall j :: 0 <= j < n ==> all[j] == before[j];
    assert k >= n;
    forall j | 0 <= j < |more| ensures OnlyCloses(more[j].body, j - (k - n), index, item) {
      assert more[j] == all[n + j];
    }
    assert more[k - n] == all[k];
    assert item.PartItem? ==> all[k - 1].body.PartDone? && all[k - 2].body.TextDone?;
    assert ClosedAt(more, index, item, k - n);
  }

  // ---------------------------------------------------------------- shared definitions of the encoder

  function Join(pieces: seq<string>): string {
    if pieces == [] then "" else Join(pieces[..|pieces| - 1]) + pieces[|pieces| - 1]
  }

  lemma {:induction false} JoinAppend(pieces: seq<string>, piece: string)
    ensures Join(pieces + [piece]) == Join(pieces) + piece
  {
    assert (pieces + [piece])[..|pieces|] == pieces;
  }

  /** The tool calls among the items, in order. */
  function CallsOf(items: seq<Item>): seq<ToolCall> {
    if items == [] then []
    else
      var last := items[|items| - 1];
      CallsOf(items[..|items| - 1]) + (if last.CallItem? then [last.call] else [])
  }

  ghost predicate SameCalls(a: seq<Item>, b: seq<Item>) {
    && |a| == |b|
    && forall i :: 0 <= i < |a| ==> (a[i].CallItem? <==> b[i].CallItem?) && (a[i].CallItem? ==> a[i].call == b[i].call)
  }

  lemma {:induction false} CallsOfSame(a: seq<Item>, b: seq<Item>)
    requires SameCalls(a, b)
    ensures CallsOf(a) == CallsOf(b)
  {
    if a != [] { CallsOfSame(a[..|a| - 1], b[..|b| - 1]); }
  }

  predicate DistinctIds(calls: seq<ToolCall>) {
    forall i, j :: 0 <= i < j < |calls| ==> calls[i].id != calls[j].id
  }

  predicate CallAllowed(request: Request, call: ToolCall) {
    && call.name in request.tools
    && request.choice != NoTool
    && (request.choice.Forced? ==> request.choice.name == call.name)
  }

  /** The checks the final payload makes on a whole outcome. */
  predicate Renderable(request: Request, o: Outcome) {
    && o.role == "assistant"
    && |o.calls| <= MAX_TOOLS && DistinctIds(o.calls)
    && (!request.parallel ==> |o.calls| <= 1)
    && (o.finish == ToolCalls ==> o.calls != [])
    && (o.finish == Stop ==> o.calls == [])
    && (o.finish != Cancelled && o.finish != Length && (request.choice == Required || request.choice.Forced?) ==>
          o.calls != [])
    && forall i :: 0 <= i < |o.calls| ==> CallAllowed(request, o.calls[i])
  }

  /**
   * Which outcomes can be rendered, by their calls: an answer without calls needs a choice that does not demand one or
   * must have been cut short, and one with calls must not claim to have stopped; every call is declared and chosen.
   */
  lemma RenderableIff(request: Request, o: Outcome)
    ensures Renderable(request, o) <==>
              && o.role == "assistant"
              && if o.calls == [] then
                   o.finish == Length || o.finish == Cancelled
                   || (o.finish == Stop && (request.choice == Auto || request.choice == NoTool))
                 else
                   && o.finish != Stop && |o.calls| <= (if request.parallel then 128 else 1)
                   && (forall i, j :: 0 <= i < j < |o.calls| ==> o.calls[i].id != o.calls[j].id)
                   && forall call :: call in o.calls ==>
                        call.name in request.tools
                        && match request.choice
                           case Auto | Required => true
                           case Forced(name) => call.name == name
                           case NoTool => false
  {
    if o.calls != [] { assert o.calls[0] in o.calls; }
  }

  function FinalStatus(o: Outcome): Status {
    if o.finish == Cancelled || o.finish == Length then Incomplete else Completed
  }

  /** The text pieces accepted so far, kept apart by kind. */
  datatype Pieces = Pieces(text: seq<string>, reasoning: seq<string>) {
    function Of(kind: Kind): seq<string> { if kind == Text then text else reasoning }

    function Add(kind: Kind, piece: string): Pieces {
      if kind == Text then Pieces(text + [piece], reasoning) else Pieces(text, reasoning + [piece])
    }
  }

  /** The output index of each kind's item, once it has one. */
  datatype Parts = Parts(text: Option<nat>, reasoning: Option<nat>) {
    function At(kind: Kind): Option<nat> { if kind == Text then text else reasoning }

    function Put(kind: Kind, index: nat): Parts {
      if kind == Text then Parts(Some(index), reasoning) else Parts(text, Some(index))
    }
  }

  /** The item as a client holds it: its text is what the deltas have added up to. */
  ghost function Seen(item: Item, pieces: Pieces): Item {
    if item.PartItem? then item.(content := [Join(pieces.Of(item.kind))]) else item
  }

  ghost predicate Agrees(items: seq<Item>, pieces: Pieces, held: seq<Item>) {
    |held| == |items| && forall i :: 0 <= i < |items| ==> held[i] == Seen(items[i], pieces)
  }

  ghost predicate PartAt(items: seq<Item>, index: Option<nat>, kind: Kind) {
    index.Some? ==>
      index.value < |items| && items[index.value].PartItem? && items[index.value].kind == kind
      && items[index.value].id == PartId(kind)
  }

  /** `parts` names exactly the text items, one per kind. */
  ghost predicate PartsIndex(parts: Parts, items: seq<Item>) {
    && PartAt(items, parts.text, Text) && PartAt(items, parts.reasoning, Reasoning)
    && (forall i :: 0 <= i < |items| && items[i].PartItem? ==>
          parts.At(items[i].kind) == Some(i) && items[i].id == PartId(items[i].kind))
  }

  /** The encoder's own records describe exactly what the client holds. */
  ghost predicate Fits(items: seq<Item>, pieces: Pieces, parts: Parts, tools: seq<ToolCall>, held: seq<Item>) {
    && Agrees(items, pieces, held)
    && PartsIndex(parts, items)
    && (parts.text.None? ==> pieces.text == []) && (parts.reasoning.None? ==> pieces.reasoning == [])
    && tools == CallsOf(items) && |tools| <= MAX_TOOLS && DistinctIds(tools)
    && (forall i :: 0 <= i < |items| && items[i].CallItem? ==> IsCall(items[i], tools))
  }

  /** A call item's identity is its position among the calls. */
  ghost predicate IsCall(item: Item, tools: seq<ToolCall>) {
    item.CallItem? && item.id.CallId? && item.id.index < |tools| && tools[item.id.index] == item.call
  }

  /** The identities of the items, in output order. */
  ghost function Ids(items: seq<Item>): (ids: seq<ItemId>)
    ensures |ids| == |items|
  {
    seq(|items|, i requires 0 <= i < |items| => items[i].id)
  }

  lemma IdsOneMore(items: seq<Item>, item: Item)
    ensures Ids(items + [item]) == Ids(items) + [item.id]
  {
  }

  /** First use of an identity puts it at the end. */
  function Opened(ids: seq<ItemId>, id: ItemId): seq<ItemId> {
    if id in ids then ids else ids + [id]
  }

  /** The identities after one chunk, when `calls` calls came before it. */
  function AfterChunk(ids: seq<ItemId>, calls: nat, chunk: Chunk): seq<ItemId> {
    match chunk
    case DeltaChunk(kind, _) => Opened(ids, PartId(kind))
    case ToolChunk(_) => ids + [CallId(calls)]
    case _ => ids
  }

  function CallIds(from: nat, to: nat): (ids: seq<ItemId>)
    requires from <= to
    ensures |ids| == to - from
  {
    seq(to - from, i requires 0 <= i < to - from => CallId(from + i))
  }

  lemma CallIdsNext(from: nat, to: nat)
    requires from <= to
    ensures CallIds(from, to + 1) == CallIds(from, to) + [CallId(to)]
  {
  }

  /** The final order: what was streamed, then reasoning, text and calls that were not. */
  function FinalOrder(ids: seq<ItemId>, calls: nat, o: Outcome): seq<ItemId>
    requires calls <= |o.calls|
  {
    var reasoned := if o.reasoning.Some? then Opened(ids, PartId(Reasoning)) else ids;
    var said := if o.content.Some? then Opened(reasoned, PartId(Text)) else reasoned;
    said + CallIds(calls, |o.calls|)
  }

  /** A kind has an item exactly if its index is known. */
  lemma FitsIds(
    items: seq<Item>, pieces: Pieces, parts: Parts, tools: seq<ToolCall>, held: seq<Item>, kind: Kind)
    requires Fits(items, pieces, parts, tools, held)
    ensures PartId(kind) in Ids(items) <==> parts.At(kind).Some?
  {
    hide Join, CallsOf, DistinctIds;
    if parts.At(kind).Some? { assert Ids(items)[parts.At(kind).value] == PartId(kind); }
    if PartId(kind) in Ids(items) {
      var i :| 0 <= i < |items| && items[i].id == PartId(kind);
      assert items[i].PartItem?;
    }
  }

  lemma FitsAfterPart(
    items: seq<Item>, pieces: Pieces, parts: Parts, tools: seq<ToolCall>, held: seq<Item>, kind: Kind)
    requires Fits(items, pieces, parts, tools, held) && parts.At(kind).None?
    ensures |held| == |items|
    ensures
      var item := PartItem(PartId(kind), InProgress, kind, [""]);
      Fits(items + [item], pieces, parts.Put(kind, |items|), tools, held + [item])
  {
    hide DistinctIds;
    var item := PartItem(PartId(kind), InProgress, kind, [""]);
    assert CallsOf(items + [item]) == CallsOf(items) by { assert (items + [item])[..|items|] == items; }
    assert Join(pieces.Of(kind)) == "";
    hide CallsOf, Join;
    assert Seen(item, pieces) == item;
  }

  lemma {:induction false} FitsAfterDelta(
    items: seq<Item>, pieces: Pieces, parts: Parts, tools: seq<ToolCall>, held: seq<Item>,
    kind: Kind, piece: string)
    requires Fits(items, pieces, parts, tools, held) && parts.At(kind).Some?
    ensures parts.At(kind).value < |items| == |held| && items[parts.At(kind).value].PartItem?
    ensures items[parts.At(kind).value].kind == kind && items[parts.At(kind).value].id == PartId(kind)
    ensures held[parts.At(kind).value] == Seen(items[parts.At(kind).value], pieces)
    ensures
      var i := parts.At(kind).value;
      Fits(items, pieces.Add(kind, piece), parts, tools,
           held[i := held[i].(content := [Join(pieces.Of(kind)) + piece])])
  {
    JoinAppend(pieces.Of(kind), piece);
  }

  lemma FitsAfterTool(
    items: seq<Item>, pieces: Pieces, parts: Parts, tools: seq<ToolCall>, held: seq<Item>, call: ToolCall)
    requires Fits(items, pieces, parts, tools, held) && |tools| < MAX_TOOLS
    requires forall i :: 0 <= i < |tools| ==> tools[i].id != call.id
    ensures |held| == |items|
    ensures
      var item := CallItem(CallId(|tools|), InProgress, call);
      Fits(items + [item], pieces, parts, tools + [call], held + [item])
  {
    var item := CallItem(CallId(|tools|), InProgress, call);
    assert (items + [item])[..|items|] == items;
  }

  /** A kind without an item has no accepted text. */
  lemma {:induction false} UnopenedIsEmpty(
    items: seq<Item>, pieces: Pieces, parts: Parts, tools: seq<ToolCall>, held: seq<Item>, kind: Kind)
    requires Fits(items, pieces, parts, tools, held)
    ensures parts.At(kind).None? ==> Join(pieces.Of(kind)) == ""
  {
  }

  /** One item's text part filled with the kind's joined text. */
  ghost function Fill(items: seq<Item>, parts: Parts, pieces: Pieces, kind: Kind): seq<Item> {
    var at := parts.At(kind);
    if at.Some? && at.value < |items| && items[at.value].PartItem?
    then items[at.value := items[at.value].(content := [Join(pieces.Of(kind))])] else items
  }

  lemma FilledIsHeld(
    items: seq<Item>, pieces: Pieces, parts: Parts, tools: seq<ToolCall>, held: seq<Item>)
    requires Fits(items, pieces, parts, tools, held)
    ensures held == Fill(Fill(items, parts, pieces, Text), parts, pieces, Reasoning)
    ensures Fits(held, pieces, parts, tools, held)
    ensures forall i :: 0 <= i < |items| ==> held[i].status == items[i].status
    ensures parts.text.Some? ==> parts.text.value < |items| && items[parts.text.value].PartItem?
    ensures parts.reasoning.Some? ==> parts.reasoning.value < |items| && items[parts.reasoning.value].PartItem?
  {
    hide Join, CallsOf, DistinctIds;
    CallsOfSame(items, held);
  }

  /** The items with the first `n` of them closed. */
  ghost function Closed(items: seq<Item>, n: nat, status: Status): (closed: seq<Item>)
    ensures |closed| == |items|
  {
    seq(|items|, i requires 0 <= i < |items| => if i < n then items[i].(status := status) else items[i])
  }

  lemma FitsClosed(
    items: seq<Item>, pieces: Pieces, parts: Parts, tools: seq<ToolCall>, status: Status)
    requires Fits(items, pieces, parts, tools, items)
    ensures Fits(Closed(items, |items|, status), pieces, parts, tools, Closed(items, |items|, status))
    ensures AllHave(Closed(items, |items|, status), status)
  {
    hide Join, CallsOf, DistinctIds;
    var closed := Closed(items, |items|, status);
    CallsOfSame(items, closed);
    forall i | 0 <= i < |closed| ensures closed[i] == Seen(closed[i], pieces) {
      assert items[i] == Seen(items[i], pieces);
    }
  }

  /** Every text item carries exactly its kind's text. */
  ghost predicate TextsAre(items: seq<Item>, text: string, reasoning: string) {
    forall i :: 0 <= i < |items| && items[i].PartItem? ==>
      && items[i].id == PartId(items[i].kind)
      && items[i].content == [if items[i].kind == Text then text else reasoning]
  }

  ghost predicate HasKind(items: seq<Item>, kind: Kind) {
    exists i :: 0 <= i < |items| && items[i].PartItem? && items[i].kind == kind
  }

  lemma {:induction false} FitsTexts(items: seq<Item>, pieces: Pieces, parts: Parts, tools: seq<ToolCall>)
    requires Fits(items, pieces, parts, tools, items)
    ensures TextsAre(items, Join(pieces.text), Join(pieces.reasoning))
    ensures forall i :: 0 <= i < |items| && items[i].PartItem? ==> |items[i].content| == 1
    ensures forall kind :: parts.At(kind).Some? <==> HasKind(items, kind)
    ensures CallsOf(items) == tools
    ensures forall i :: 0 <= i < |items| && items[i].CallItem? ==> IsCall(items[i], tools)
  {
    hide Join;
    assert forall kind :: parts.At(kind).Some? ==> items[parts.At(kind).value].kind == kind;
  }

  lemma ClientClosesPart(c: Client, i: nat, status: Status)
    requires !c.over && i < |c.items| && c.items[i].status == InProgress && status != InProgress
    requires c.items[i].PartItem? && |c.items[i].content| == 1
    ensures
      var item := c.items[i];
      var text := item.content[0];
      var closed := PartItem(item.id, status, item.kind, item.content);
      && Step(c, Event(c.next, TextDone(item.kind, i, item.id, text))) == Some(Client(c.next + 1, c.items, false))
      && Step(Client(c.next + 1, c.items, false), Event(c.next + 1, PartDone(item.kind, i, item.id, text)))
         == Some(Client(c.next + 2, c.items, false))
      && Step(Client(c.next + 2, c.items, false), Event(c.next + 2, ItemDone(i, closed)))
         == Some(Client(c.next + 3, c.items[i := closed], false))
  {
  }

  lemma ClientClosesCall(c: Client, i: nat, status: Status)
    requires !c.over && i < |c.items| && c.items[i].CallItem? && c.items[i].status == InProgress
    requires status != InProgress
    ensures
      var item := c.items[i];
      && Step(c, Event(c.next, ArgumentsDone(i, item.id, item.call.arguments)))
         == Some(Client(c.next + 1, c.items, false))
      && Step(c, Event(c.next, ItemDone(i, CallItem(item.id, status, item.call))))
         == Some(Client(c.next + 1, c.items[i := CallItem(item.id, status, item.call)], false))
  {
  }

  ghost predicate AllHave(items: seq<Item>, status: Status) {
    forall i :: 0 <= i < |items| ==> items[i].status == status
  }

  /** The catch-up pieces are as small as streamed ones. */
  ghost predicate SmallPieces(events: seq<Event>) {
    forall i :: 0 <= i < |events| && events[i].body.TextDelta? ==> |events[i].body.text| <= MAX_DELTA
  }

  /** What a chunk of output brings is told last: its text in one delta, or its call, announced and then in full. */
  predicate Brings(chunk: Chunk, calls: nat, events: seq<Event>) {
    match chunk
    case DeltaChunk(kind, text) =>
      && events != []
      && var last := events[|events| - 1].body;
      last.TextDelta? && last.kind == kind && last.id == PartId(kind) && last.text == text
    case ToolChunk(call) =>
      && |events| >= 2
      && var last, added := events[|events| - 1].body, events[|events| - 2].body;
      && last.ArgumentsDelta? && last == ArgumentsDelta(last.index, CallId(calls), call.arguments)
      && added == ItemAdded(last.index, CallItem(CallId(calls), InProgress, call.(arguments := "")))
    case _ => true
  }

  /** A call that turned the history `before` into `after` added exactly the new events to its own list. */
  ghost predicate Logged(before: seq<Event>, after: seq<Event>, events: seq<Event>, grown: seq<Event>) {
    && |before| <= |after| && after[..|before|] == before
    && grown == events + after[|before|..]
  }

  lemma LoggedSince(
    start: seq<Event>, before: seq<Event>, after: seq<Event>, events: seq<Event>, grown: seq<Event>)
    requires before == start + events && |before| <= |after| && after[..|before|] == before
    ensures after[..|start|] == start
    ensures Logged(before, after, events, grown) ==> after == start + grown
  {
    assert start == before[..|start|] == after[..|before|][..|start|] == after[..|start|];
    assert after == before + after[|before|..];
    assert start + (events + after[|before|..]) == (start + events) + after[|before|..];
  }

  lemma LoggedMore(
    start: seq<Event>, before: seq<Event>, after: seq<Event>, events: seq<Event>, grown: seq<Event>, more: seq<Event>)
    requires Logged(start, before, events, grown) && after == before + more
    ensures Logged(start, after, events, grown + more)
    ensures SmallPieces(grown) && SmallPieces(more) ==> SmallPieces(grown + more)
  {
  }

  // ---------------------------------------------------------------- when a chunk is taken

  /** The characters a chunk is billed, and its reservations. */
  function Cost(chunk: Chunk): nat {
    match chunk
    case DeltaChunk(_, text) => |text|
    case ToolChunk(call) => |call.id| + |call.name| + |call.arguments|
    case _ => 0
  }

  function Uses(chunk: Chunk): nat { if chunk.FinishChunk? then 0 else 1 }

  /** After a finish marker only usage may follow, and the calls an adapter flushes late. */
  predicate MayFollow(reason: Option<FinishReason>, chunk: Chunk) {
    reason.Some? ==>
      chunk.UsageChunk? || (chunk.ToolChunk? && reason.value in {ToolCalls, Length, Cancelled})
  }

  /** A call may join those accepted before it. */
  predicate CallFits(request: Request, tools: seq<ToolCall>, call: ToolCall) {
    && CallAllowed(request, call)
    && |tools| < MAX_TOOLS && (forall i :: 0 <= i < |tools| ==> tools[i].id != call.id)
    && (tools == [] || request.parallel)
  }

  /** Whether a chunk is taken after this finish marker, these calls and this much of the budget. */
  predicate Takes(
    request: Request, reason: Option<FinishReason>, tools: seq<ToolCall>, size: nat, count: nat, chunk: Chunk)
  {
    && MayFollow(reason, chunk)
    && (chunk.ToolChunk? ==> CallFits(request, tools, chunk.call))
    && Affords(size, count, Cost(chunk), Uses(chunk))
  }

  lemma LoggedOn(
    start: seq<Event>, before: seq<Event>, after: seq<Event>, events: seq<Event>, logged: seq<Event>, grown: seq<Event>)
    requires Logged(start, before, events, logged) && Logged(before, after, logged, grown)
    ensures Logged(start, after, events, grown)
  {
    LoggedBefore(start, before, after, events, logged);
    assert after == before + after[|before|..];
  }

  lemma Associate(ids: seq<ItemId>, more: seq<ItemId>, id: ItemId)
    ensures ids + more + [id] == ids + (more + [id])
  {
  }

  lemma LoggedBefore(start: seq<Event>, before: seq<Event>, after: seq<Event>, events: seq<Event>, grown: seq<Event>)
    requires Logged(start, before, events, grown) && |before| <= |after| && after[..|before|] == before
    ensures |start| <= |after| && after[..|start|] == start
  {
    assert after[..|start|] == after[..|before|][..|start|];
  }

  lemma LoggedNothing(history: seq<Event>, events: seq<Event>)
    ensures Logged(history, history, events, events)
  {
  }

  // ---------------------------------------------------------------- the budget of catching up

  /** How many deltas a text of this length takes. */
  function PieceCount(n: nat): nat {
    if n == 0 then 0 else if n <= MAX_DELTA then 1 else 1 + PieceCount(n - MAX_DELTA)
  }

  lemma {:induction false} PieceCountStep(n: nat)
    ensures PieceCount(n)
         == if n == 0 then 0 else 1 + PieceCount(if n <= MAX_DELTA then 0 else n - MAX_DELTA)
  {
  }

  /** A position in a text, or its end. */
  function Reach(at: nat, text: string): nat { if at < |text| then at else |text| }

  lemma SliceNext(text: string, start: nat, stop: nat)
    requires start <= stop <= |text|
    ensures text[..start] + text[start..stop] == text[..stop]
  {
  }

  /** Whether so many more characters in so many more reservations stay within the budget; none always do. */
  predicate Affords(size: nat, chunks: nat, characters: nat, count: nat) {
    count == 0 || (size + characters <= MAX_RESPONSE_CHARS && chunks + count <= MAX_CHUNKS)
  }

  /** The characters of a final text that were not streamed. */
  function Missing(final: Option<string>, observed: string): nat {
    if final.None? || |final.value| <= |observed| then 0 else |final.value| - |observed|
  }

  function CallChars(calls: seq<ToolCall>): nat {
    if calls == [] then 0 else |calls[0].id| + |calls[0].name| + |calls[0].arguments| + CallChars(calls[1..])
  }

  /** What finishing still has to send: characters, and reservations. */
  function MissingChars(o: Outcome, pieces: Pieces, sent: nat): nat
    requires sent <= |o.calls|
  {
    Missing(o.reasoning, Join(pieces.reasoning)) + Missing(o.content, Join(pieces.text)) + CallChars(o.calls[sent..])
  }

  function MissingCount(o: Outcome, pieces: Pieces, sent: nat): nat
    requires sent <= |o.calls|
  {
    PieceCount(Missing(o.reasoning, Join(pieces.reasoning))) + PieceCount(Missing(o.content, Join(pieces.text)))
    + |o.calls| - sent
  }

  lemma {:induction false} CallCharsNext(calls: seq<ToolCall>, n: nat)
    requires n < |calls|
    ensures CallChars(calls[n..])
         == |calls[n].id| + |calls[n].name| + |calls[n].arguments| + CallChars(calls[n + 1..])
  {
    assert calls[n..][1..] == calls[n + 1..];
  }

  lemma {:induction false} CallCharsEnd(calls: seq<ToolCall>)
    ensures CallChars(calls[|calls|..]) == 0
  {
  }

  /** The checks on the whole outcome imply those on each call it adds. */
  lemma RenderableCall(request: Request, o: Outcome, n: nat)
    requires Renderable(request, o) && n < |o.calls|
    ensures CallAllowed(request, o.calls[n]) && n < MAX_TOOLS && (n > 0 ==> request.parallel)
    ensures forall i :: 0 <= i < n ==> o.calls[i].id != o.calls[n].id
  {
    hide CallAllowed;
  }

  /** The outcome extends what was observed: its texts and its calls begin with it. */
  predicate Extends(o: Outcome, pieces: Pieces, tools: seq<ToolCall>) {
    && (o.content.Some? ==> Join(pieces.text) <= o.content.value)
    && (o.reasoning.Some? ==> Join(pieces.reasoning) <= o.reasoning.value)
    && tools <= o.calls
  }

  lemma {:induction false} ExtendsIs(o: Outcome, pieces: Pieces, tools: seq<ToolCall>)
    ensures Extends(o, pieces, tools) <==>
            && (o.content.Some? ==> Join(pieces.text) <= o.content.value)
            && (o.reasoning.Some? ==> Join(pieces.reasoning) <= o.reasoning.value)
            && tools <= o.calls
    ensures Extends(o, pieces, tools) ==> |tools| <= |o.calls|
  {
  }

  /** What takes no reservation has no characters. */
  lemma {:induction false} MissingNothing(o: Outcome, sent: nat)
    requires sent <= |o.calls|
    ensures |o.calls| == sent ==> CallChars(o.calls[sent..]) == 0
    ensures forall n: nat :: PieceCount(n) == 0 ==> n == 0
  {
  }

  /** Affording three bills one after the other is affording their sum. */
  lemma AffordsInTurn(size: nat, chunks: nat, a: nat, i: nat, b: nat, j: nat, c: nat, k: nat)
    requires (i == 0 ==> a == 0) && (j == 0 ==> b == 0) && (k == 0 ==> c == 0)
    ensures Affords(size, chunks, a + b + c, i + j + k) <==>
            Affords(size, chunks, a, i) && Affords(size + a, chunks + i, b, j)
            && Affords(size + a + b, chunks + i + j, c, k)
  {
  }

  // ---------------------------------------------------------------- what calls do to the encoder's records

  /**
   * What decides the encoder's later answers: the finish marker, each kind's text once its item is open, the accepted
   * calls, the budget spent and whether the stream is over.
   */
  datatype Ledger = Ledger(
    reason: Option<FinishReason>, text: Option<string>, reasoning: Option<string>, tools: seq<ToolCall>,
    size: nat, count: nat, done: bool)
  {
    function Of(kind: Kind): Option<string> { if kind == Text then text else reasoning }

    function Observed(kind: Kind): string { if Of(kind).Some? then Of(kind).value else "" }

    function Put(kind: Kind, value: string): Ledger {
      if kind == Text then this.(text := Some(value)) else this.(reasoning := Some(value))
    }

    /** One reservation, spent even when it is refused. */
    function Billed(characters: nat): Ledger { this.(size := size + characters, count := count + 1) }

    predicate Covered() { size <= MAX_RESPONSE_CHARS && count <= MAX_CHUNKS }
  }

  const FRESH_LEDGER := Ledger(None, None, None, [], 0, 0, false)

  function AddText(s: Ledger, kind: Kind, piece: string): (Ledger, bool) {
    var billed := s.Billed(|piece|);
    if billed.Covered() then (billed.Put(kind, s.Observed(kind) + piece), true) else (billed, false)
  }

  function FirstPiece(n: nat): nat { if n <= MAX_DELTA then n else MAX_DELTA }

  /** The rest of a final text, piece by piece until one is refused. */
  function SendText(s: Ledger, kind: Kind, rest: string): (Ledger, bool)
    decreases |rest|
  {
    if rest == "" then (s, true)
    else
      var n := FirstPiece(|rest|);
      var (after, ok) := AddText(s, kind, rest[..n]);
      if ok then SendText(after, kind, rest[n..]) else (after, false)
  }

  function ReachText(s: Ledger, kind: Kind, final: Option<string>): (Ledger, bool) {
    if final.None? then (s, true)
    else if !(s.Observed(kind) <= final.value) then (s, false)
    else if final.value == "" && s.Of(kind).None? then (s.Put(kind, ""), true)
    else SendText(s, kind, final.value[|s.Observed(kind)|..])
  }

  function TakeChunk(request: Request, s: Ledger, chunk: Chunk): (Ledger, bool) {
    if s.done || !MayFollow(s.reason, chunk) then (s, false)
    else
      match chunk
      case DeltaChunk(kind, piece) => AddText(s, kind, piece)
      case ToolChunk(call) =>
        if !CallFits(request, s.tools, call) then (s, false)
        else
          var billed := s.Billed(Cost(chunk));
          if billed.Covered() then (billed.(tools := s.tools + [call]), true) else (billed, false)
      case FinishChunk(reason) => (s.(reason := Some(reason)), true)
      case UsageChunk => (s.Billed(0), s.Billed(0).Covered())
  }

  function TakeCalls(request: Request, s: Ledger, calls: seq<ToolCall>): (Ledger, bool)
    decreases |calls|
  {
    if calls == [] then (s, true)
    else
      var (after, ok) := TakeChunk(request, s, ToolChunk(calls[0]));
      if ok then TakeCalls(request, after, calls[1..]) else (after, false)
  }

  /** Catching up with the outcome's texts, then with its calls. */
  function ReachOutcome(request: Request, s: Ledger, o: Outcome): (Ledger, bool) {
    var (thought, first) := ReachText(s, Reasoning, o.reasoning);
    if !first then (thought, false)
    else
      var (said, second) := ReachText(thought, Text, o.content);
      if !second || !(said.tools <= o.calls) then (said, false)
      else TakeCalls(request, said, o.calls[|said.tools|..])
  }

  /** The identities and the finish marker an outcome must match before anything is sent. */
  predicate Matches(request: Request, responseId: string, s: Ledger, o: Outcome) {
    && o.requestId == responseId && o.modelEcho == request.model
    && (s.reason.Some? ==> s.reason.value == o.finish)
  }

  function Concluded(request: Request, responseId: string, s: Ledger, outcome: Option<Outcome>): (Ledger, bool) {
    if outcome.None? || s.done then (s, true)
    else if !Matches(request, responseId, s, outcome.value) then (s, false)
    else
      var (reached, ok) := ReachOutcome(request, s.(reason := None), outcome.value);
      if ok && Renderable(request, outcome.value) then (reached.(done := true), true) else (reached, false)
  }

  /** Whether a final text is reached: what was observed is its prefix, and the rest is affordable. */
  predicate Reaches(s: Ledger, kind: Kind, final: Option<string>) {
    final.Some? ==>
      s.Observed(kind) <= final.value
      && Affords(s.size, s.count, Missing(final, s.Observed(kind)), PieceCount(Missing(final, s.Observed(kind))))
  }

  /** The budget after the reasoning was caught up with. */
  function SizeAt(s: Ledger, o: Outcome, kind: Kind): nat {
    if kind == Text then s.size + Missing(o.reasoning, s.Observed(Reasoning)) else s.size
  }

  function CountAt(s: Ledger, o: Outcome, kind: Kind): nat {
    if kind == Text then s.count + PieceCount(Missing(o.reasoning, s.Observed(Reasoning))) else s.count
  }

  /**
   * Whether finishing with this outcome opens the item of one kind, whatever becomes of the call: the outcome matches,
   * the kind has a final text and no item yet, the reasoning before it is reached, and its first piece is affordable.
   */
  predicate Opens(request: Request, responseId: string, s: Ledger, o: Outcome, kind: Kind) {
    && Matches(request, responseId, s, o)
    && s.Of(kind).None? && FinalText(o, kind).Some?
    && (kind == Text ==> Reaches(s, Reasoning, o.reasoning))
    && (FinalText(o, kind).value == ""
        || Affords(SizeAt(s, o, kind), CountAt(s, o, kind), FirstPiece(|FinalText(o, kind).value|), 1))
  }

  lemma {:induction false} SendStep(s: Ledger, kind: Kind, final: string, start: nat)
    requires start < |final|
    ensures var stop := Reach(start + MAX_DELTA, final);
            && start <= stop <= |final|
            && var (after, ok) := AddText(s, kind, final[start..stop]);
            SendText(s, kind, final[start..]) == if ok then SendText(after, kind, final[stop..]) else (after, false)
  {
    var stop, rest := Reach(start + MAX_DELTA, final), final[start..];
    assert rest[..FirstPiece(|rest|)] == final[start..stop] && rest[FirstPiece(|rest|)..] == final[stop..];
  }

  lemma {:induction false} SendNothing(s: Ledger, kind: Kind, final: string)
    ensures SendText(s, kind, final[|final|..]) == (s, true)
  {
  }

  /** Two ledgers that tell the same apart from one kind's text and the budget. */
  predicate SameBut(s: Ledger, t: Ledger, kind: Kind) {
    var other := if kind == Text then Reasoning else Text;
    t.Of(other) == s.Of(other) && t.tools == s.tools && t.reason == s.reason && t.done == s.done
  }

  lemma {:induction false} SendSucceeds(s: Ledger, kind: Kind, rest: string)
    ensures var (t, ok) := SendText(s, kind, rest);
            && (ok <==> Affords(s.size, s.count, |rest|, PieceCount(|rest|)))
            && (ok ==> t.size == s.size + |rest| && t.count == s.count + PieceCount(|rest|))
    decreases |rest|
  {
    PieceCountStep(|rest|);
    if rest != "" {
      hide PieceCount;
      var n := FirstPiece(|rest|);
      var (after, ok) := AddText(s, kind, rest[..n]);
      if ok { SendSucceeds(after, kind, rest[n..]); }
    }
  }

  lemma {:induction false} SendKeeps(s: Ledger, kind: Kind, rest: string)
    ensures var t := SendText(s, kind, rest).0; SameBut(s, t, kind) && (s.Of(kind).Some? ==> t.Of(kind).Some?)
    decreases |rest|
  {
    if rest != "" {
      var n := FirstPiece(|rest|);
      var (after, ok) := AddText(s, kind, rest[..n]);
      if ok { SendKeeps(after, kind, rest[n..]); }
    }
  }

  /** Sending a text opens the item with its first piece. */
  lemma {:induction false} SendOpens(s: Ledger, kind: Kind, rest: string)
    requires s.Of(kind).None?
    ensures SendText(s, kind, rest).0.Of(kind).Some? <==>
            rest != "" && Affords(s.size, s.count, FirstPiece(|rest|), 1)
  {
    if rest != "" {
      var n := FirstPiece(|rest|);
      var (after, ok) := AddText(s, kind, rest[..n]);
      if ok { SendKeeps(after, kind, rest[n..]); }
    }
  }

  lemma ReachIs(s: Ledger, kind: Kind, final: Option<string>)
    ensures var (t, ok) := ReachText(s, kind, final);
            && (ok <==> Reaches(s, kind, final))
            && (ok ==> t.size == s.size + Missing(final, s.Observed(kind))
                       && t.count == s.count + PieceCount(Missing(final, s.Observed(kind))))
            && SameBut(s, t, kind)
            && (s.Of(kind).Some? ==> t.Of(kind).Some?)
            && (s.Of(kind).None? ==>
                  (t.Of(kind).Some? <==>
                     final.Some? && (final.value == "" || Affords(s.size, s.count, FirstPiece(|final.value|), 1))))
  {
    hide SendText, PieceCount;
    PieceCountStep(0);
    if final.Some? && s.Observed(kind) <= final.value {
      var rest := final.value[|s.Observed(kind)|..];
      SendSucceeds(s, kind, rest);
      SendKeeps(s, kind, rest);
      if s.Of(kind).None? {
        assert rest == final.value;
        SendOpens(s, kind, rest);
      }
    }
  }

  lemma {:induction false} TakeCallsNext(request: Request, s: Ledger, calls: seq<ToolCall>, n: nat)
    requires n < |calls|
    ensures var (after, ok) := TakeChunk(request, s, ToolChunk(calls[n]));
            TakeCalls(request, s, calls[n..])
            == if ok then TakeCalls(request, after, calls[n + 1..]) else (after, false)
  {
    hide TakeChunk;
    assert calls[n..][1..] == calls[n + 1..];
  }

  lemma {:induction false} TakeNoCalls(request: Request, s: Ledger, calls: seq<ToolCall>)
    ensures TakeCalls(request, s, calls[|calls|..]) == (s, true)
  {
  }

  lemma {:induction false} CallsOpenNothing(request: Request, s: Ledger, calls: seq<ToolCall>)
    ensures var t := TakeCalls(request, s, calls).0; t.text == s.text && t.reasoning == s.reasoning
    decreases |calls|
  {
    if calls != [] {
      var (after, ok) := TakeChunk(request, s, ToolChunk(calls[0]));
      if ok { CallsOpenNothing(request, after, calls[1..]); }
    }
  }

  /** Finishing opens the item of a kind exactly where the condition on the earlier records and the outcome says. */
  lemma ConcludedOpens(request: Request, responseId: string, s: Ledger, o: Outcome, kind: Kind)
    requires !s.done && s.Of(kind).None?
    ensures Concluded(request, responseId, s, Some(o)).0.Of(kind).Some? <==> Opens(request, responseId, s, o, kind)
  {
    hide ReachText, TakeCalls, Affords, PieceCount, Renderable, Missing;
    if Matches(request, responseId, s, o) {
      var begun := s.(reason := None);
      var (thought, first) := ReachText(begun, Reasoning, o.reasoning);
      ReachIs(begun, Reasoning, o.reasoning);
      if first {
        var (said, second) := ReachText(thought, Text, o.content);
        ReachIs(thought, Text, o.content);
        if second && said.tools <= o.calls { CallsOpenNothing(request, said, o.calls[|said.tools|..]); }
      }
    }
  }

  /** No call takes an item away again. */
  lemma ConcludedKeeps(request: Request, responseId: string, s: Ledger, outcome: Option<Outcome>, kind: Kind)
    ensures s.Of(kind).Some? ==> Concluded(request, responseId, s, outcome).0.Of(kind).Some?
  {
    hide ReachText, TakeCalls, Renderable;
    if outcome.Some? && !s.done && Matches(request, responseId, s, outcome.value) {
      var o, begun := outcome.value, s.(reason := None);
      var (thought, first) := ReachText(begun, Reasoning, o.reasoning);
      ReachIs(begun, Reasoning, o.reasoning);
      if first {
        var (said, second) := ReachText(thought, Text, o.content);
        ReachIs(thought, Text, o.content);
        if second && said.tools <= o.calls { CallsOpenNothing(request, said, o.calls[|said.tools|..]); }
      }
    }
  }

  /** The list object the encoder mutates and the final response refers to. */
  class OutputList {
    var items: seq<Item>

    constructor ()
      ensures items == []
    {
      items := [];
    }
  }

  /** A response document holds the output list itself, not a copy. */
  datatype Response = Response(status: Status, cancelled: bool, output: OutputList)

  method ResponsePayload(request: Request, outcome: Outcome, output: OutputList)
    returns (r: Result<Response, StreamError>)
    ensures r.Ok? <==> Renderable(request, outcome)
    ensures r.Ok? ==> r.value.output == output
    ensures r.Ok? ==> r.value.status == FinalStatus(outcome) && r.value.cancelled == (outcome.finish == Cancelled)
  {
    if outcome.role != "assistant" { return Err(UnsupportedResponse); }
    var calls := outcome.calls;
    if |calls| > MAX_TOOLS || !DistinctIds(calls) { return Err(UnsupportedResponse); }
    var complete := outcome.finish != Cancelled && outcome.finish != Length;
    var required := request.choice == Required || request.choice.Forced?;
    if (!request.parallel && |calls| > 1) || (outcome.finish == ToolCalls && calls == [])
       || (outcome.finish == Stop && calls != []) || (complete && required && calls == [])
    {
      return Err(UnsupportedResponse);
    }
    for i := 0 to |calls|
      invariant forall k :: 0 <= k < i ==> CallAllowed(request, calls[k])
    {
      if !CallAllowed(request, calls[i]) { return Err(UnsupportedResponse); }
    }
    return Ok(Response(FinalStatus(outcome), outcome.finish == Cancelled, output));
  }

  class ResponsesStreamEvents {
    const request: Request
    const responseId: string
    const output: OutputList
    var parts: Parts
    var pieces: Pieces
    var tools: seq<ToolCall>
    var sequence: nat
    var size: nat
    var chunks: nat
    var started: bool
    var done: bool
    var finishReason: Option<FinishReason>

    /** Every event ever numbered, including those a raised call never returned. */
    ghost var emitted: seq<Event>
    /** What a client that saw all of `emitted` holds. */
    ghost var client: Client

    /** The numbering and the client's state fit the history. */
    ghost predicate Recorded()
      reads this
    {
      && sequence == |emitted|
      && Rebuild(emitted) == Some(client)
      && client.next == sequence
      && DeltaText(emitted, Text) == Join(pieces.text) && DeltaText(emitted, Reasoning) == Join(pieces.reasoning)
      && Chars(emitted) <= size && Chars(emitted) <= MAX_RESPONSE_CHARS
      && Tidy(emitted)
    }

    ghost predicate Consistent()
      reads this, output
    {
      && Recorded() && Settled(emitted)
      && client.over == done
      && Fits(output.items, pieces, parts, tools, client.items)
      && (!started ==> output.items == [] && (!done ==> emitted == []))
      && (started <==> Begun(emitted))
    }

    ghost predicate Valid()
      reads this, output
    {
      Consistent() && (!done ==> AllHave(output.items, InProgress))
    }

    constructor (request: Request, responseId: string)
      ensures Valid() && fresh(output)
      ensures this.request == request && this.responseId == responseId
      ensures emitted == [] && !started && !done && tools == [] && parts == Parts(None, None) && size == 0
      ensures chunks == 0
      ensures finishReason == None && output.items == [] && pieces == Pieces([], []) && Kept() == FRESH_LEDGER
    {
      this.request, this.responseId := request, responseId;
      output := new OutputList();
      parts, pieces := Parts(None, None), Pieces([], []);
      tools, sequence, size, chunks := [], 0, 0, 0;
      started, done, finishReason := false, false, None;
      emitted, client := [], FRESH_CLIENT;
    }

    /** The records that decide later answers. */
    function Kept(): Ledger
      reads this
    {
      Ledger(finishReason, if parts.text.Some? then Some(Join(pieces.text)) else None,
             if parts.reasoning.Some? then Some(Join(pieces.reasoning)) else None, tools, size, chunks, done)
    }

    /** A kind without an item has no text, so what was observed of it is what its pieces join to. */
    lemma KeptIs()
      requires Valid()
      ensures Kept().Observed(Text) == Join(pieces.text) && Kept().Observed(Reasoning) == Join(pieces.reasoning)
    {
      hide Rebuild, DeltaText, Chars, Fits, Join;
      UnopenedIsEmpty(output.items, pieces, parts, tools, client.items, Text);
      UnopenedIsEmpty(output.items, pieces, parts, tools, client.items, Reasoning);
    }

    /** What validity says of the numbered history. */
    lemma Told()
      requires Valid()
      ensures Rebuild(emitted) == Some(client) && client.over == done && |client.items| == |output.items|
      ensures DeltaText(emitted, Text) == Join(pieces.text) && DeltaText(emitted, Reasoning) == Join(pieces.reasoning)
      ensures Chars(emitted) <= MAX_RESPONSE_CHARS && Tidy(emitted) && Settled(emitted)
    {
      hide Rebuild, DeltaText, Chars, Join, Tidy, Settled, Begun;
    }

    /** A started stream begins with its announcement; before that nothing has been numbered, unless it failed. */
    lemma BegunIs()
      requires Valid()
      ensures started <==> OPENING <= emitted
      ensures !started && !done ==> emitted == []
    {
      hide Rebuild, DeltaText, Chars, Join, Tidy, Settled, Fits;
    }

    /** While the stream is open, no item is closed. */
    lemma NothingDone()
      requires Valid() && !done
      ensures forall j :: 0 <= j < |emitted| ==> !emitted[j].body.ItemDone?
    {
      hide Rebuild, DeltaText, Chars, Join, Tidy, Settled, Begun, CallsOf, DistinctIds;
      forall j: nat | j < |emitted| && emitted[j].body.ItemDone? ensures false {
        ClosesExisting(emitted, j);
        var index := emitted[j].body.index;
        assert client.items[index] == Seen(output.items[index], pieces);
        ItemsComeFromEvents(emitted, index);
      }
    }

    /** What a finish returned closes every item, in order. */
    lemma FinishCloses(before: seq<Event>, more: seq<Event>, status: Status)
      requires Valid() && emitted == before + more && client.items == output.items
      requires AllHave(output.items, status) && status != InProgress && Settled(before)
      requires forall j :: 0 <= j < |before| ==> !before[j].body.ItemDone?
      ensures forall i :: 0 <= i < |output.items| ==> ClosedOnce(more, i, output.items[i])
    {
      hide Rebuild, Tidy, Settled, ClosedOnce, Valid;
      Told();
      forall i | 0 <= i < |output.items| ensures ClosedOnce(more, i, output.items[i]) {
        ItemsCloseOnce(emitted, i);
        ClosedLater(before, more, i, output.items[i]);
      }
    }

    lemma IsConsistent()
      requires Valid()
      ensures Consistent()
    {
      hide Consistent;
    }

    /** Sets or clears the finish marker, which has no part in validity. */
    method Mark(reason: Option<FinishReason>)
      requires Valid()
      modifies this`finishReason
      ensures Valid() && finishReason == reason && Kept() == old(Kept()).(reason := reason)
    {
      hide Rebuild, DeltaText, Chars, Join, Fits, Tidy, Settled, Begun;
      finishReason := reason;
    }

    /** Numbers one event. Everything in it is a value: later changes to the items do not reach it. */
    method Emit(body: Body) returns (e: Event)
      requires sequence == |emitted| && Rebuild(emitted) == Some(client)
      requires Step(client, Event(sequence, body)).Some?
      requires Tidy(emitted) && TidyNext(emitted, body)
      modifies this`sequence, this`emitted, this`client
      ensures e == Event(old(sequence), body) && emitted == old(emitted) + [e]
      ensures sequence == old(sequence) + 1 == |emitted|
      ensures Some(client) == Step(old(client), e) == Rebuild(emitted)
      ensures DeltaText(emitted, Text) == old(DeltaText(emitted, Text)) + DeltaOf(body, Text)
      ensures DeltaText(emitted, Reasoning) == old(DeltaText(emitted, Reasoning)) + DeltaOf(body, Reasoning)
      ensures Chars(emitted) == old(Chars(emitted)) + CharsOf(body)
      ensures Tidy(emitted) && (Settled(emitted) <==> !Unfinished(body))
      ensures old(Begun(emitted)) ==> Begun(emitted)
    {
      hide Tidy, TidyNext;
      e := Event(sequence, body);
      TidyMore(emitted, e);
      Append(emitted, e);
      sequence := sequence + 1;
      client := Step(client, e).value;
      emitted := emitted + [e];
    }

    method Begin() returns (events: seq<Event>)
      requires Valid() && !done
      modifies this`started, this`sequence, this`emitted, this`client
      ensures Valid() && started && emitted == old(emitted) + events
      ensures SmallPieces(events) && Kept() == old(Kept())
      ensures events == if old(started) then [] else OPENING
    {
      hide Rebuild, Step, DeltaText, Chars, Fits, Join, Tidy;
      events := [];
      if started { return; }
      ClientBegins(client);
      started := true;
      var created := Emit(Created);
      var inProgress := Emit(Started);
      events := [created, inProgress];
      assert emitted == old(emitted) + events;
    }

    /** Counts output against the budget. `false` is the source's raise; the budget stays spent. */
    method Reserve(characters: nat) returns (ok: bool)
      requires Valid()
      modifies this`size, this`chunks
      ensures Valid()
      ensures size == old(size) + characters && chunks == old(chunks) + 1
      ensures Kept() == old(Kept()).Billed(characters) && ok == Kept().Covered()
      ensures ok <==> size <= MAX_RESPONSE_CHARS && chunks <= MAX_CHUNKS
      ensures Chars(emitted) + characters <= size
    {
      hide Rebuild, Step, DeltaText, Chars, Fits, Join, Tidy, Settled, Begun;
      size := size + characters;
      chunks := chunks + 1;
      ok := size <= MAX_RESPONSE_CHARS && chunks <= MAX_CHUNKS;
    }

    /** The item of one kind, opened on first use. */
    method Part(kind: Kind, events: seq<Event>) returns (index: nat, grown: seq<Event>)
      requires Valid() && started && !done
      modifies this`parts, this`sequence, this`emitted, this`client, output
      ensures Valid()
      ensures parts.At(kind) == Some(index)
      ensures parts == if old(parts).At(kind).Some? then old(parts) else old(parts).Put(kind, |old(output.items)|)
      ensures Logged(old(emitted), emitted, events, grown) && (SmallPieces(events) ==> SmallPieces(grown))
      ensures tools == old(tools) && Chars(emitted) == old(Chars(emitted))
      ensures Kept() == if old(parts).At(kind).Some? then old(Kept()) else old(Kept()).Put(kind, "")
      ensures Ids(output.items) == Opened(old(Ids(output.items)), PartId(kind))
    {
      hide Rebuild, Step, DeltaText, Chars, Fits, Join, Tidy, Settled, Begun, Ids, ComesAlone;
      KeptIs();
      FitsIds(output.items, pieces, parts, tools, client.items, kind);
      if parts.At(kind).Some? {
        index, grown := parts.At(kind).value, events;
        return;
      }
      index := |output.items|;
      FitsAfterPart(output.items, pieces, parts, tools, client.items, kind);
      ClientOpensPart(client, kind);
      parts := parts.Put(kind, index);
      var item := PartItem(PartId(kind), InProgress, kind, []);
      output.items := output.items + [item];
      ComesNext(emitted, ItemAdded(index, item));
      var added := Emit(ItemAdded(index, item));
      output.items := output.items[index := item.(content := [""])];
      var opening := Emit(PartAdded(index, PartId(kind)));
      grown := events + [added, opening];
      assert emitted == old(emitted) + [added, opening];
      assert output.items == old(output.items) + [item.(content := [""])];
      IdsOneMore(old(output.items), item.(content := [""]));
      assert client.items == old(client.items) + [item.(content := [""])];
    }

    /** Adds one piece that the budget covers to the item of its kind. */
    method AddPiece(kind: Kind, piece: string, events: seq<Event>) returns (grown: seq<Event>)
      requires Valid() && started && !done && Chars(emitted) + |piece| <= size <= MAX_RESPONSE_CHARS
      modifies this`pieces, this`parts, this`sequence, this`emitted, this`client, output
      ensures Valid() && parts.At(kind).Some? && pieces == old(pieces).Add(kind, piece)
      ensures parts == if old(parts).At(kind).Some? then old(parts) else old(parts).Put(kind, |old(output.items)|)
      ensures Ids(output.items) == Opened(old(Ids(output.items)), PartId(kind))
      ensures Logged(old(emitted), emitted, events, grown)
      ensures |piece| <= MAX_DELTA && SmallPieces(events) ==> SmallPieces(grown)
      ensures Kept() == old(Kept()).Put(kind, old(Kept()).Observed(kind) + piece)
      ensures started && Brings(DeltaChunk(kind, piece), 0, grown)
    {
      hide Rebuild, Step, DeltaText, Chars, Fits, Join, Tidy, Settled, Begun, Ids, Opened, ComesAlone;
      KeptIs();
      var index;
      index, grown := Part(kind, events);
      FitsAfterDelta(output.items, pieces, parts, tools, client.items, kind, piece);
      ClientTakesDelta(client, index, piece);
      JoinAppend(pieces.Of(kind), piece);
      pieces := pieces.Add(kind, piece);
      ComesNext(emitted, TextDelta(kind, index, output.items[index].id, piece));
      var e := Emit(TextDelta(kind, index, output.items[index].id, piece));
      grown := grown + [e];
    }

    method Delta(kind: Kind, piece: string, events: seq<Event>) returns (ok: bool, grown: seq<Event>)
      requires Valid() && started && !done
      modifies this`size, this`chunks, this`pieces, this`parts, this`sequence, this`emitted, this`client, output
      ensures Valid()
      ensures ok ==> Ids(output.items) == Opened(old(Ids(output.items)), PartId(kind))
      ensures !ok ==> pieces == old(pieces) && emitted == old(emitted) && output.items == old(output.items)
      ensures ok <==> Affords(old(size), old(chunks), |piece|, 1)
      ensures size == old(size) + |piece| && chunks == old(chunks) + 1
      ensures ok ==> pieces == old(pieces).Add(kind, piece) && parts.At(kind).Some?
      ensures parts == if !ok || old(parts).At(kind).Some? then old(parts)
                       else old(parts).Put(kind, |old(output.items)|)
      ensures ok ==> Logged(old(emitted), emitted, events, grown)
      ensures ok && |piece| <= MAX_DELTA && SmallPieces(events) ==> SmallPieces(grown)
      ensures (Kept(), ok) == AddText(old(Kept()), kind, piece)
      ensures ok ==> Brings(DeltaChunk(kind, piece), 0, grown)
    {
      hide Rebuild, Step, DeltaText, Chars, Fits, Join, Ids, Opened, SmallPieces, Logged, Tidy, Settled, Begun;
      ok := Reserve(|piece|);
      if ok { grown := AddPiece(kind, piece, events); } else { grown := events; }
    }

    /** Whether `Push` takes a chunk in the current state. */
    predicate Accepts(chunk: Chunk)
      reads this
    {
      !done && Takes(request, finishReason, tools, size, chunks, chunk)
    }

    /** Takes one adapter chunk. A refused chunk leaves the accepted output as it was. */
    method Push(chunk: Chunk) returns (r: Result<seq<Event>, StreamError>)
      requires Valid()
      modifies this, output
      ensures Valid() && done == old(done) && (old(started) ==> started)
      ensures r.Ok? <==> old(Accepts(chunk))
      ensures (Kept(), r.Ok?) == TakeChunk(request, old(Kept()), chunk)
      ensures r.Err? ==> parts == old(parts)
      ensures |old(emitted)| <= |emitted| && emitted[..|old(emitted)|] == old(emitted)
      ensures r.Ok? ==> started && emitted == old(emitted) + r.value
      ensures started <==> old(started) || (!old(done) && MayFollow(old(finishReason), chunk))
      ensures r.Ok? && !old(started) ==> OPENING <= r.value
      ensures r.Ok? ==> Brings(chunk, |old(tools)|, r.value)
      ensures r.Ok? && !chunk.DeltaChunk? && !chunk.ToolChunk? ==> r.value == if old(started) then [] else OPENING
      ensures r.Ok? && (chunk.DeltaChunk? ==> |chunk.text| <= MAX_DELTA) ==> SmallPieces(r.value)
      ensures pieces == if r.Ok? && chunk.DeltaChunk? then old(pieces).Add(chunk.kind, chunk.text) else old(pieces)
      ensures tools == if r.Ok? && chunk.ToolChunk? then old(tools) + [chunk.call] else old(tools)
      ensures !chunk.DeltaChunk? ==> parts == old(parts)
      ensures Ids(output.items)
              == if r.Ok? then AfterChunk(old(Ids(output.items)), |old(tools)|, chunk) else old(Ids(output.items))
      ensures finishReason == if r.Ok? && chunk.FinishChunk? then Some(chunk.reason) else old(finishReason)
      ensures r.Ok? ==> size == old(size) + Cost(chunk) && chunks == old(chunks) + Uses(chunk)
      ensures r.Ok? && Uses(chunk) > 0 ==> size <= MAX_RESPONSE_CHARS && chunks <= MAX_CHUNKS
    {
      hide Rebuild, Step, DeltaText, Chars, Fits, Join, Valid, SmallPieces, Ids, CallAllowed, Tidy, Settled, Begun,
           Brings;
      if done || (finishReason.Some? && !chunk.UsageChunk?
                  && !(chunk.ToolChunk? && finishReason.value in {ToolCalls, Length, Cancelled}))
      {
        return Err(UnsupportedResponse);
      }
      BegunIs();
      var events := Begin();
      assert emitted == old(emitted) + events;
      var ok;
      ok, events := Take(chunk, events);
      BegunIs();
      return if ok then Ok(events) else Err(UnsupportedResponse);
    }

    /** What one chunk that may come now does. */
    method Take(chunk: Chunk, events: seq<Event>) returns (ok: bool, grown: seq<Event>)
      requires Valid() && started && !done && MayFollow(finishReason, chunk)
      modifies this, output
      ensures Valid() && started && !done
      ensures (Kept(), ok) == TakeChunk(request, old(Kept()), chunk)
      ensures ok ==> Brings(chunk, |old(tools)|, grown)
      ensures ok && !chunk.DeltaChunk? && !chunk.ToolChunk? ==> grown == events
      ensures ok <==> Takes(request, old(finishReason), old(tools), old(size), old(chunks), chunk)
      ensures ok ==> Logged(old(emitted), emitted, events, grown)
      ensures !ok ==> emitted == old(emitted) && parts == old(parts)
      ensures ok && SmallPieces(events) && (chunk.DeltaChunk? ==> |chunk.text| <= MAX_DELTA) ==> SmallPieces(grown)
      ensures pieces == if ok && chunk.DeltaChunk? then old(pieces).Add(chunk.kind, chunk.text) else old(pieces)
      ensures !chunk.DeltaChunk? ==> parts == old(parts)
      ensures Ids(output.items)
              == if ok then AfterChunk(old(Ids(output.items)), |old(tools)|, chunk) else old(Ids(output.items))
    {
      hide Rebuild, Step, DeltaText, Chars, Fits, Join, Valid, SmallPieces, Ids, CallAllowed, Tidy, Settled, Begun,
           Logged;
      LoggedNothing(emitted, events);
      match chunk {
        case DeltaChunk(kind, piece) =>
          ok, grown := Delta(kind, piece, events);
        case ToolChunk(call) =>
          ok, grown := Tool(call, events);
        case FinishChunk(reason) =>
          Mark(Some(reason));
          ok, grown := true, events;
        case UsageChunk =>
          ok := Reserve(0);
          grown := events;
      }
    }

    /** One complete tool call becomes one item and one arguments delta. */
    method Tool(call: ToolCall, events: seq<Event>) returns (ok: bool, grown: seq<Event>)
      requires Valid() && started && !done
      modifies this`size, this`chunks, this`tools, this`sequence, this`emitted, this`client, output
      ensures Valid()
      ensures Kept() == if !CallFits(request, old(tools), call) then old(Kept())
                        else if ok then old(Kept()).Billed(Cost(ToolChunk(call))).(tools := old(tools) + [call])
                        else old(Kept()).Billed(Cost(ToolChunk(call)))
      ensures ok <==> (&& CallAllowed(request, call)
                       && |old(tools)| < MAX_TOOLS
                       && (forall i :: 0 <= i < |old(tools)| ==> old(tools)[i].id != call.id)
                       && (old(tools) == [] || request.parallel)
                       && old(size) + |call.id| + |call.name| + |call.arguments| <= MAX_RESPONSE_CHARS
                       && old(chunks) < MAX_CHUNKS)
      ensures !ok ==> tools == old(tools) && emitted == old(emitted) && output.items == old(output.items)
      ensures ok ==> Ids(output.items) == old(Ids(output.items)) + [CallId(|old(tools)|)]
      ensures ok ==> size == old(size) + |call.id| + |call.name| + |call.arguments| && chunks == old(chunks) + 1
      ensures ok ==> tools == old(tools) + [call] && Logged(old(emitted), emitted, events, grown)
      ensures ok ==> Brings(ToolChunk(call), |old(tools)|, grown)
      ensures SmallPieces(events) ==> SmallPieces(grown)
    {
      hide Rebuild, Step, DeltaText, Chars, Fits, Join, CallsOf, CallAllowed, Tidy, Settled, Begun;
      grown := events;
      if !CallAllowed(request, call) { return false, grown; }
      if |tools| >= MAX_TOOLS || exists i :: 0 <= i < |tools| && tools[i].id == call.id { return false, grown; }
      if tools != [] && !request.parallel { return false, grown; }
      ok := Reserve(|call.id| + |call.name| + |call.arguments|);
      if !ok { return; }
      grown := AddCall(call, events);
    }

    /** The item of one accepted call, and its arguments. */
    method AddCall(call: ToolCall, events: seq<Event>) returns (grown: seq<Event>)
      requires Valid() && started && !done && |tools| < MAX_TOOLS
      requires forall i :: 0 <= i < |tools| ==> tools[i].id != call.id
      requires Chars(emitted) + |call.id| + |call.name| + |call.arguments| <= size <= MAX_RESPONSE_CHARS
      modifies this`tools, this`sequence, this`emitted, this`client, output
      ensures Valid() && tools == old(tools) + [call]
      ensures Ids(output.items) == old(Ids(output.items)) + [CallId(|old(tools)|)]
      ensures Logged(old(emitted), emitted, events, grown)
      ensures Brings(ToolChunk(call), |old(tools)|, grown)
      ensures SmallPieces(events) ==> SmallPieces(grown)
    {
      hide Rebuild, Step, DeltaText, Chars, Fits, Join, CallsOf, CallAllowed, Tidy, Settled, Begun;
      FitsAfterTool(output.items, pieces, parts, tools, client.items, call);
      ClientOpensCall(client, CallId(|tools|), call);
      tools := tools + [call];
      var index := |output.items|;
      var item := CallItem(CallId(|tools| - 1), InProgress, call.(arguments := ""));
      output.items := output.items + [item];
      ComesNext(emitted, ItemAdded(index, item));
      var added := Emit(ItemAdded(index, item));
      output.items := output.items[index := item.(call := call)];
      var filled := Emit(ArgumentsDelta(index, item.id, call.arguments));
      grown := events + [added, filled];
      assert emitted == old(emitted) + [added, filled];
      assert output.items == old(output.items) + [CallItem(CallId(|old(tools)|), InProgress, call)];
    }

    /** Brings one kind's emitted text up to its final text, in bounded pieces, or finds a conflict. */
    method CatchUp(kind: Kind, final: Option<string>, events: seq<Event>) returns (ok: bool, grown: seq<Event>)
      requires Valid() && started && !done
      modifies this`size, this`chunks, this`pieces, this`parts, this`sequence, this`emitted, this`client, output
      ensures Valid()
      ensures tools == old(tools)
      ensures final.None? ==> ok && grown == events && emitted == old(emitted) && pieces == old(pieces)
      ensures var missing := Missing(final, Join(old(pieces).Of(kind)));
              && (ok <==> (final.Some? ==> Join(old(pieces).Of(kind)) <= final.value)
                          && Affords(old(size), old(chunks), missing, PieceCount(missing)))
              && (ok ==> size == old(size) + missing && chunks == old(chunks) + PieceCount(missing))
      ensures ok && final.Some? ==> Join(pieces.Of(kind)) == final.value && parts.At(kind).Some?
      ensures ok && final.Some? ==> Ids(output.items) == Opened(old(Ids(output.items)), PartId(kind))
      ensures ok && final.None? ==> Ids(output.items) == old(Ids(output.items))
      ensures old(parts).At(Reasoning).Some? ==> parts.At(Reasoning).Some?
      ensures pieces.Of(if kind == Text then Reasoning else Text)
              == old(pieces).Of(if kind == Text then Reasoning else Text)
      ensures |old(emitted)| <= |emitted| && emitted[..|old(emitted)|] == old(emitted)
      ensures ok ==> Logged(old(emitted), emitted, events, grown) && (SmallPieces(events) ==> SmallPieces(grown))
      ensures (Kept(), ok) == ReachText(old(Kept()), kind, final)
    {
      hide Rebuild, Step, DeltaText, Chars, Join, Fits, PieceCount, Ids, Tidy, Settled, Begun, SendText;
      KeptIs();
      PieceCountStep(0);
      grown := events;
      if final.None? { return true, grown; }
      var observed := Join(pieces.Of(kind));
      if !(observed <= final.value) { return false, grown; }
      UnopenedIsEmpty(output.items, pieces, parts, tools, client.items, kind);
      FitsIds(output.items, pieces, parts, tools, client.items, kind);
      if final.value == "" && parts.At(kind).None? {
        var index;
        index, grown := Part(kind, grown);
      } else if |final.value| > |observed| {
        ok, grown := Send(kind, final.value, |observed|, grown);
        return;
      } else {
        SendNothing(Kept(), kind, final.value);
      }
      ok := true;
    }

    /** Sends the rest of a final text in pieces of bounded size. */
    method Send(kind: Kind, final: string, from: nat, events: seq<Event>) returns (ok: bool, grown: seq<Event>)
      requires Valid() && started && !done && from < |final| && Join(pieces.Of(kind)) == final[..from]
      modifies this`size, this`chunks, this`pieces, this`parts, this`sequence, this`emitted, this`client, output
      ensures Valid() && tools == old(tools)
      ensures ok <==> Affords(old(size), old(chunks), |final| - from, PieceCount(|final| - from))
      ensures ok ==> size == old(size) + |final| - from && chunks == old(chunks) + PieceCount(|final| - from)
      ensures ok ==> Join(pieces.Of(kind)) == final && parts.At(kind).Some?
      ensures ok ==> Ids(output.items) == Opened(old(Ids(output.items)), PartId(kind))
      ensures old(parts).At(Reasoning).Some? ==> parts.At(Reasoning).Some?
      ensures pieces.Of(if kind == Text then Reasoning else Text)
              == old(pieces).Of(if kind == Text then Reasoning else Text)
      ensures |old(emitted)| <= |emitted| && emitted[..|old(emitted)|] == old(emitted)
      ensures ok ==> Logged(old(emitted), emitted, events, grown) && (SmallPieces(events) ==> SmallPieces(grown))
      ensures (Kept(), ok) == SendText(old(Kept()), kind, final[from..])
    {
      hide Rebuild, Step, DeltaText, Chars, Join, Fits, PieceCount, Ids, Valid, Tidy, Settled, Begun, SendText, AddText,
           SmallPieces, Brings;
      LoggedNothing(emitted, events);
      grown := events;
      PieceCountStep(0);
      PieceCountStep(|final| - from);
      var start := from;
      while start < |final|
        invariant Valid() && started && !done && tools == old(tools) && from <= start
        invariant Join(pieces.Of(kind)) == final[..Reach(start, final)]
        invariant start > from ==> parts.At(kind).Some? && size <= MAX_RESPONSE_CHARS && chunks <= MAX_CHUNKS
        invariant Ids(output.items)
               == if start > from then Opened(old(Ids(output.items)), PartId(kind)) else old(Ids(output.items))
        invariant old(parts).At(Reasoning).Some? ==> parts.At(Reasoning).Some?
        invariant pieces.Of(if kind == Text then Reasoning else Text)
                  == old(pieces).Of(if kind == Text then Reasoning else Text)
        invariant Logged(old(emitted), emitted, events, grown) && (SmallPieces(events) ==> SmallPieces(grown))
        invariant SendText(Kept(), kind, final[Reach(start, final)..]) == SendText(old(Kept()), kind, final[from..])
        invariant size == old(size) + Reach(start, final) - from
        invariant chunks + PieceCount(|final| - Reach(start, final)) == old(chunks) + PieceCount(|final| - from)
      {
        PieceCountStep(|final| - start);
        var stop := Reach(start + MAX_DELTA, final);
        JoinAppend(pieces.Of(kind), final[start..stop]);
        SliceNext(final, start, stop);
        SendStep(Kept(), kind, final, start);
        ok, grown := Delta(kind, final[start..stop], grown);
        if !ok { return; }
        start := start + MAX_DELTA;
      }
      assert final[..|final|] == final;
      SendNothing(Kept(), kind, final);
      ok := true;
    }

    /** Writes each kind's joined text into its item. */
    method FillTexts()
      requires Valid() && !done
      modifies output
      ensures output.items == client.items && Valid()
      ensures Ids(output.items) == old(Ids(output.items))
    {
      hide Rebuild, Step, DeltaText, Chars, Fits, Join, Tidy, Settled, Begun;
      FilledIsHeld(output.items, pieces, parts, tools, client.items);
      if parts.text.Some? {
        var item := output.items[parts.text.value];
        output.items := output.items[parts.text.value := item.(content := [Join(pieces.text)])];
      }
      if parts.reasoning.Some? {
        var item := output.items[parts.reasoning.value];
        output.items := output.items[parts.reasoning.value := item.(content := [Join(pieces.reasoning)])];
      }
    }

    /** Sets one item's status and announces it as done. */
    method CloseItem(index: nat, status: Status, events: seq<Event>) returns (grown: seq<Event>)
      requires Recorded() && !client.over && client.items == output.items && status != InProgress
      requires Settled(emitted) && Begun(emitted)
      requires index < |output.items| && output.items[index].status == InProgress
      requires output.items[index].PartItem? ==> |output.items[index].content| == 1
      modifies this`sequence, this`emitted, this`client, output
      ensures Recorded() && Settled(emitted) && Begun(emitted) && !client.over && client.items == output.items
      ensures output.items == old(output.items)[index := old(output.items)[index].(status := status)]
      ensures Logged(old(emitted), emitted, events, grown) && (SmallPieces(events) ==> SmallPieces(grown))
    {
      hide Rebuild, Step, DeltaText, Chars, Join, Tidy, Settled, Begun;
      grown := events;
      var item := output.items[index].(status := status);
      output.items := output.items[index := item];
      if item.CallItem? {
        ClientClosesCall(client, index, status);
        if status == Completed {
          ComesNext(emitted, ArgumentsDone(index, item.id, item.call.arguments));
          var argumentsDone := Emit(ArgumentsDone(index, item.id, item.call.arguments));
          grown := grown + [argumentsDone];
          ClientClosesCall(client, index, status);
        } else {
          ComesNext(emitted, ItemDone(index, item));
        }
      } else {
        ClientClosesPart(client, index, status);
        ComesNext(emitted, TextDone(item.kind, index, item.id, item.content[0]));
        var textDone := Emit(TextDone(item.kind, index, item.id, item.content[0]));
        var partDone := Emit(PartDone(item.kind, index, item.id, item.content[0]));
        grown := grown + [textDone, partDone];
      }
      var closed := Emit(ItemDone(index, item));
      grown := grown + [closed];
    }

    method CloseItems(status: Status, events: seq<Event>) returns (grown: seq<Event>)
      requires Recorded() && !client.over && client.items == output.items && status != InProgress
      requires AllHave(output.items, InProgress) && Settled(emitted) && Begun(emitted)
      requires forall i :: 0 <= i < |output.items| && output.items[i].PartItem? ==> |output.items[i].content| == 1
      modifies this`sequence, this`emitted, this`client, output
      ensures Recorded() && Settled(emitted) && Begun(emitted) && !client.over
      ensures client.items == output.items == Closed(old(output.items), |old(output.items)|, status)
      ensures Logged(old(emitted), emitted, events, grown) && (SmallPieces(events) ==> SmallPieces(grown))
    {
      hide Rebuild, Step, DeltaText, Chars, Join, Tidy, Settled, Begun;
      grown := events;
      var n := |output.items|;
      for index := 0 to n
        invariant Recorded() && Settled(emitted) && Begun(emitted) && !client.over && client.items == output.items
        invariant output.items == Closed(old(output.items), index, status)
        invariant Logged(old(emitted), emitted, events, grown) && (SmallPieces(events) ==> SmallPieces(grown))
      {
        grown := CloseItem(index, status, grown);
      }
    }

    /** Ends the stream with an error event, unless it has ended already. */
    method Fail() returns (events: seq<Event>)
      requires Consistent()
      modifies this`done, this`sequence, this`emitted, this`client
      ensures Valid() && done
      ensures emitted == old(emitted) + events
      ensures events == if old(done) then [] else [Event(old(sequence), Failed)]
      ensures client.items == old(client.items) && Kept() == old(Kept()).(done := true)
    {
      hide Rebuild, DeltaText, Chars, Fits, Join, Tidy, Settled, Begun;
      if done { return []; }
      done := true;
      ComesNext(emitted, Failed);
      var e := Emit(Failed);
      events := [e];
      if !started { NotBegunYet(emitted); }
    }

    /** What a stream that finished with outcome `o` has told its client. */
    ghost predicate Finished(o: Outcome, last: Event)
      reads this, output
    {
      && client.items == output.items
      && AllHave(output.items, FinalStatus(o))
      && last.body == (if o.finish == Cancelled then Failed else Ended(FinalStatus(o), output.items))
      && CallsOf(output.items) == o.calls
      && (forall i :: 0 <= i < |output.items| && output.items[i].CallItem? ==> IsCall(output.items[i], o.calls))
      && TextsAre(output.items, DeltaText(emitted, Text), DeltaText(emitted, Reasoning))
      && (o.content.Some? ==> DeltaText(emitted, Text) == o.content.value && HasKind(output.items, Text))
      && (o.reasoning.Some? ==> DeltaText(emitted, Reasoning) == o.reasoning.value && HasKind(output.items, Reasoning))
    }

    /** The observed output, or the request, conflicts with the outcome. */
    ghost predicate Conflicts(o: Outcome)
      reads this
    {
      || (o.content.Some? && !(DeltaText(emitted, Text) <= o.content.value))
      || (o.reasoning.Some? && !(DeltaText(emitted, Reasoning) <= o.reasoning.value))
      || !(tools <= o.calls)
      || o.requestId != responseId || o.modelEcho != request.model
      || (finishReason.Some? && finishReason.value != o.finish)
      || !Renderable(request, o)
    }

    /** What is missing of the outcome still fits into the budget. */
    predicate CanAfford(o: Outcome)
      reads this
    {
      |tools| <= |o.calls| ==>
        Affords(size, chunks, MissingChars(o, pieces, |tools|), MissingCount(o, pieces, |tools|))
    }

    /** Nothing is wrong with the outcome but what the final response checks, and no call is missing. */
    ghost predicate OnlyUnrenderable(o: Outcome)
      reads this
    {
      && o.requestId == responseId && o.modelEcho == request.model
      && (finishReason.Some? ==> finishReason.value == o.finish)
      && Extends(o, pieces, tools) && |tools| == |o.calls| && CanAfford(o)
      && !Renderable(request, o)
    }

    /** Reconciles what was streamed with the final outcome and ends the stream. */
    method Finish(outcome: Option<Outcome>) returns (r: Result<seq<Event>, StreamError>)
      requires Valid()
      modifies this, output
      ensures Valid()
      ensures |old(emitted)| <= |emitted| && emitted[..|old(emitted)|] == old(emitted)
      ensures outcome.None? || old(done) ==> r == Ok([]) && emitted == old(emitted) && done == old(done)
      ensures r.Ok? ==> emitted == old(emitted) + r.value && SmallPieces(r.value)
      ensures outcome.Some? && !old(done) ==>
                (r.Ok? <==> !old(Conflicts(outcome.value)) && old(CanAfford(outcome.value)))
      ensures r.Ok? && outcome.Some? && !old(done) ==>
                && done && r.value != [] && Finished(outcome.value, r.value[|r.value| - 1])
                && |old(tools)| <= |outcome.value.calls|
                && Ids(output.items) == FinalOrder(old(Ids(output.items)), |old(tools)|, outcome.value)
      ensures r.Ok? && outcome.Some? && !old(done) && outcome.value.content.None? ==>
                DeltaText(emitted, Text) == old(DeltaText(emitted, Text))
      ensures r.Ok? && outcome.Some? && !old(done) && outcome.value.reasoning.None? ==>
                DeltaText(emitted, Reasoning) == old(DeltaText(emitted, Reasoning))
      ensures r.Err? ==> done == old(done)
      ensures (Kept(), r.Ok?) == Concluded(request, responseId, old(Kept()), outcome)
      ensures started <==>
                old(started)
                || (outcome.Some? && !old(done) && Matches(request, responseId, old(Kept()), outcome.value))
      ensures r.Ok? && outcome.Some? && !old(done) ==> started && (!old(started) ==> OPENING <= r.value)
      ensures r.Ok? && outcome.Some? && !old(done) ==>
                forall i :: 0 <= i < |output.items| ==> ClosedOnce(r.value, i, output.items[i])
      ensures outcome.Some? && !old(done) ==>
                forall kind :: old(Kept()).Of(kind).None? ==>
                  (Kept().Of(kind).Some? <==> Opens(request, responseId, old(Kept()), outcome.value, kind))
      ensures outcome.Some? && !old(done) && old(OnlyUnrenderable(outcome.value)) ==>
                && Ids(output.items) == FinalOrder(old(Ids(output.items)), |old(tools)|, outcome.value)
                && finishReason.None?
                && size == old(size) + MissingChars(outcome.value, old(pieces), |old(tools)|)
                && chunks == old(chunks) + MissingCount(outcome.value, old(pieces), |old(tools)|)
    {
      hide Rebuild, Step, DeltaText, Chars, Fits, Join, Ids, FinalOrder, CallsOf, TextsAre, HasKind, Affords,
           MissingChars, MissingCount, Renderable, Extends, Valid, Tidy, Settled, Begun, ReachOutcome, Opens, Finished,
           ClosedOnce;
      Told();
      OpensWhere(outcome);
      if outcome.None? || done { return Ok([]); }
      var o := outcome.value;
      if o.requestId != responseId || o.modelEcho != request.model { return Err(UnsupportedResponse); }
      if finishReason.Some? && finishReason.value != o.finish { return Err(UnsupportedResponse); }
      ExtendsIs(o, pieces, tools);
      BegunIs();
      Mark(None);
      var ok, events := Settle(o);
      BegunIs();
      return if ok then Ok(events) else Err(UnsupportedResponse);
    }

    /** Reconciles with an outcome that matches, checks the final response and ends the stream. */
    method Settle(o: Outcome) returns (ok: bool, events: seq<Event>)
      requires Valid() && !done && finishReason.None?
      modifies this, output
      ensures Valid() && done == ok && started
      ensures ok ==> forall i :: 0 <= i < |output.items| ==> ClosedOnce(events, i, output.items[i])
      ensures |old(emitted)| <= |emitted| && emitted[..|old(emitted)|] == old(emitted)
      ensures var (reached, sent) := ReachOutcome(request, old(Kept()), o);
              (Kept(), ok)
              == if sent && Renderable(request, o) then (reached.(done := true), true) else (reached, false)
      ensures ok ==> Extends(o, old(pieces), old(tools))
      ensures ok <==>
                && Renderable(request, o) && Extends(o, old(pieces), old(tools))
                && |old(tools)| <= |o.calls|
                && Affords(old(size), old(chunks), MissingChars(o, old(pieces), |old(tools)|),
                           MissingCount(o, old(pieces), |old(tools)|))
      ensures ok ==>
                && emitted == old(emitted) + events && SmallPieces(events)
                && events != [] && Finished(o, events[|events| - 1])
                && Ids(output.items) == FinalOrder(old(Ids(output.items)), |old(tools)|, o)
      ensures ok && o.content.None? ==> DeltaText(emitted, Text) == old(DeltaText(emitted, Text))
      ensures ok && o.reasoning.None? ==> DeltaText(emitted, Reasoning) == old(DeltaText(emitted, Reasoning))
      ensures Extends(o, old(pieces), old(tools)) && |old(tools)| == |o.calls|
              && Affords(old(size), old(chunks), MissingChars(o, old(pieces), |old(tools)|),
                         MissingCount(o, old(pieces), |old(tools)|)) ==>
                && Ids(output.items) == FinalOrder(old(Ids(output.items)), |old(tools)|, o)
                && finishReason.None?
                && size == old(size) + MissingChars(o, old(pieces), |old(tools)|)
                && chunks == old(chunks) + MissingCount(o, old(pieces), |old(tools)|)
    {
      hide Rebuild, Step, DeltaText, Chars, Fits, Join, Ids, FinalOrder, CallsOf, TextsAre, HasKind, Affords,
           MissingChars, MissingCount, Renderable, Extends, Valid, Tidy, Settled, Begun, ReachOutcome, ClosedOnce;
      ExtendsIs(o, pieces, tools);
      Told();
      NothingDone();
      ghost var before := emitted;
      ok, events := Reconcile(o);
      if !ok { return; }
      FillTexts();
      var payload := ResponsePayload(request, o, output);
      if payload.Err? { return false, events; }
      events := Conclude(o, payload.value, events);
      Told();
      FinishCloses(before, events, FinalStatus(o));
    }

    lemma OpensWhere(outcome: Option<Outcome>)
      ensures outcome.Some? && !done ==>
                forall kind :: Kept().Of(kind).None? ==>
                  (Concluded(request, responseId, Kept(), outcome).0.Of(kind).Some?
                   <==> Opens(request, responseId, Kept(), outcome.value, kind))
    {
      hide Concluded, Opens;
      if outcome.Some? && !done {
        forall kind | Kept().Of(kind).None?
          ensures Concluded(request, responseId, Kept(), outcome).0.Of(kind).Some?
                  <==> Opens(request, responseId, Kept(), outcome.value, kind)
        {
          ConcludedOpens(request, responseId, Kept(), outcome.value, kind);
        }
      }
    }

    /** Catches up with the outcome's texts and calls; only an exact observed prefix is extended. */
    method Reconcile(o: Outcome) returns (ok: bool, events: seq<Event>)
      requires Valid() && !done && finishReason.None?
      modifies this, output
      ensures Valid() && !done && finishReason.None? && started
      ensures |old(emitted)| <= |emitted| && emitted[..|old(emitted)|] == old(emitted)
      ensures ok ==> Extends(o, old(pieces), old(tools))
      ensures (Kept(), ok) == ReachOutcome(request, old(Kept()), o)
      ensures ok ==> size == old(size) + MissingChars(o, old(pieces), |old(tools)|)
      ensures ok ==> chunks == old(chunks) + MissingCount(o, old(pieces), |old(tools)|)
      ensures Renderable(request, o) || |old(tools)| == |o.calls| ==>
                (ok <==>
                   && Extends(o, old(pieces), old(tools))
                   && Affords(old(size), old(chunks), MissingChars(o, old(pieces), |old(tools)|),
                              MissingCount(o, old(pieces), |old(tools)|)))
      ensures ok ==> started && tools == o.calls && emitted == old(emitted) + events && SmallPieces(events)
      ensures ok ==> |old(tools)| <= |o.calls|
      ensures ok ==> Ids(output.items) == FinalOrder(old(Ids(output.items)), |old(tools)|, o)
      ensures ok ==> if o.content.Some? then Join(pieces.text) == o.content.value && parts.text.Some?
                     else pieces.text == old(pieces).text
      ensures ok ==> if o.reasoning.Some? then Join(pieces.reasoning) == o.reasoning.value && parts.reasoning.Some?
                     else pieces.reasoning == old(pieces).reasoning
    {
      hide Valid, Join, Renderable, Affords, PieceCount, CallChars, Missing, ReachText, TakeCalls, Rebuild, Begun, Ids,
           SmallPieces;
      ExtendsIs(o, pieces, tools);
      ghost var thinking, saying := Missing(o.reasoning, Join(pieces.reasoning)), Missing(o.content, Join(pieces.text));
      if tools <= o.calls {
        MissingNothing(o, |tools|);
        AffordsInTurn(size, chunks, thinking, PieceCount(thinking), saying, PieceCount(saying),
                      CallChars(o.calls[|tools|..]), |o.calls| - |tools|);
      }
      events := Begin();
      ghost var start, begun, history := emitted[..|old(emitted)|], events, emitted;
      ok, events := CatchUp(Reasoning, o.reasoning, events);
      LoggedSince(start, history, emitted, begun, events);
      if !ok { return; }
      ghost var reasoned := events;
      history := emitted;
      ok, events := CatchUp(Text, o.content, events);
      LoggedSince(start, history, emitted, reasoned, events);
      if !ok { return; }
      if !(tools <= o.calls) { return false, events; }
      ghost var said := events;
      history := emitted;
      ok, events := PushCalls(o, events);
      LoggedSince(start, history, emitted, said, events);
    }

    /** The next call of an outcome that passes the final checks is refused for its size only. */
    lemma AcceptsNext(o: Outcome, n: nat)
      requires Renderable(request, o) && n < |o.calls| && tools == o.calls[..n] && !done && finishReason.None?
      ensures Accepts(ToolChunk(o.calls[n])) <==>
              size + |o.calls[n].id| + |o.calls[n].name| + |o.calls[n].arguments| <= MAX_RESPONSE_CHARS
              && chunks < MAX_CHUNKS
    {
      hide CallAllowed;
      RenderableCall(request, o, n);
    }

    /** Pushes one call of the outcome and adds the returned events to the list. */
    method PushCall(call: ToolCall, events: seq<Event>) returns (ok: bool, grown: seq<Event>)
      requires Valid() && started && !done
      modifies this, output
      ensures Valid() && started && !done && finishReason == old(finishReason)
      ensures pieces == old(pieces) && parts == old(parts)
      ensures ok <==> old(Accepts(ToolChunk(call)))
      ensures (Kept(), ok) == TakeChunk(request, old(Kept()), ToolChunk(call))
      ensures |old(emitted)| <= |emitted| && emitted[..|old(emitted)|] == old(emitted)
      ensures ok ==> tools == old(tools) + [call]
      ensures ok ==> Ids(output.items) == old(Ids(output.items)) + [CallId(|old(tools)|)]
      ensures ok ==> size == old(size) + |call.id| + |call.name| + |call.arguments| <= MAX_RESPONSE_CHARS
      ensures ok ==> chunks == old(chunks) + 1 <= MAX_CHUNKS
      ensures ok ==> Logged(old(emitted), emitted, events, grown) && (SmallPieces(events) ==> SmallPieces(grown))
    {
      hide Valid, Join, Ids, Takes, TakeChunk;
      LoggedNothing(emitted, events);
      grown := events;
      var pushed := Push(ToolChunk(call));
      ok := pushed.Ok?;
      if ok {
        LoggedMore(old(emitted), old(emitted), emitted, events, grown, pushed.value);
        grown := grown + pushed.value;
      }
    }

    /** Pushes the outcome's calls that were not streamed. */
    method PushCalls(o: Outcome, events: seq<Event>) returns (ok: bool, grown: seq<Event>)
      requires Valid() && started && !done && finishReason.None? && tools <= o.calls
      modifies this, output
      ensures Renderable(request, o) || |old(tools)| == |o.calls| ==>
                (ok <==> Affords(old(size), old(chunks), CallChars(o.calls[|old(tools)|..]), |o.calls| - |old(tools)|))
      ensures ok ==> size == old(size) + CallChars(o.calls[|old(tools)|..])
      ensures ok ==> chunks == old(chunks) + |o.calls| - |old(tools)|
      ensures (Kept(), ok) == TakeCalls(request, old(Kept()), o.calls[|old(tools)|..])
      ensures Valid() && started && !done && finishReason.None?
      ensures |old(emitted)| <= |emitted| && emitted[..|old(emitted)|] == old(emitted)
      ensures pieces == old(pieces) && parts == old(parts)
      ensures ok ==> tools == o.calls
      ensures ok ==> Ids(output.items) == old(Ids(output.items)) + CallIds(|old(tools)|, |o.calls|)
      ensures ok ==> Logged(old(emitted), emitted, events, grown) && (SmallPieces(events) ==> SmallPieces(grown))
    {
      hide Valid, Join, Ids, CallChars, Renderable, Accepts, Logged, SmallPieces, TakeChunk, TakeCalls, Kept;
      LoggedNothing(emitted, events);
      grown := events;
      var calls := o.calls;
      assert CallIds(|tools|, |tools|) == [];
      ghost var ids := Ids(output.items);
      hide CallIds;
      for n := |tools| to |calls|
        invariant Valid() && started && !done && finishReason.None?
        invariant tools == calls[..n] && pieces == old(pieces) && parts == old(parts)
        invariant |old(tools)| <= n && Ids(output.items) == ids + CallIds(|old(tools)|, n)
        invariant Logged(old(emitted), emitted, events, grown) && (SmallPieces(events) ==> SmallPieces(grown))
        invariant TakeCalls(request, Kept(), calls[n..]) == TakeCalls(request, old(Kept()), calls[|old(tools)|..])
        invariant size + CallChars(calls[n..]) == old(size) + CallChars(calls[|old(tools)|..])
        invariant chunks == old(chunks) + n - |old(tools)|
        invariant n > |old(tools)| ==> size <= MAX_RESPONSE_CHARS && chunks <= MAX_CHUNKS
      {
        ghost var before, logged := emitted, grown;
        CallCharsNext(calls, n);
        CallIdsNext(|old(tools)|, n);
        TakeCallsNext(request, Kept(), calls, n);
        if Renderable(request, o) { AcceptsNext(o, n); }
        ok, grown := PushCall(calls[n], grown);
        LoggedBefore(old(emitted), before, emitted, events, logged);
        if !ok { return; }
        LoggedOn(old(emitted), before, emitted, events, logged, grown);
        Associate(ids, CallIds(|old(tools)|, n), CallId(n));
      }
      CallCharsEnd(calls);
      TakeNoCalls(request, Kept(), calls);
      LoggedBefore(old(emitted), emitted, emitted, events, grown);
      ok := true;
    }

    /** Closes every item and emits the terminal event. The response still refers to the live output list. */
    method Conclude(o: Outcome, response: Response, events: seq<Event>) returns (grown: seq<Event>)
      requires Valid() && started && !done && client.items == output.items && tools == o.calls
      requires response.output == output
      requires response.status == FinalStatus(o) && response.cancelled == (o.finish == Cancelled)
      modifies this`done, this`sequence, this`emitted, this`client, output
      ensures Valid() && done
      ensures Logged(old(emitted), emitted, events, grown) && (SmallPieces(events) ==> SmallPieces(grown))
      ensures grown != [] && client.items == output.items && AllHave(output.items, FinalStatus(o))
      ensures grown[|grown| - 1].body == (if o.finish == Cancelled then Failed else Ended(FinalStatus(o), output.items))
      ensures CallsOf(output.items) == o.calls && Ids(output.items) == old(Ids(output.items))
      ensures forall i :: 0 <= i < |output.items| && output.items[i].CallItem? ==> IsCall(output.items[i], o.calls)
      ensures TextsAre(output.items, Join(pieces.text), Join(pieces.reasoning))
      ensures forall kind :: parts.At(kind).Some? <==> HasKind(output.items, kind)
      ensures Kept() == old(Kept()).(done := true)
    {
      hide Rebuild, DeltaText, Chars, Fits, Join, CallsOf, TextsAre, Tidy, Settled, Begun;
      FitsTexts(output.items, pieces, parts, tools);
      FitsClosed(output.items, pieces, parts, tools, response.status);
      grown := CloseItems(response.status, events);
      FitsTexts(output.items, pieces, parts, tools);
      if response.cancelled {
        var failed := Fail();
        grown := grown + failed;
      } else {
        ComesNext(emitted, Ended(response.status, response.output.items));
        var last := Emit(Ended(response.status, response.output.items));
        grown := grown + [last];
        done := true;
      }
    }
  }
  // ---------------------------------------------------------------- whole streams

  function PieceOf(chunk: Chunk, kind: Kind): string {
    if chunk.DeltaChunk? && chunk.kind == kind then chunk.text else ""
  }

  /** The text of one kind an adapter streamed. */
  function Streamed(chunks: seq<Chunk>, kind: Kind): string {
    if chunks == [] then ""
    else
      Streamed(chunks[..|chunks| - 1], kind) + PieceOf(chunks[|chunks| - 1], kind)
  }

  /** The calls an adapter streamed. */
  function StreamedCalls(chunks: seq<Chunk>): seq<ToolCall> {
    if chunks == [] then []
    else
      var last := chunks[|chunks| - 1];
      StreamedCalls(chunks[..|chunks| - 1]) + (if last.ToolChunk? then [last.call] else [])
  }

  /** The order in which a chunk sequence opens items. */
  function StreamedOrder(chunks: seq<Chunk>): seq<ItemId> {
    if chunks == [] then []
    else
      var before := chunks[..|chunks| - 1];
      AfterChunk(StreamedOrder(before), |StreamedCalls(before)|, chunks[|chunks| - 1])
  }

  /** The characters a chunk sequence is billed, and its reservations. */
  function Spent(chunks: seq<Chunk>): nat {
    if chunks == [] then 0 else Spent(chunks[..|chunks| - 1]) + Cost(chunks[|chunks| - 1])
  }

  function Reserved(chunks: seq<Chunk>): nat {
    if chunks == [] then 0 else Reserved(chunks[..|chunks| - 1]) + Uses(chunks[|chunks| - 1])
  }

  /** The latest finish marker. */
  function Marked(chunks: seq<Chunk>): Option<FinishReason> {
    if chunks == [] then None
    else if chunks[|chunks| - 1].FinishChunk? then Some(chunks[|chunks| - 1].reason)
    else Marked(chunks[..|chunks| - 1])
  }

  /** Chunk `n` is taken after all the chunks before it were. */
  predicate Taken(request: Request, chunks: seq<Chunk>, n: nat)
    requires n < |chunks|
  {
    var before := chunks[..n];
    Takes(request, Marked(before), StreamedCalls(before), Spent(before), Reserved(before), chunks[n])
  }

  /** What the outcome still owes a client that has seen the streamed texts and calls is within the budget. */
  predicate Affordable(chunks: seq<Chunk>, o: Outcome) {
    var thinking := Missing(o.reasoning, Streamed(chunks, Reasoning));
    var saying := Missing(o.content, Streamed(chunks, Text));
    var sent := |StreamedCalls(chunks)|;
    sent <= |o.calls| ==>
      Affords(Spent(chunks), Reserved(chunks), thinking + saying + CallChars(o.calls[sent..]),
              PieceCount(thinking) + PieceCount(saying) + |o.calls| - sent)
  }

  /** The whole stream is taken: each chunk where it comes, and then the outcome. */
  ghost predicate Admitted(request: Request, responseId: string, chunks: seq<Chunk>, o: Outcome) {
    && (forall n :: 0 <= n < |chunks| ==> Taken(request, chunks, n))
    && !Contradicts(chunks, o)
    && o.requestId == responseId && o.modelEcho == request.model
    && (Marked(chunks).Some? ==> Marked(chunks).value == o.finish)
    && Renderable(request, o)
    && Affordable(chunks, o)
  }

  ghost predicate SmallChunks(chunks: seq<Chunk>) {
    forall i :: 0 <= i < |chunks| && chunks[i].DeltaChunk? ==> |chunks[i].text| <= MAX_DELTA
  }

  /** The kind's final text: the outcome's if it has one, else what was streamed. */
  function SettledText(chunks: seq<Chunk>, o: Outcome, kind: Kind): string {
    if FinalText(o, kind).Some? then FinalText(o, kind).value else Streamed(chunks, kind)
  }

  /** The complete output a stream must end with: order, identities, texts, calls and statuses. */
  ghost predicate Output(items: seq<Item>, chunks: seq<Chunk>, o: Outcome) {
    && |StreamedCalls(chunks)| <= |o.calls|
    && Ids(items) == FinalOrder(StreamedOrder(chunks), |StreamedCalls(chunks)|, o)
    && AllHave(items, if o.finish == Cancelled || o.finish == Length then Incomplete else Completed)
    && TextsAre(items, SettledText(chunks, o, Text), SettledText(chunks, o, Reasoning))
    && (forall i :: 0 <= i < |items| && items[i].CallItem? ==> IsCall(items[i], o.calls))
    && CallsOf(items) == o.calls
  }

  /** The streamed output conflicts with the outcome. */
  ghost predicate Contradicts(chunks: seq<Chunk>, o: Outcome) {
    || (o.content.Some? && !(Streamed(chunks, Text) <= o.content.value))
    || (o.reasoning.Some? && !(Streamed(chunks, Reasoning) <= o.reasoning.value))
    || !(StreamedCalls(chunks) <= o.calls)
  }

  /** What one more chunk adds. */
  lemma PushedPrefix(chunks: seq<Chunk>, n: nat)
    requires n < |chunks|
    ensures var before, after, chunk := chunks[..n], chunks[..n + 1], chunks[n];
            && Spent(after) == Spent(before) + Cost(chunk)
            && Reserved(after) == Reserved(before) + Uses(chunk)
            && Marked(after) == (if chunk.FinishChunk? then Some(chunk.reason) else Marked(before))
            && StreamedCalls(after) == StreamedCalls(before) + (if chunk.ToolChunk? then [chunk.call] else [])
            && StreamedOrder(after) == AfterChunk(StreamedOrder(before), |StreamedCalls(before)|, chunk)
            && Streamed(after, Text) == Streamed(before, Text) + PieceOf(chunk, Text)
            && Streamed(after, Reasoning) == Streamed(before, Reasoning) + PieceOf(chunk, Reasoning)
  {
    assert chunks[..n + 1][..n] == chunks[..n];
  }

  lemma NothingPushed()
    ensures Spent([]) == 0 && Reserved([]) == 0 && Marked([]) == None && StreamedCalls([]) == []
    ensures StreamedOrder([]) == [] && Streamed([], Text) == "" && Streamed([], Reasoning) == ""
  {
  }

  /**
    Streams `chunks` and finishes with `outcome`, returning all events. A client that folds them holds, at the
    terminal event, exactly the output of the terminal response, and that output is determined by what was
    streamed and the outcome, however the adapter cut its deltas.
   */
  method Stream(request: Request, responseId: string, chunks: seq<Chunk>, outcome: Outcome)
    returns (r: Result<seq<Event>, StreamError>)
    ensures r.Ok? <==> Admitted(request, responseId, chunks, outcome)
    ensures r.Ok? ==> Rebuild(r.value).Some? && r.value != [] && Rebuild(r.value).value.over
    ensures r.Ok? ==> Output(Rebuild(r.value).value.items, chunks, outcome)
    ensures r.Ok? ==> OPENING <= r.value
    ensures r.Ok? ==> forall i :: 0 <= i < |Rebuild(r.value).value.items| ==>
                        ClosedOnce(r.value, i, Rebuild(r.value).value.items[i])
    ensures r.Ok? ==>
              r.value[|r.value| - 1].body
              == if outcome.finish == Cancelled then Failed
                 else Ended(if outcome.finish == Length then Incomplete else Completed, Rebuild(r.value).value.items)
    ensures r.Ok? ==> DeltaText(r.value, Text) == SettledText(chunks, outcome, Text)
                      && DeltaText(r.value, Reasoning) == SettledText(chunks, outcome, Reasoning)
    ensures r.Ok? ==> Chars(r.value) <= MAX_RESPONSE_CHARS
    ensures r.Ok? && SmallChunks(chunks) ==> SmallPieces(r.value)
  {
    hide Rebuild, Step, DeltaText, Chars, Fits, Join, Ids, FinalOrder, CallsOf, AfterChunk, Renderable, CallAllowed,
         Takes,
         Affords, MissingChars, MissingCount, TextsAre, AllHave, Spent, Reserved, Marked, Streamed, StreamedCalls,
         StreamedOrder, PieceOf, Cost, Uses, ResponsesStreamEvents.Valid, ResponsesStreamEvents.OnlyUnrenderable,
         ResponsesStreamEvents.Kept, TakeChunk, Concluded, Opens, Tidy, Settled, Begun, ClosedOnce, Brings;
    var stream := new ResponsesStreamEvents(request, responseId);
    FreshIds(stream.output.items);
    FreshTexts();
    NothingPushed();
    var events := [];
    for n := 0 to |chunks|
      invariant fresh(stream) && fresh(stream.output) && stream.Valid() && !stream.done
      invariant stream.request == request && stream.responseId == responseId
      invariant stream.emitted == events
      invariant Follows(stream, chunks[..n])
      invariant SmallChunks(chunks) ==> SmallPieces(events)
      invariant forall i :: 0 <= i < n ==> Taken(request, chunks, i)
    {
      PushedPrefix(chunks, n);
      JoinedPiece(stream.pieces, chunks[n]);
      var pushed := stream.Push(chunks[n]);
      if pushed.Err? {
        assert !Taken(request, chunks, n);
        return Err(UnsupportedResponse);
      }
      events := events + pushed.value;
    }
    assert chunks[..|chunks|] == chunks;
    AffordableIs(stream, chunks, outcome);
    stream.Told();
    var finished := stream.Finish(Some(outcome));
    stream.Told();
    if finished.Err? { return finished; }
    stream.BegunIs();
    AllClosed(stream.emitted, FinalStatus(outcome));
    return Ok(events + finished.value);
  }

  /** In a stream that closed all its items, each of them was closed once. */
  lemma AllClosed(events: seq<Event>, status: Status)
    requires Rebuild(events).Some? && Tidy(events) && Settled(events)
    requires AllHave(Rebuild(events).value.items, status) && status != InProgress
    ensures forall i :: 0 <= i < |Rebuild(events).value.items| ==>
              ClosedOnce(events, i, Rebuild(events).value.items[i])
  {
    hide Rebuild, Tidy, Settled, ClosedOnce;
    forall i | 0 <= i < |Rebuild(events).value.items|
      ensures ClosedOnce(events, i, Rebuild(events).value.items[i])
    {
      ItemsCloseOnce(events, i);
    }
  }

  /** The encoder's records after these chunks, all taken. */
  ghost predicate Follows(stream: ResponsesStreamEvents, chunks: seq<Chunk>)
    reads stream, stream.output
  {
    && stream.tools == StreamedCalls(chunks)
    && Join(stream.pieces.text) == Streamed(chunks, Text)
    && Join(stream.pieces.reasoning) == Streamed(chunks, Reasoning)
    && Ids(stream.output.items) == StreamedOrder(chunks)
    && stream.size == Spent(chunks) && stream.chunks == Reserved(chunks) && stream.finishReason == Marked(chunks)
  }

  lemma JoinedPiece(pieces: Pieces, chunk: Chunk)
    ensures var after := if chunk.DeltaChunk? then pieces.Add(chunk.kind, chunk.text) else pieces;
            && Join(after.text) == Join(pieces.text) + PieceOf(chunk, Text)
            && Join(after.reasoning) == Join(pieces.reasoning) + PieceOf(chunk, Reasoning)
  {
    hide Join;
    if chunk.DeltaChunk? {
      JoinAppend(pieces.text, chunk.text);
      JoinAppend(pieces.reasoning, chunk.text);
    }
  }

  lemma AffordableIs(stream: ResponsesStreamEvents, chunks: seq<Chunk>, o: Outcome)
    requires Follows(stream, chunks)
    ensures stream.CanAfford(o) <==> Affordable(chunks, o)
  {
    hide Affords, PieceCount, CallChars, Missing, Join, Ids;
  }

  lemma FreshIds(items: seq<Item>)
    requires items == []
    ensures Ids(items) == []
  {
  }

  lemma {:induction false} FreshTexts()
    ensures DeltaText([], Text) == "" && DeltaText([], Reasoning) == "" && Join([]) == ""
  {
  }
  /** The specification of the output leaves no freedom. */
  lemma OutputIsDetermined(a: seq<Item>, b: seq<Item>, chunks: seq<Chunk>, o: Outcome)
    requires Output(a, chunks, o) && Output(b, chunks, o)
    ensures a == b
  {
    hide CallsOf, FinalOrder, StreamedOrder, Streamed;
    assert |a| == |Ids(a)| == |b|;
    forall i | 0 <= i < |a| ensures a[i] == b[i] {
      assert Ids(a)[i] == Ids(b)[i];
    }
  }

  /** Two ways of cutting the same deltas end in the same output. */
  lemma {:induction false} CutsDoNotMatter(a: seq<Item>, b: seq<Item>, one: seq<Chunk>, other: seq<Chunk>, o: Outcome)
    requires Output(a, one, o) && Output(b, other, o)
    requires StreamedOrder(one) == StreamedOrder(other) && StreamedCalls(one) == StreamedCalls(other)
    requires Streamed(one, Text) == Streamed(other, Text) && Streamed(one, Reasoning) == Streamed(other, Reasoning)
    ensures a == b
  {
    assert Output(b, one, o);
    OutputIsDetermined(a, b, one, o);
  }

  function PlainTexts(o: Outcome): seq<Item> {
    var status := FinalStatus(o);
    (if o.reasoning.Some? then [PartItem(PartId(Reasoning), status, Reasoning, [o.reasoning.value])] else [])
    + (if o.content.Some? then [PartItem(PartId(Text), status, Text, [o.content.value])] else [])
  }

  /** The output list of a response that was not streamed. */
  function PlainOutput(o: Outcome): seq<Item> {
    PlainTexts(o) + CallItems(o.calls, |o.calls|, FinalStatus(o))
  }

  function CallItems(calls: seq<ToolCall>, n: nat, status: Status): (items: seq<Item>)
    requires n <= |calls|
    ensures |items| == n
    ensures forall i :: 0 <= i < n ==> items[i] == CallItem(CallId(i), status, calls[i])
  {
    if n == 0 then [] else CallItems(calls, n - 1, status) + [CallItem(CallId(n - 1), status, calls[n - 1])]
  }

  lemma {:induction false} CallsOfPlain(texts: seq<Item>, calls: seq<ToolCall>, n: nat, status: Status)
    requires n <= |calls| && forall i :: 0 <= i < |texts| ==> texts[i].PartItem?
    ensures CallsOf(texts + CallItems(calls, n, status)) == calls[..n]
    decreases n, |texts|
  {
    var items := texts + CallItems(calls, n, status);
    if n > 0 {
      CallsOfPlain(texts, calls, n - 1, status);
      assert items[..|items| - 1] == texts + CallItems(calls, n - 1, status);
    } else if texts != [] {
      CallsOfPlain(texts[..|texts| - 1], calls, 0, status);
      assert items[..|items| - 1] == texts[..|texts| - 1] + CallItems(calls, 0, status);
    }
  }

  lemma IdsConcat(a: seq<Item>, b: seq<Item>)
    ensures Ids(a + b) == Ids(a) + Ids(b)
  {
  }

  lemma {:induction false} IdsOfCalls(calls: seq<ToolCall>, n: nat, status: Status)
    requires n <= |calls|
    ensures Ids(CallItems(calls, n, status)) == CallIds(0, n)
  {
    forall i | 0 <= i < n ensures Ids(CallItems(calls, n, status))[i] == CallIds(0, n)[i] { }
  }

  lemma IdsOfTexts(o: Outcome)
    ensures var reasoned := if o.reasoning.Some? then Opened([], PartId(Reasoning)) else [];
            Ids(PlainTexts(o)) == if o.content.Some? then Opened(reasoned, PartId(Text)) else reasoned
  {
    var status := FinalStatus(o);
    var reasoning :=
      if o.reasoning.Some? then [PartItem(PartId(Reasoning), status, Reasoning, [o.reasoning.value])] else [];
    var text := if o.content.Some? then [PartItem(PartId(Text), status, Text, [o.content.value])] else [];
    IdsConcat(reasoning, text);
    assert Ids(reasoning) == if o.reasoning.Some? then [PartId(Reasoning)] else [];
    assert Ids(text) == if o.content.Some? then [PartId(Text)] else [];
  }

  lemma PlainOrder(o: Outcome)
    ensures Ids(PlainOutput(o)) == FinalOrder([], 0, o)
  {
    hide Ids, CallIds, PlainTexts, Opened;
    IdsOfTexts(o);
    IdsOfCalls(o.calls, |o.calls|, FinalStatus(o));
    IdsConcat(PlainTexts(o), CallItems(o.calls, |o.calls|, FinalStatus(o)));
  }

  /** Streaming nothing before the end gives exactly the output of the response that is not streamed. */
  lemma UnstreamedOutputIsPlain(items: seq<Item>, o: Outcome)
    requires Output(items, [], o)
    ensures items == PlainOutput(o)
  {
    hide CallsOf, Ids, FinalOrder;
    PlainOrder(o);
    CallsOfPlain(PlainTexts(o), o.calls, |o.calls|, FinalStatus(o));
    OutputIsDetermined(items, PlainOutput(o), [], o);
  }
}
