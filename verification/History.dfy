/** Decoding of a Responses `input` list into grouped chat messages. */
module History {
  import opened Wrappers

  const MAX_MESSAGES := 1024
  const MAX_TEXT := 16_777_216
  const MAX_ARGUMENTS := 1_048_576
  const MAX_IDENTITY := 256
  const ROLES: set<string> := {"system", "developer", "user", "assistant"}

  /** One input item after its field-level checks. `UnsupportedItem` stands for an item those checks refuse. */
  datatype InputItem =
    | MessageItem(role: string, content: string, id: Option<string>)
    | CallItem(callId: string, name: string, arguments: string, id: Option<string>)
    | OutputItem(callId: string, output: string, id: Option<string>)
    | UnsupportedItem(id: Option<string>)

  datatype Input = PlainText(text: string) | ItemList(items: seq<InputItem>)

  datatype Call = Call(id: string, name: string, arguments: string)

  /** A grouped chat message. A missing `tool_calls` key is the empty sequence. */
  datatype ChatMessage = ChatMessage(
    role: string, content: Option<string>, toolCalls: seq<Call>, toolCallId: Option<string>)

  /** What one input item says, without its transport identity. */
  datatype Entry =
    | Said(role: string, content: string)
    | Called(call: Call)
    | Answered(callId: string, output: string)

  datatype InputError = InvalidInput

  // ---------------------------------------------------------------- the two sides of the round trip

  function EntryOf(item: InputItem): Entry {
    match item
    case MessageItem(role, content, _) => Said(role, content)
    case CallItem(callId, name, arguments, _) => Called(Call(callId, name, arguments))
    case OutputItem(callId, output, _) => Answered(callId, output)
    case UnsupportedItem(_) => Said("", "")
  }

  /** What the first `n` items say. */
  function Entries(items: seq<InputItem>, n: nat): (es: seq<Entry>)
    requires n <= |items|
  {
    if n == 0 then [] else Entries(items, n - 1) + [EntryOf(items[n - 1])]
  }

  function CallEntries(calls: seq<Call>): (es: seq<Entry>)
    ensures |es| == |calls|
  {
    seq(|calls|, i requires 0 <= i < |calls| => Called(calls[i]))
  }

  function FlattenOne(m: ChatMessage): seq<Entry> {
    if m.role == "tool" && m.toolCallId.Some? && m.content.Some? then [Answered(m.toolCallId.value, m.content.value)]
    else (if m.content.Some? then [Said(m.role, m.content.value)] else []) + CallEntries(m.toolCalls)
  }

  /** The flat list a grouped conversation stands for. */
  function Flatten(messages: seq<ChatMessage>): seq<Entry> {
    if messages == [] then [] else Flatten(messages[..|messages| - 1]) + FlattenOne(messages[|messages| - 1])
  }

  /** The shape the chat surface expects: calls only on assistant messages, and grouped as far as possible. */
  ghost predicate CanonicalMessage(m: ChatMessage) {
    if m.role == "tool" then m.toolCallId.Some? && m.content.Some? && m.toolCalls == []
    else
      && m.toolCallId.None?
      && (m.toolCalls != [] ==> m.role == "assistant")
      && (m.content.None? ==> m.role == "assistant" && m.toolCalls != [])
  }

  ghost predicate Canonical(messages: seq<ChatMessage>) {
    messages == [] ||
    var n := |messages| - 1;
    && CanonicalMessage(messages[n])
    && (messages[n].content.None? && n > 0 ==> messages[n - 1].role != "assistant")
    && Canonical(messages[..n])
  }

  // ---------------------------------------------------------------- which lists are complete histories

  predicate Identity(text: string) { 0 < |text| <= MAX_IDENTITY }

  predicate WellFormed(item: InputItem) {
    && (item.id.Some? ==> Identity(item.id.value))
    && match item
       case MessageItem(role, content, _) => role in ROLES && |content| <= MAX_TEXT
       case CallItem(callId, name, arguments, _) =>
         Identity(callId) && Identity(name) && 0 < |arguments| <= MAX_ARGUMENTS
       case OutputItem(callId, output, _) => Identity(callId) && |output| <= MAX_TEXT
       case UnsupportedItem(_) => false
  }

  /** The call at `i` is answered by the output at `j`, with no plain message between them. */
  ghost predicate AnsweredAt(items: seq<InputItem>, i: nat, j: nat)
    requires i < |items| && items[i].CallItem?
  {
    && i < j < |items|
    && items[j].OutputItem?
    && items[j].callId == items[i].callId
    && forall k :: i < k < j ==> !items[k].MessageItem?
  }

  ghost predicate AllCalled(items: seq<InputItem>) {
    forall j :: 0 <= j < |items| && items[j].OutputItem? ==>
      exists i :: 0 <= i < j && items[i].CallItem? && items[i].callId == items[j].callId
  }

  ghost predicate AllAnswered(items: seq<InputItem>) {
    forall i :: 0 <= i < |items| && items[i].CallItem? ==> exists j: nat :: AnsweredAt(items, i, j)
  }

  /** A history in which every call has its one answer in place and no identity repeats. */
  ghost predicate CompleteHistory(items: seq<InputItem>) {
    && 0 < |items| <= MAX_MESSAGES
    && (forall i :: 0 <= i < |items| ==> WellFormed(items[i]))
    && (forall i, j :: 0 <= i < j < |items| && items[i].CallItem? && items[j].CallItem? ==>
          items[i].callId != items[j].callId)
    && (forall i, j :: 0 <= i < j < |items| && items[i].OutputItem? && items[j].OutputItem? ==>
          items[i].callId != items[j].callId)
    && (forall i, j :: 0 <= i < j < |items| && items[i].id.Some? && items[j].id.Some? ==>
          items[i].id != items[j].id)
    && AllCalled(items) && AllAnswered(items)
  }

  // ---------------------------------------------------------------- the running form the decoder keeps

  /** The identities called, and those answered, among the first `n` items. */
  ghost function CallsBefore(items: seq<InputItem>, n: nat): set<string>
    requires n <= |items|
  {
    set i | 0 <= i < n && items[i].CallItem? :: items[i].callId
  }

  ghost function AnswersBefore(items: seq<InputItem>, n: nat): set<string>
    requires n <= |items|
  {
    set i | 0 <= i < n && items[i].OutputItem? :: items[i].callId
  }

  /** The concrete identities of the first `n` items, in order. */
  ghost function IdentitiesBefore(items: seq<InputItem>, n: nat): seq<string>
    requires n <= |items|
  {
    if n == 0 then []
    else IdentitiesBefore(items, n - 1) + (if items[n - 1].id.Some? then [items[n - 1].id.value] else [])
  }

  lemma {:induction false} IdentitiesBeforeHas(items: seq<InputItem>, n: nat, c: string)
    requires n <= |items|
    ensures c in IdentitiesBefore(items, n) <==> exists i :: 0 <= i < n && items[i].id == Some(c)
  {
    if n > 0 { IdentitiesBeforeHas(items, n - 1, c); }
  }

  /** The checks on one item, given what came before it. */
  predicate Accepts(calls: set<string>, answered: set<string>, identifiers: seq<string>, item: InputItem) {
    && WellFormed(item)
    && (item.id.Some? ==> item.id.value !in identifiers)
    && match item
       case MessageItem(_, _, _) => calls == answered
       case CallItem(callId, _, _, _) => callId !in calls
       case OutputItem(callId, _, _) => callId in calls && callId !in answered
       case UnsupportedItem(_) => false
  }

  ghost predicate Admits(items: seq<InputItem>, n: nat)
    requires n < |items|
  {
    Accepts(CallsBefore(items, n), AnswersBefore(items, n), IdentitiesBefore(items, n), items[n])
  }

  ghost predicate RunningChecks(items: seq<InputItem>) {
    && 0 < |items| <= MAX_MESSAGES
    && (forall k :: 0 <= k < |items| ==> Admits(items, k))
    && CallsBefore(items, |items|) == AnswersBefore(items, |items|)
  }

  /** The running form and the declarative form accept the same lists. */
  lemma RunningChecksAreComplete(items: seq<InputItem>)
    ensures CompleteHistory(items) <==> RunningChecks(items)
  {
    if RunningChecks(items) { RunningChecksSuffice(items); }
    if CompleteHistory(items) {
      forall k | 0 <= k < |items| ensures Admits(items, k) { CompleteHistoryAdmits(items, k); }
      CompleteHistoryCloses(items);
    }
  }

  lemma RunningChecksSuffice(items: seq<InputItem>)
    requires RunningChecks(items)
    ensures CompleteHistory(items)
  {
    forall i | 0 <= i < |items| ensures WellFormed(items[i]) { assert Admits(items, i); }
    forall i, j | 0 <= i < j < |items| && items[i].id.Some? && items[j].id.Some?
      ensures items[i].id != items[j].id
    {
      assert Admits(items, j);
      IdentitiesBeforeHas(items, j, items[j].id.value);
      assert items[i].id == Some(items[i].id.value);
    }
    forall i, j | 0 <= i < j < |items| && items[i].CallItem? && items[j].CallItem?
      ensures items[i].callId != items[j].callId
    {
      assert Admits(items, j);
    }
    forall i, j | 0 <= i < j < |items| && items[i].OutputItem? && items[j].OutputItem?
      ensures items[i].callId != items[j].callId
    {
      assert Admits(items, j);
    }
    forall j | 0 <= j < |items| && items[j].OutputItem?
      ensures exists i :: 0 <= i < j && items[i].CallItem? && items[i].callId == items[j].callId
    {
      assert Admits(items, j);
    }
    forall i | 0 <= i < |items| && items[i].CallItem? ensures exists j: nat :: AnsweredAt(items, i, j) {
      RunningChecksAnswer(items, i);
    }
  }

  lemma RunningChecksAnswer(items: seq<InputItem>, i: nat)
    requires RunningChecks(items) && i < |items| && items[i].CallItem?
    ensures exists j: nat :: AnsweredAt(items, i, j)
  {
    var c := items[i].callId;
    assert c in CallsBefore(items, |items|);
    var j: nat :| j < |items| && items[j].OutputItem? && items[j].callId == c;
    assert Admits(items, j);
    var i': nat :| i' < j && items[i'].CallItem? && items[i'].callId == c;
    assert Admits(items, if i < i' then i' else i);
    assert i' == i;
    forall k: nat | i < k < j ensures !items[k].MessageItem? {
      assert Admits(items, k);
      assert c in CallsBefore(items, k) && c !in AnswersBefore(items, k);
    }
    assert AnsweredAt(items, i, j);
  }

  lemma CompleteHistoryAdmits(items: seq<InputItem>, k: nat)
    requires CompleteHistory(items) && k < |items|
    ensures Admits(items, k)
  {
    hide IdentitiesBefore, CompleteHistory, AnsweredAt, WellFormed, CallsBefore, AnswersBefore;
    if items[k].MessageItem? { NothingOpenAt(items, k); }
    CallsAreNew(items, k);
    IdentityIsNew(items, k);
  }

  lemma {:induction false} IdentityIsNew(items: seq<InputItem>, k: nat)
    requires CompleteHistory(items) && k < |items|
    ensures WellFormed(items[k]) && (items[k].id.Some? ==> items[k].id.value !in IdentitiesBefore(items, k))
  {
    hide IdentitiesBefore, AnsweredAt, WellFormed;
    if items[k].id.Some? { IdentitiesBeforeHas(items, k, items[k].id.value); }
  }

  /** A call is new, and an output answers an earlier call for the first time. */
  lemma CallsAreNew(items: seq<InputItem>, k: nat)
    requires CompleteHistory(items) && k < |items|
    ensures items[k].CallItem? ==> items[k].callId !in CallsBefore(items, k)
    ensures items[k].OutputItem? ==>
              items[k].callId in CallsBefore(items, k) && items[k].callId !in AnswersBefore(items, k)
    ensures !items[k].UnsupportedItem?
  {
    hide AnsweredAt;
  }

  /** The call at `i` has its answer before a later plain message. */
  lemma ClosedBefore(items: seq<InputItem>, i: nat, k: nat) returns (j: nat)
    requires AllAnswered(items) && i < k < |items| && items[i].CallItem? && items[k].MessageItem?
    ensures j < k && items[j].OutputItem? && items[j].callId == items[i].callId
  {
    j :| AnsweredAt(items, i, j);
  }

  lemma CallOf(items: seq<InputItem>, j: nat) returns (i: nat)
    requires AllCalled(items) && j < |items| && items[j].OutputItem?
    ensures i < j && items[i].CallItem? && items[i].callId == items[j].callId
  {
    i :| i < j && items[i].CallItem? && items[i].callId == items[j].callId;
  }

  /** Before a plain message every call has been answered. */
  lemma NothingOpenAt(items: seq<InputItem>, k: nat)
    requires CompleteHistory(items) && k < |items| && items[k].MessageItem?
    ensures CallsBefore(items, k) == AnswersBefore(items, k)
  {
    hide WellFormed, AnsweredAt;
    forall c | c in CallsBefore(items, k) ensures c in AnswersBefore(items, k) {
      var i: nat :| i < k && items[i].CallItem? && items[i].callId == c;
      var j := ClosedBefore(items, i, k);
    }
    forall c | c in AnswersBefore(items, k) ensures c in CallsBefore(items, k) {
      var j: nat :| j < k && items[j].OutputItem? && items[j].callId == c;
      var i := CallOf(items, j);
    }
  }

  lemma CompleteHistoryCloses(items: seq<InputItem>)
    requires CompleteHistory(items)
    ensures CallsBefore(items, |items|) == AnswersBefore(items, |items|)
  {
    var n := |items|;
    forall c | c in CallsBefore(items, n) ensures c in AnswersBefore(items, n) {
      var i: nat :| i < n && items[i].CallItem? && items[i].callId == c;
      var j: nat :| AnsweredAt(items, i, j);
      assert items[j].OutputItem? && items[j].callId == c;
    }
    forall c | c in AnswersBefore(items, n) ensures c in CallsBefore(items, n) {
      var j: nat :| j < n && items[j].OutputItem? && items[j].callId == c;
    }
  }

  // ---------------------------------------------------------------- the decoder

  lemma {:induction false} FlattenAppend(messages: seq<ChatMessage>, m: ChatMessage)
    ensures Flatten(messages + [m]) == Flatten(messages) + FlattenOne(m)
    ensures Canonical(messages + [m]) <==>
              Canonical(messages) && CanonicalMessage(m)
              && (m.content.None? && messages != [] ==> messages[|messages| - 1].role != "assistant")
  {
    assert (messages + [m])[..|messages|] == messages;
  }

  /** Adding a call to the last assistant message adds it at the end of the flat list. */
  lemma {:induction false} FlattenAttach(messages: seq<ChatMessage>, call: Call)
    requires Canonical(messages) && messages != [] && messages[|messages| - 1].role == "assistant"
    ensures Flatten(PutCall(messages, call)) == Flatten(messages) + [Called(call)]
    ensures Canonical(PutCall(messages, call))
  {
    var n := |messages| - 1;
    var last := messages[n];
    var attached := last.(toolCalls := last.toolCalls + [call]);
    assert PutCall(messages, call)[..n] == messages[..n];
    assert CallEntries(attached.toolCalls) == CallEntries(last.toolCalls) + [Called(call)];
    assert FlattenOne(attached) == FlattenOne(last) + [Called(call)];
  }

  /** Where a function call goes: on the open assistant message if there is one, else on a new one. */
  function PutCall(messages: seq<ChatMessage>, call: Call): seq<ChatMessage> {
    if messages != [] && messages[|messages| - 1].role == "assistant"
    then messages[|messages| - 1 := messages[|messages| - 1].(toolCalls := messages[|messages| - 1].toolCalls + [call])]
    else messages + [ChatMessage("assistant", None, [call], None)]
  }

  lemma {:induction false} FlattenPutCall(messages: seq<ChatMessage>, call: Call)
    requires Canonical(messages)
    ensures Flatten(PutCall(messages, call)) == Flatten(messages) + [Called(call)]
    ensures Canonical(PutCall(messages, call)) && PutCall(messages, call) != []
  {
    if messages != [] && messages[|messages| - 1].role == "assistant" {
      FlattenAttach(messages, call);
    } else {
      var starter := ChatMessage("assistant", None, [call], None);
      FlattenAppend(messages, starter);
      assert FlattenOne(starter) == [Called(call)];
    }
  }

  /** Folds the input into chat messages and the concrete identities, or refuses it. */
  method Messages(input: Input) returns (r: Result<(seq<ChatMessage>, seq<string>), InputError>)
    ensures input.PlainText? ==> (r.Ok? <==> 0 < |input.text| <= MAX_TEXT)
    ensures input.PlainText? && r.Ok? ==> Flatten(r.value.0) == [Said("user", input.text)] && r.value.1 == []
    ensures input.ItemList? ==> (r.Ok? <==> CompleteHistory(input.items))
    ensures input.ItemList? && r.Ok? ==>
              Flatten(r.value.0) == Entries(input.items, |input.items|)
              && r.value.1 == IdentitiesBefore(input.items, |input.items|)
    ensures r.Ok? ==> Canonical(r.value.0)
  {
    if input.PlainText? {
      if !(0 < |input.text| <= MAX_TEXT) { return Err(InvalidInput); }
      var message := ChatMessage("user", Some(input.text), [], None);
      FlattenAppend([], message);
      assert [] + [message] == [message];
      return Ok(([message], []));
    }
    r := ItemMessages(input.items);
    RunningChecksAreComplete(input.items);
  }

  /** Adds one accepted item to the grouped conversation. */
  method Place(messages: seq<ChatMessage>, item: InputItem) returns (grown: seq<ChatMessage>)
    requires Canonical(messages) && WellFormed(item)
    ensures Canonical(grown) && grown != []
    ensures Flatten(grown) == Flatten(messages) + [EntryOf(item)]
  {
    match item
    case MessageItem(role, content, _) =>
      var message := ChatMessage(role, Some(content), [], None);
      FlattenAppend(messages, message);
      grown := messages + [message];
    case CallItem(callId, name, arguments, _) =>
      var call := Call(callId, name, arguments);
      FlattenPutCall(messages, call);
      if messages == [] || messages[|messages| - 1].role != "assistant" {
        grown := messages + [ChatMessage("assistant", None, [call], None)];
      } else {
        var previous := messages[|messages| - 1];
        grown := messages[|messages| - 1 := previous.(toolCalls := previous.toolCalls + [call])];
      }
    case OutputItem(callId, output, _) =>
      var result := ChatMessage("tool", Some(output), [], Some(callId));
      FlattenAppend(messages, result);
      grown := messages + [result];
  }

  lemma {:induction false} BeforeNext(items: seq<InputItem>, n: nat)
    requires n < |items|
    ensures CallsBefore(items, n + 1) == CallsBefore(items, n) + (if items[n].CallItem? then {items[n].callId} else {})
    ensures AnswersBefore(items, n + 1)
            == AnswersBefore(items, n) + (if items[n].OutputItem? then {items[n].callId} else {})
    ensures IdentitiesBefore(items, n + 1)
            == IdentitiesBefore(items, n) + (if items[n].id.Some? then [items[n].id.value] else [])
    ensures Entries(items, n + 1) == Entries(items, n) + [EntryOf(items[n])]
    ensures Admits(items, n) <==>
            Accepts(CallsBefore(items, n), AnswersBefore(items, n), IdentitiesBefore(items, n), items[n])
  {
    hide Accepts;
  }

  lemma {:induction false} BeforeAll(items: seq<InputItem>)
    ensures CallsBefore(items, 0) == {} && AnswersBefore(items, 0) == {} && IdentitiesBefore(items, 0) == []
    ensures Entries(items, 0) == [] && Flatten([]) == [] && Canonical([])
  {
  }

  lemma AcceptedIsWellFormed(
    calls: set<string>, answered: set<string>, identifiers: seq<string>, item: InputItem)
    requires Accepts(calls, answered, identifiers, item)
    ensures WellFormed(item)
  {
  }

  /** The loop over a list of items. */
  method ItemMessages(items: seq<InputItem>) returns (r: Result<(seq<ChatMessage>, seq<string>), InputError>)
    ensures r.Ok? <==> RunningChecks(items)
    ensures r.Ok? ==>
              Flatten(r.value.0) == Entries(items, |items|) && r.value.1 == IdentitiesBefore(items, |items|)
    ensures r.Ok? ==> Canonical(r.value.0)
  {
    hide Flatten, Canonical, Entries, EntryOf, CallsBefore, AnswersBefore, IdentitiesBefore, Admits, Accepts,
         WellFormed;
    if items == [] || |items| > MAX_MESSAGES { return Err(InvalidInput); }
    BeforeAll(items);
    var messages: seq<ChatMessage> := [];
    var identifiers: seq<string> := [];
    var calls: set<string>, answered: set<string> := {}, {};
    for n := 0 to |items|
      invariant forall k :: 0 <= k < n ==> Admits(items, k)
      invariant calls == CallsBefore(items, n) && answered == AnswersBefore(items, n)
      invariant identifiers == IdentitiesBefore(items, n)
      invariant Flatten(messages) == Entries(items, n)
      invariant Canonical(messages) && (n > 0 ==> messages != [])
    {
      var item := items[n];
      BeforeNext(items, n);
      if !Accepts(calls, answered, identifiers, item) {
        assert !Admits(items, n);
        return Err(InvalidInput);
      }
      AcceptedIsWellFormed(calls, answered, identifiers, item);
      if item.CallItem? { calls := calls + {item.callId}; }
      if item.OutputItem? { answered := answered + {item.callId}; }
      if item.id.Some? { identifiers := identifiers + [item.id.value]; }
      messages := Place(messages, item);
    }
    if messages == [] || calls != answered { return Err(InvalidInput); }
    return Ok((messages, identifiers));
  }

  // ---------------------------------------------------------------- grouping is forced

  /** The last flat entry of a conversation that ends in `last`. */
  ghost function LastEntry(last: ChatMessage): Entry
    requires CanonicalMessage(last)
  {
    if last.role == "tool" then Answered(last.toolCallId.value, last.content.value)
    else if last.toolCalls == [] then Said(last.role, last.content.value)
    else Called(last.toolCalls[|last.toolCalls| - 1])
  }

  /** A canonical conversation without its last flat entry. */
  ghost function DropLast(messages: seq<ChatMessage>): (shorter: seq<ChatMessage>)
    requires Canonical(messages) && messages != []
    ensures Canonical(shorter)
  {
    var n := |messages| - 1;
    var last := messages[n];
    if |last.toolCalls| > 1 || (last.toolCalls != [] && last.content.Some?) then
      var cut := last.(toolCalls := last.toolCalls[..|last.toolCalls| - 1]);
      assert messages[n := cut][..n] == messages[..n];
      messages[n := cut]
    else messages[..n]
  }

  /** A conversation is what its shorter form becomes when the last entry is put back. */
  lemma {:induction false} RestoreLast(messages: seq<ChatMessage>)
    requires Canonical(messages) && messages != []
    ensures
      var last := messages[|messages| - 1];
      messages == if last.toolCalls == [] then DropLast(messages) + [last]
                  else PutCall(DropLast(messages), last.toolCalls[|last.toolCalls| - 1])
  {
    var n := |messages| - 1;
    var last := messages[n];
    if last.toolCalls != [] {
      var calls := last.toolCalls;
      assert calls == calls[..|calls| - 1] + [calls[|calls| - 1]];
    }
  }

  lemma {:induction false} FlattenDropLast(messages: seq<ChatMessage>)
    requires Canonical(messages) && messages != []
    ensures Flatten(messages) == Flatten(DropLast(messages)) + [LastEntry(messages[|messages| - 1])]
  {
    RestoreLast(messages);
    var last := messages[|messages| - 1];
    if last.toolCalls == [] {
      FlattenAppend(DropLast(messages), last);
      assert CallEntries([]) == [];
    } else {
      FlattenPutCall(DropLast(messages), last.toolCalls[|last.toolCalls| - 1]);
    }
  }

  /** Two canonical conversations with one flat list are one conversation, so decoding loses nothing. */
  lemma {:induction false} GroupingIsUnique(a: seq<ChatMessage>, b: seq<ChatMessage>)
    requires Canonical(a) && Canonical(b) && Flatten(a) == Flatten(b)
    ensures a == b
    decreases |Flatten(a)|
  {
    if a != [] { FlattenDropLast(a); RestoreLast(a); }
    if b != [] { FlattenDropLast(b); RestoreLast(b); }
    if a != [] && b != [] {
      var fa, fb := Flatten(DropLast(a)), Flatten(DropLast(b));
      assert fa == Flatten(a)[..|fa|] && fb == Flatten(b)[..|fb|];
      assert LastEntry(a[|a| - 1]) == Flatten(a)[|fa|] == LastEntry(b[|b| - 1]);
      GroupingIsUnique(DropLast(a), DropLast(b));
    }
  }

  /** In an accepted history every call has exactly one answer, after it and before any later plain message. */
  lemma EveryCallAnsweredOnce(items: seq<InputItem>, i: nat)
    requires CompleteHistory(items) && i < |items| && items[i].CallItem?
    ensures exists j: nat :: AnsweredAt(items, i, j)
    ensures forall j: nat, k: nat ::
              AnsweredAt(items, i, j) && 0 <= k < |items| && items[k].OutputItem? && items[k].callId == items[i].callId
              ==> k == j
    ensures forall j: nat, m: nat :: AnsweredAt(items, i, j) && i < m < |items| && items[m].MessageItem? ==> j < m
  {
    forall j: nat, k: nat |
      AnsweredAt(items, i, j) && 0 <= k < |items| && items[k].OutputItem? && items[k].callId == items[i].callId
      ensures k == j
    {
      assert items[j].OutputItem? && items[j].callId == items[k].callId;
    }
  }

  // ---------------------------------------------------------------- writing a conversation as items

  /** A flat entry as an item without an identity. */
  function ItemOf(e: Entry): InputItem {
    match e
    case Said(role, content) => MessageItem(role, content, None)
    case Called(call) => CallItem(call.id, call.name, call.arguments, None)
    case Answered(callId, output) => OutputItem(callId, output, None)
  }

  function ItemsOf(es: seq<Entry>): (items: seq<InputItem>)
    ensures |items| == |es|
  {
    seq(|es|, i requires 0 <= i < |es| => ItemOf(es[i]))
  }

  lemma {:induction false} EntriesOfItems(es: seq<Entry>, n: nat)
    requires n <= |es|
    ensures Entries(ItemsOf(es), n) == es[..n] && IdentitiesBefore(ItemsOf(es), n) == []
  {
    if n > 0 {
      EntriesOfItems(es, n - 1);
      assert es[..n] == es[..n - 1] + [es[n - 1]];
    }
  }

  /** The sizes and roles the gateway takes. */
  predicate InBounds(e: Entry) {
    match e
    case Said(role, content) =>
      (role == "system" || role == "developer" || role == "user" || role == "assistant") && |content| <= 16_777_216
    case Called(call) => 1 <= |call.id| <= 256 && 1 <= |call.name| <= 256 && 1 <= |call.arguments| <= 1_048_576
    case Answered(callId, output) => 1 <= |callId| <= 256 && |output| <= 16_777_216
  }

  /** The one answer to a call: later, with nothing said in between. */
  ghost predicate Answers(es: seq<Entry>, i: nat, j: nat)
    requires i < |es| && es[i].Called?
  {
    && i < j < |es| && es[j].Answered? && es[j].callId == es[i].call.id
    && (forall k :: 0 <= k < |es| && es[k].Answered? && es[k].callId == es[i].call.id ==> k == j)
    && forall k :: i < k < j ==> !es[k].Said?
  }

  /** Calls and answers are in one-to-one correspondence, each answer in place. */
  ghost predicate Paired(es: seq<Entry>) {
    && (forall i :: 0 <= i < |es| && es[i].Called? ==> exists j: nat :: Answers(es, i, j))
    && (forall j :: 0 <= j < |es| && es[j].Answered? ==>
          exists i :: 0 <= i < j && es[i].Called? && es[i].call.id == es[j].callId)
    && (forall i, k :: 0 <= i < k < |es| && es[i].Called? && es[k].Called? ==> es[i].call.id != es[k].call.id)
  }

  /** A flat conversation can be sent exactly if it is not too long, in bounds, and its calls and answers pair up. */
  lemma SendableIff(es: seq<Entry>)
    ensures CompleteHistory(ItemsOf(es)) <==>
            1 <= |es| <= 1024 && (forall i :: 0 <= i < |es| ==> InBounds(es[i])) && Paired(es)
  {
    hide AnsweredAt, Answers, WellFormed, InBounds;
    var items := ItemsOf(es);
    forall i | 0 <= i < |es| ensures WellFormed(items[i]) <==> InBounds(es[i]) { BoundsAre(es[i]); }
    if CompleteHistory(items) {
      forall i | 0 <= i < |es| && es[i].Called? ensures exists j: nat :: Answers(es, i, j) {
        assert items[i].CallItem?;
        EveryCallAnsweredOnce(items, i);
        var j: nat :| AnsweredAt(items, i, j);
        AnswerIs(es, i, j);
      }
    }
    if Paired(es) {
      forall i | 0 <= i < |items| && items[i].CallItem? ensures exists j: nat :: AnsweredAt(items, i, j) {
        var j: nat :| Answers(es, i, j);
        AnswerIs(es, i, j);
      }
      forall i, j | 0 <= i < j < |items| && items[i].OutputItem? && items[j].OutputItem?
        ensures items[i].callId != items[j].callId
      {
        AnsweredTwice(es, i, j);
      }
    }
  }

  lemma BoundsAre(e: Entry)
    ensures WellFormed(ItemOf(e)) <==> InBounds(e)
  {
  }

  lemma AnswerIs(es: seq<Entry>, i: nat, j: nat)
    requires i < |es| && es[i].Called?
    ensures Answers(es, i, j) ==> AnsweredAt(ItemsOf(es), i, j)
    ensures AnsweredAt(ItemsOf(es), i, j) && CompleteHistory(ItemsOf(es)) ==> Answers(es, i, j)
  {
    var items := ItemsOf(es);
    if AnsweredAt(items, i, j) && CompleteHistory(items) {
      EveryCallAnsweredOnce(items, i);
      assert forall k :: 0 <= k < |es| ==> (items[k].OutputItem? <==> es[k].Answered?);
      assert forall k :: 0 <= k < |es| ==> (items[k].MessageItem? <==> es[k].Said?);
    }
  }

  lemma AnsweredTwice(es: seq<Entry>, i: nat, j: nat)
    requires Paired(es) && i < j < |es| && es[i].Answered? && es[j].Answered?
    ensures es[i].callId != es[j].callId
  {
    var c :| 0 <= c < i && es[c].Called? && es[c].call.id == es[i].callId;
    var k: nat :| Answers(es, c, k);
    assert i == k;
  }

  /** A grouped conversation written as items and read again is the same conversation, whenever it can be sent. */
  method SendAndReceive(messages: seq<ChatMessage>) returns (r: Result<(seq<ChatMessage>, seq<string>), InputError>)
    requires Canonical(messages)
    ensures r.Ok? <==>
            var es := Flatten(messages);
            1 <= |es| <= 1024 && (forall i :: 0 <= i < |es| ==> InBounds(es[i])) && Paired(es)
    ensures r.Ok? ==> r.value == (messages, [])
  {
    hide Flatten, Canonical, CompleteHistory, Paired, InBounds;
    var es := Flatten(messages);
    r := Messages(ItemList(ItemsOf(es)));
    SendableIff(es);
    EntriesOfItems(es, |es|);
    assert es[..|es|] == es;
    if r.Ok? { GroupingIsUnique(r.value.0, messages); }
  }
}
