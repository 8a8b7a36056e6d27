/** The durable journal of producer events: bounded retention, epochs, positions and cursor replay. */
module Journal {
  import opened Wrappers

  const EVENT_LIMIT := 256
  const EVENT_BYTES := 16 * 1024 * 1024
  const RECORD_BYTES := 4 * 1024 * 1024

  /** A serialized document: its timestamp-independent content, its observation instants and its size. */
  datatype Payload<K> = Payload(content: K, instants: nat, bytes: nat)

  datatype Event<K> = Event(sequence: nat, epoch: nat, payload: Payload<K>)

  /** Why a cursor cannot be followed. */
  datatype Resync = EpochMismatch | CursorBeforeEpoch | CursorFuture | CursorExpired | HistoryGap

  /** Why a read is refused outright. */
  datatype Failure = Superseded | TooLarge | Unavailable | Faulted | Malformed

  // ---------------------------------------------------------------- retention

  function Bytes<K>(events: seq<Event<K>>): nat {
    if events == [] then 0 else events[0].payload.bytes + Bytes(events[1..])
  }

  predicate WithinBounds<K>(events: seq<Event<K>>) { |events| <= EVENT_LIMIT && Bytes(events) <= EVENT_BYTES }

  /** Drops the oldest events until the bounds hold. */
  function Trimmed<K>(events: seq<Event<K>>): seq<Event<K>> {
    if WithinBounds(events) || events == [] then events else Trimmed(events[1..])
  }

  /** The oldest position a cursor can still be followed from. */
  function Floor<K>(log: seq<Event<K>>): nat {
    TrimmedIsLongest(log, 0);
    |log| - |Trimmed(log)|
  }

  lemma {:induction false} BytesShrink<K>(events: seq<Event<K>>, n: nat)
    requires n <= |events|
    ensures Bytes(events[n..]) <= Bytes(events)
  {
    if n > 0 {
      BytesShrink(events[1..], n - 1);
      assert events[1..][n - 1..] == events[n..];
    } else {
      assert events[0..] == events;
    }
  }

  /** What is retained is the longest suffix within the bounds. */
  lemma {:induction false} TrimmedIsLongest<K>(events: seq<Event<K>>, n: nat)
    requires n <= |events|
    ensures WithinBounds(events[n..]) <==> |events| - n <= |Trimmed(events)|
    ensures |Trimmed(events)| <= |events| && Trimmed(events) == events[|events| - |Trimmed(events)|..]
  {
    if WithinBounds(events) {
      BytesShrink(events, n);
      assert events[0..] == events;
    } else if n == 0 {
      assert events[0..] == events;
      TrimmedIsLongest(events[1..], 0);
    } else {
      TrimmedIsLongest(events[1..], n - 1);
      assert events[1..][n - 1..] == events[n..];
    }
    if !WithinBounds(events) {
      var kept := |Trimmed(events)|;
      assert events[1..][|events| - 1 - kept..] == events[|events| - kept..];
    } else {
      assert events[0..] == events;
    }
  }

  /** Trimming as events arrive retains what trimming everything at once would. */
  lemma {:induction false} TrimmedGrows<K>(events: seq<Event<K>>, e: Event<K>)
    ensures Trimmed(events + [e]) == Trimmed(Trimmed(events) + [e])
  {
    if !WithinBounds(events) && events != [] {
      var all := events + [e];
      assert all[1..] == events[1..] + [e];
      TrimmedGrows(events[1..], e);
      BytesAppend(events, e);
    }
  }

  lemma {:induction false} BytesAppend<K>(events: seq<Event<K>>, e: Event<K>)
    ensures Bytes(events + [e]) == Bytes(events) + e.payload.bytes
  {
    if events == [] {
      assert (events + [e])[1..] == [];
    } else {
      BytesAppend(events[1..], e);
      assert (events + [e])[1..] == events[1..] + [e];
    }
  }

  lemma {:induction false} NewestIsKept<K>(events: seq<Event<K>>)
    requires events != [] && events[|events| - 1].payload.bytes <= RECORD_BYTES
    ensures Trimmed(events) != []
  {
    var n := |events| - 1;
    var last := events[n..];
    assert last == [events[n]] && last[1..] == [];
    assert Bytes(last) == events[n].payload.bytes;
    assert WithinBounds(last);
    TrimmedIsLongest(events, n);
  }

  // ---------------------------------------------------------------- the store

  lemma SuffixAdded<T>(s: seq<T>, from: nat, x: T)
    requires from <= |s|
    ensures (s + [x])[from..] == s[from..] + [x]
  {
  }

  class ProducerStore<K(==)> {
    var epoch: nat
    var sequence: nat
    var epochStart: nat
    var floor: nat
    var events: seq<Event<K>>
    /** Everything ever appended. */
    ghost var log: seq<Event<K>>

    ghost predicate Valid()
      reads this
    {
      && |log| == sequence && epochStart <= sequence && floor <= sequence
      && (forall i :: 0 <= i < |log| ==> log[i].sequence == i + 1 && log[i].payload.bytes <= RECORD_BYTES)
      && (forall i :: epochStart <= i < |log| ==> log[i].epoch == epoch)
      && events == log[floor..] && events == Trimmed(log)
    }

    constructor (epoch: nat)
      ensures Valid() && log == [] && sequence == 0 && this.epoch == epoch
    {
      this.epoch := epoch;
      sequence, epochStart, floor, events, log := 0, 0, 0, [], [];
    }

    /** A new process fences earlier ones; what is retained stays. The epoch is random, so it is new. */
    method StartEpoch(newEpoch: nat)
      requires Valid() && forall i :: 0 <= i < |log| ==> log[i].epoch != newEpoch
      modifies this`epoch, this`epochStart
      ensures Valid() && epoch == newEpoch && epochStart == sequence
    {
      epoch, epochStart := newEpoch, sequence;
    }

    method CheckPosition(at: nat, position: nat, up: bool) returns (r: Result<(), Failure>)
      ensures r.Ok? <==> up && epoch == at && sequence == position
    {
      if !up { return Err(Unavailable); }
      if epoch != at || sequence != position { return Err(Superseded); }
      return Ok(());
    }

    /** One transaction: all of it happens, or nothing does. */
    method Append(at: nat, payload: Payload<K>, up: bool) returns (r: Result<nat, Failure>)
      requires Valid()
      modifies this`sequence, this`floor, this`events, this`log
      ensures Valid()
      ensures r.Ok? <==> payload.bytes <= RECORD_BYTES && up && epoch == at
      ensures r.Ok? ==> r.value == sequence && log == old(log) + [Event(old(sequence) + 1, at, payload)]
      ensures r.Err? ==>
                log == old(log) && sequence == old(sequence) && floor == old(floor) && events == old(events)
    {
      if payload.bytes > RECORD_BYTES { return Err(TooLarge); }
      if !up { return Err(Unavailable); }
      if epoch != at { return Err(Superseded); }
      hide Trimmed, WithinBounds, Bytes;
      var e := Event(sequence + 1, at, payload);
      TrimmedGrows(log, e);
      NewestIsKept(log + [e]);
      SuffixAdded(log, floor, e);
      sequence := sequence + 1;
      events := events + [e];
      log := log + [e];
      DropOldest();
      r := Ok(sequence);
    }

    /** Deletes the oldest rows until both bounds hold. */
    method DropOldest()
      requires floor <= |log| && events == log[floor..] && Trimmed(events) == Trimmed(log)
      modifies this`floor, this`events
      ensures floor <= |log| && events == log[floor..] && events == Trimmed(log)
    {
      while |events| > EVENT_LIMIT || Bytes(events) > EVENT_BYTES
        invariant floor <= |log| && events == log[floor..] && Trimmed(events) == Trimmed(log)
        decreases |events|
      {
        assert Trimmed(events) == Trimmed(events[1..]);
        assert log[floor..][1..] == log[floor + 1..];
        floor := floor + 1;
        events := events[1..];
      }
    }

    /** The retained events after a position, or the reason why they cannot be given. */
    method Read(at: nat, after: nat, formed: bool, ownerEpoch: nat, ownerSequence: nat, up: bool)
      returns (r: Result<(nat, seq<Event<K>>, Option<Resync>), Failure>)
      requires Valid()
      ensures r.Err? <==> !formed || !up || epoch != ownerEpoch || sequence != ownerSequence
      ensures r.Ok? ==>
                && r.value.0 == sequence
                && (r.value.2.None? <==> at == epoch && epochStart <= after <= sequence && floor <= after)
                && r.value.2 != Some(HistoryGap)
                && (r.value.2.None? ==> r.value.1 == log[after..] && |r.value.1| == sequence - after)
                && (r.value.2.Some? ==> r.value.1 == [])
                && (r.value.2 == Some(EpochMismatch) <==> at != epoch)
                && (r.value.2 == Some(CursorFuture) <==> at == epoch && after > sequence)
                && (r.value.2 == Some(CursorBeforeEpoch) <==> at == epoch && after < epochStart)
                && (r.value.2 == Some(CursorExpired) <==>
                      at == epoch && epochStart <= after <= sequence && after < floor)
    {
      if !formed { return Err(Malformed); }
      if !up { return Err(Unavailable); }
      if epoch != ownerEpoch || sequence != ownerSequence { return Err(Superseded); }
      if epoch != at { return Ok((sequence, [], Some(EpochMismatch))); }
      if after < epochStart || after > sequence {
        return Ok((sequence, [], Some(if after < epochStart then CursorBeforeEpoch else CursorFuture)));
      }
      if after < floor { return Ok((sequence, [], Some(CursorExpired))); }
      var rows := Select(at, after);
      RowsAreContiguous(after);
      if |rows| != sequence - after || exists i :: 0 <= i < |rows| && rows[i].sequence != after + i + 1 {
        return Ok((sequence, [], Some(HistoryGap)));
      }
      return Ok((sequence, rows, None));
    }

    /** The rows of an epoch past a position, in order. */
    function Select(at: nat, after: nat): (rows: seq<Event<K>>)
      reads this
    {
      Selected(events, at, after)
    }

    lemma FloorIs()
      requires Valid()
      ensures floor == Floor(log)
    {
      hide Trimmed;
    }

    lemma RowsAreContiguous(after: nat)
      requires Valid() && epochStart <= after <= sequence && floor <= after
      ensures Select(epoch, after) == log[after..]
      ensures forall i :: 0 <= i < |log[after..]| ==> log[after..][i].sequence == after + i + 1
    {
      hide Trimmed, Selected;
      SelectedIs(events, epoch, after, floor);
      assert events[after - floor..] == log[after..];
    }
  }

  function Selected<K>(events: seq<Event<K>>, at: nat, after: nat): seq<Event<K>> {
    if events == [] then []
    else (if events[0].epoch == at && events[0].sequence > after then [events[0]] else [])
         + Selected(events[1..], at, after)
  }

  lemma {:induction false} SelectedIs<K>(events: seq<Event<K>>, at: nat, after: nat, floor: nat)
    requires floor <= after <= floor + |events|
    requires forall i :: 0 <= i < |events| ==> events[i].sequence == floor + i + 1
    requires forall i :: after - floor <= i < |events| ==> events[i].epoch == at
    ensures Selected(events, at, after) == events[after - floor..]
  {
    if events != [] {
      if after > floor {
        SelectedIs(events[1..], at, after, floor + 1);
      } else {
        AllSelected(events[1..], at, after);
        assert events == [events[0]] + events[1..];
      }
    }
  }

  lemma {:induction false} AllSelected<K>(events: seq<Event<K>>, at: nat, after: nat)
    requires forall i :: 0 <= i < |events| ==> events[i].sequence > after && events[i].epoch == at
    ensures Selected(events, at, after) == events
  {
    if events != [] { AllSelected(events[1..], at, after); }
  }

  // ---------------------------------------------------------------- the producer

  /** No two neighbouring keys are equal. */
  predicate Changing<K(==)>(keys: seq<K>) { forall i :: 0 < i < |keys| ==> keys[i - 1] != keys[i] }

  function Contents<K>(events: seq<Event<K>>): seq<K> {
    if events == [] then [] else Contents(events[..|events| - 1]) + [events[|events| - 1].payload.content]
  }

  lemma {:induction false} ContentsAppend<K>(events: seq<Event<K>>, e: Event<K>)
    ensures Contents(events + [e]) == Contents(events) + [e.payload.content]
  {
    assert (events + [e])[..|events|] == events;
  }

  /** Whether the store can be read, the document built and the store written while one publication is attempted. */
  datatype Health = Health(readable: bool, documented: bool, writable: bool)

  /** What decides whether a producer publishes: the journal, whether it is its own, the fault and the last key. */
  datatype Standing<K> = Standing(log: seq<Event<K>>, epoch: nat, owned: bool, faulted: bool, content: K)

  predicate Publishes<K(==)>(s: Standing<K>, document: Payload<K>, health: Health) {
    && !s.faulted && s.owned && health.readable && health.documented
    && (document.content != s.content ==> document.bytes <= RECORD_BYTES && health.writable)
  }

  /** One attempt to publish: one more event exactly if the key changed, or the fence. */
  function Published<K(==)>(s: Standing<K>, document: Payload<K>, health: Health): Standing<K> {
    if !Publishes(s, document, health) then s.(faulted := true)
    else if document.content == s.content then s
    else s.(content := document.content, log := s.log + [Event(|s.log| + 1, s.epoch, document)])
  }

  /** The events of one epoch up to a position: the key changes at each of them and the last one is `content`. */
  predicate Chain<K(==)>(log: seq<Event<K>>, first: nat, sequence: nat, epoch: nat, initial: K, content: K) {
    && first <= sequence <= |log|
    && (forall i :: first <= i < sequence ==> log[i].epoch == epoch)
    && Changing([initial] + Contents(log[first..sequence]))
    && content == if first == sequence then initial else log[sequence - 1].payload.content
  }

  lemma ChainStarts<K>(log: seq<Event<K>>, epoch: nat, initial: K)
    ensures Chain(log, |log|, |log|, epoch, initial, initial)
  {
    assert log[|log|..|log|] == [];
  }

  lemma {:induction false} ContentsEnd<K>(events: seq<Event<K>>)
    ensures |Contents(events)| == |events|
    ensures events != [] ==> Contents(events)[|events| - 1] == events[|events| - 1].payload.content
  {
    if events != [] { ContentsEnd(events[..|events| - 1]); }
  }

  lemma ChangingGrows<K>(keys: seq<K>, key: K)
    requires Changing(keys) && keys != [] && keys[|keys| - 1] != key
    ensures Changing(keys + [key])
  {
  }

  lemma ChainGrows<K>(
    log: seq<Event<K>>, first: nat, epoch: nat, initial: K, content: K, e: Event<K>)
    requires Chain(log, first, |log|, epoch, initial, content)
    requires e.epoch == epoch && e.payload.content != content
    ensures Chain(log + [e], first, |log| + 1, epoch, initial, e.payload.content)
  {
    hide Changing, Contents;
    var before, all := log[first..], log + [e];
    assert log[first..|log|] == before && all[first..|log| + 1] == before + [e];
    ContentsAppend(before, e);
    ContentsEnd(before);
    var keys := [initial] + Contents(before);
    assert [initial] + (Contents(before) + [e.payload.content]) == keys + [e.payload.content];
    assert keys[|keys| - 1] == content;
    ChangingGrows(keys, e.payload.content);
  }

  class Producer<K(==)> {
    const store: ProducerStore<K>
    const epoch: nat
    var sequence: nat
    var content: K
    var payload: Payload<K>
    var faulted: bool
    /** The position the epoch began at, and the key it began with. */
    ghost const first: nat
    ghost const initial: K

    /** The journal of this epoch changes at every event, and ends with the key held here. */
    ghost predicate Valid()
      reads this, store
    {
      && store.Valid() && first <= sequence <= store.sequence
      && (store.epoch == epoch ==> store.epochStart == first)
      && Chain(store.log, first, sequence, epoch, initial, content)
    }

    ghost function Stands(): Standing<K>
      reads this, store
    {
      Standing(store.log, epoch, store.epoch == epoch && store.sequence == sequence, faulted, content)
    }

    lemma StandsOn()
      ensures Stands().log == store.log
    {
    }

    /** Taken over right after a new epoch was started. */
    constructor (store: ProducerStore<K>, payload: Payload<K>)
      requires store.Valid() && store.epochStart == store.sequence
      ensures Valid() && this.store == store && epoch == store.epoch && sequence == store.sequence
      ensures !faulted && content == payload.content && this.payload == payload
      ensures first == store.sequence && initial == payload.content
      ensures Stands() == Standing(store.log, store.epoch, true, false, payload.content)
    {
      this.store, epoch, sequence := store, store.epoch, store.sequence;
      content, this.payload, faulted := payload.content, payload, false;
      first, initial := store.sequence, payload.content;
      ChainStarts(store.log, store.epoch, payload.content);
    }

    /** Appends the current document when its key changed. A failure anywhere fences the producer for good. */
    method PublishChange(document: Payload<K>, health: Health) returns (r: Result<(), Failure>)
      requires Valid()
      modifies this, store
      ensures Valid() && store.epoch == old(store.epoch)
      ensures old(faulted) ==> r == Err(Faulted)
      ensures !old(faulted) ==>
                (r.Ok? <==>
                   && health.readable && health.documented
                   && store.epoch == epoch && old(store.sequence) == old(sequence)
                   && (document.content != old(content) ==> document.bytes <= RECORD_BYTES && health.writable))
      ensures r.Ok? <==> Publishes(old(Stands()), document, health)
      ensures Stands() == Published(old(Stands()), document, health)
      ensures faulted == (old(faulted) || r.Err?)
      ensures r.Ok? ==>
                && content == document.content && payload == document && sequence == store.sequence
                && store.log == old(store.log) + (if document.content == old(content) then []
                                                  else [Event(old(sequence) + 1, epoch, document)])
      ensures r.Err? ==>
                store.log == old(store.log) && store.sequence == old(store.sequence) && sequence == old(sequence)
                && content == old(content) && payload == old(payload)
    {
      hide Chain, Trimmed, WithinBounds, Bytes;
      if faulted { return Err(Faulted); }
      var at := store.CheckPosition(epoch, sequence, health.readable);
      if at.Err? {
        faulted := true;
        return Err(at.error);
      }
      if !health.documented {
        faulted := true;
        return Err(Unavailable);
      }
      if document.content != content {
        var appended := store.Append(epoch, document, health.writable);
        if appended.Err? {
          faulted := true;
          return Err(appended.error);
        }
        ChainGrows(old(store.log), first, epoch, initial, content, Event(old(sequence) + 1, epoch, document));
        sequence := appended.value;
        content := document.content;
      }
      payload := document;
      return Ok(());
    }

    /** Publishes first, then answers from that one cut: the events past the cursor, or where to start again. */
    method Replay(cursor: Cursor, document: Payload<K>, health: Health, readAgain: bool)
      returns (r: Result<Replay<K>, Failure>)
      requires Valid()
      modifies this, store
      ensures Valid() && store.epoch == old(store.epoch) && old(store.log) <= store.log
      ensures r.Ok? <==>
                && cursor.wellFormed && Publishes(old(Stands()), document, health)
                && (cursor.schemaKnown ==> cursor.located && readAgain)
      ensures Stands() == if cursor.wellFormed then Published(old(Stands()), document, health) else old(Stands())
      ensures r.Ok? ==> content == document.content && payload == document && sequence == store.sequence == |store.log|
      ensures r.Ok? && r.value.Events? ==>
                && cursor.epoch == epoch && first <= cursor.after <= sequence
                && r.value.rows == store.log[cursor.after..] && r.value.after == sequence
      ensures r.Ok? && r.value.Restart? ==> r.value.after == sequence && r.value.snapshot == document
      ensures r.Ok? ==>
                (r.value.Restart? <==>
                   !cursor.schemaKnown || cursor.epoch != epoch || cursor.after < first || cursor.after > sequence
                   || cursor.after < store.floor)
      ensures r.Ok? && r.value.Restart? ==> r.value.reason != Some(HistoryGap)
    {
      hide Chain, Trimmed, WithinBounds, Bytes;
      if !cursor.wellFormed { return Err(Malformed); }
      var published := PublishChange(document, health);
      if published.Err? { return Err(published.error); }
      if !cursor.schemaKnown { return Ok(Restart(sequence, payload, None)); }
      var read := store.Read(cursor.epoch, cursor.after, cursor.located, epoch, sequence, readAgain);
      if read.Err? { return Err(read.error); }
      if read.value.2.Some? { return Ok(Restart(read.value.0, payload, read.value.2)); }
      var rows := read.value.1;
      return Ok(Events(if rows != [] then rows[|rows| - 1].sequence else cursor.after, rows));
    }
  }

  // ---------------------------------------------------------------- following cursors

  /**
   * What a consumer sends: a position in an epoch, and whether its provenance is well formed, its schema known and its
   * position well formed. Only the provenance is looked at before publishing.
   */
  datatype Cursor = Cursor(epoch: nat, after: nat, wellFormed: bool, schemaKnown: bool, located: bool)

  datatype Replay<K> =
    | Events(after: nat, rows: seq<Event<K>>)
    | Restart(after: nat, snapshot: Payload<K>, reason: Option<Resync>)

  /** What happens around a consumer: the state changes, or the consumer asks with the cursor it holds. */
  datatype Step<K> =
    | Change(document: Payload<K>, health: Health)
    | Poll(document: Payload<K>, health: Health, readAgain: bool)

  /**
   * Where a consumer last started and how far it got, when it began at `first` and its answered polls found the
   * journal this long: it starts again exactly where the events after its cursor were no longer retained.
   */
  function Followed<K>(log: seq<Event<K>>, first: nat, ends: seq<nat>): (nat, nat)
    requires forall i :: 0 <= i < |ends| ==> ends[i] <= |log|
  {
    if ends == [] then (first, first)
    else
      var end := ends[|ends| - 1];
      var (start, after) := Followed(log, first, ends[..|ends| - 1]);
      if after < Floor(log[..end]) then (end, end) else (start, end)
  }

  lemma {:induction false} FollowedGrows<K>(log: seq<Event<K>>, longer: seq<Event<K>>, first: nat, ends: seq<nat>)
    requires log <= longer && forall i :: 0 <= i < |ends| ==> ends[i] <= |log|
    ensures Followed(longer, first, ends) == Followed(log, first, ends)
  {
    if ends != [] {
      var end := ends[|ends| - 1];
      FollowedGrows(log, longer, first, ends[..|ends| - 1]);
      PrefixSlice(log, longer, 0, end);
    }
  }

  lemma FollowedNext<K>(log: seq<Event<K>>, first: nat, ends: seq<nat>)
    requires forall i :: 0 <= i < |ends| ==> ends[i] <= |log|
    ensures var (start, after) := Followed(log, first, ends);
            Followed(log, first, ends + [|log|]) == if after < Floor(log) then (|log|, |log|) else (start, |log|)
  {
    assert (ends + [|log|])[..|ends|] == ends && log[..|log|] == log;
  }

  function StepOf<K(==)>(s: Standing<K>, step: Step<K>): Standing<K> { Published(s, step.document, step.health) }

  function StandingAfter<K(==)>(s: Standing<K>, steps: seq<Step<K>>): Standing<K> {
    if steps == [] then s else StepOf(StandingAfter(s, steps[..|steps| - 1]), steps[|steps| - 1])
  }

  /** A poll is answered exactly if the current document can be published and the journal read. */
  predicate Answers<K(==)>(s: Standing<K>, step: Step<K>) {
    step.Poll? && Publishes(s, step.document, step.health) && step.readAgain
  }

  /** The journal's lengths at the polls that are answered. */
  function AnsweredEnds<K(==)>(s: Standing<K>, steps: seq<Step<K>>): seq<nat> {
    if steps == [] then []
    else
      var front, last := steps[..|steps| - 1], steps[|steps| - 1];
      AnsweredEnds(s, front)
      + (if Answers(StandingAfter(s, front), last) then [|StandingAfter(s, steps).log|] else [])
  }

  /** Whether the last thing that happened was a poll that was answered. */
  predicate JustAnswered<K(==)>(s: Standing<K>, steps: seq<Step<K>>) {
    steps != [] && Answers(StandingAfter(s, steps[..|steps| - 1]), steps[|steps| - 1])
  }

  lemma AnsweredNext<K>(s: Standing<K>, steps: seq<Step<K>>, i: nat)
    requires i < |steps|
    ensures var before, more := steps[..i], steps[..i + 1];
            && StandingAfter(s, more) == StepOf(StandingAfter(s, before), steps[i])
            && (JustAnswered(s, more) <==> Answers(StandingAfter(s, before), steps[i]))
            && AnsweredEnds(s, more)
               == AnsweredEnds(s, before)
                  + (if Answers(StandingAfter(s, before), steps[i]) then [|StandingAfter(s, more).log|] else [])
  {
    assert steps[..i + 1][..i] == steps[..i];
  }

  lemma AnsweredNothing<K>(s: Standing<K>)
    ensures StandingAfter(s, []) == s && AnsweredEnds(s, []) == [] && !JustAnswered(s, [])
  {
  }

  /**
   * A consumer that keeps following its cursor holds exactly the journal from where it last started to its position:
   * nothing is skipped, nothing is repeated, a poll that is answered leaves nothing behind, and it starts again only
   * where the events after its cursor were no longer retained. `ends` are the journal's lengths at answered polls, and
   * a poll is answered, however far behind it is, exactly if the document can be published and the journal read.
   */
  method Consume<K(==)>(producer: Producer<K>, steps: seq<Step<K>>)
    returns (start: nat, after: nat, held: seq<Event<K>>, current: bool, ghost ends: seq<nat>)
    requires producer.Valid()
    modifies producer, producer.store
    ensures producer.Valid()
    ensures start <= after <= |producer.store.log| && held == producer.store.log[start..after]
    ensures current ==> after == |producer.store.log|
    ensures producer.Stands() == StandingAfter(old(producer.Stands()), steps)
    ensures ends == AnsweredEnds(old(producer.Stands()), steps)
    ensures current <==> JustAnswered(old(producer.Stands()), steps)
    ensures forall i :: 0 <= i < |ends| ==> ends[i] <= |producer.store.log|
    ensures forall i, j :: 0 <= i < j < |ends| ==> ends[i] <= ends[j]
    ensures (start, after) == Followed(producer.store.log, old(producer.sequence), ends)
  {
    hide Chain, Trimmed, Floor, Followed, WithinBounds, Bytes, Published, StandingAfter, AnsweredEnds, JustAnswered,
         Publishes, Producer.Stands;
    ghost var stands := producer.Stands();
    AnsweredNothing(stands);
    assert steps[..0] == [];
    start, after, held, current, ends := producer.sequence, producer.sequence, [], false, [];
    NothingFollowed(producer.store.log, start);
    for i := 0 to |steps|
      invariant producer.Valid() && producer.first <= after
      invariant start <= after <= |producer.store.log| && held == producer.store.log[start..after]
      invariant current ==> after == |producer.store.log|
      invariant producer.Stands() == StandingAfter(stands, steps[..i])
      invariant ends == AnsweredEnds(stands, steps[..i])
      invariant current <==> JustAnswered(stands, steps[..i])
      invariant forall j :: 0 <= j < |ends| ==> ends[j] <= |producer.store.log|
      invariant forall j, k :: 0 <= j < k < |ends| ==> ends[j] <= ends[k]
      invariant (start, after) == Followed(producer.store.log, old(producer.sequence), ends)
    {
      ghost var log := producer.store.log;
      AnsweredNext(stands, steps, i);
      producer.StandsOn();
      match steps[i] {
        case Change(document, health) =>
          var r := producer.PublishChange(document, health);
          Later(log, producer.store.log, old(producer.sequence), ends, start, after);
          current := false;
        case Poll(document, health, readAgain) =>
          var r := producer.Replay(Cursor(producer.epoch, after, true, true, true), document, health, readAgain);
          Later(log, producer.store.log, old(producer.sequence), ends, start, after);
          FollowedNext(producer.store.log, old(producer.sequence), ends);
          producer.store.FloorIs();
          match r {
            case Ok(Events(next, rows)) =>
              held, after, current := held + rows, next, true;
              ends := ends + [|producer.store.log|];
            case Ok(Restart(next, _, _)) =>
              start, after, held, current := next, next, [], true;
              ends := ends + [|producer.store.log|];
            case Err(_) => current := false;
          }
      }
      producer.StandsOn();
    }
    assert steps[..|steps|] == steps;
  }

  /** A longer journal changes nothing of what a consumer has and of where it is. */
  lemma Later<K>(log: seq<Event<K>>, longer: seq<Event<K>>, first: nat, ends: seq<nat>, start: nat, after: nat)
    requires log <= longer && start <= after <= |log| && forall i :: 0 <= i < |ends| ==> ends[i] <= |log|
    ensures Followed(longer, first, ends) == Followed(log, first, ends)
    ensures longer[start..after] == log[start..after]
    ensures longer[start..after] + longer[after..] == longer[start..|longer|]
  {
    hide Followed;
    FollowedGrows(log, longer, first, ends);
    PrefixSlice(log, longer, start, after);
    SlicesMeet(longer, start, after);
  }

  lemma PrefixSlice<T>(s: seq<T>, longer: seq<T>, start: nat, after: nat)
    requires s <= longer && start <= after <= |s|
    ensures longer[start..after] == s[start..after]
  {
  }

  lemma SlicesMeet<T>(s: seq<T>, start: nat, after: nat)
    requires start <= after <= |s|
    ensures s[start..after] + s[after..] == s[start..|s|]
  {
  }

  lemma NothingFollowed<K>(log: seq<Event<K>>, first: nat)
    ensures Followed(log, first, []) == (first, first)
  {
  }

  /** Along one epoch, what a consumer is handed never repeats a key from one event to the next. */
  lemma {:induction false} HandedChanges<K>(
    log: seq<Event<K>>, first: nat, sequence: nat, epoch: nat, initial: K, content: K, start: nat)
    requires Chain(log, first, sequence, epoch, initial, content) && first <= start <= sequence
    ensures Changing(Contents(log[start..sequence]))
  {
    var keys := [initial] + Contents(log[first..sequence]);
    ContentsSlice(log[first..sequence], start - first);
    assert log[first..sequence][start - first..] == log[start..sequence];
    var part := Contents(log[start..sequence]);
    ContentsEnd(log[first..sequence]);
    forall i | 0 < i < |part| ensures part[i - 1] != part[i] {
      assert part[i] == keys[start - first + i + 1] && part[i - 1] == keys[start - first + i];
    }
  }

  lemma {:induction false} ContentsSlice<K>(events: seq<Event<K>>, n: nat)
    requires n <= |events|
    ensures |Contents(events)| == |events| && Contents(events[n..]) == Contents(events)[n..]
  {
    ContentsEnd(events);
    if n < |events| {
      var front := events[..|events| - 1];
      ContentsSlice(front, n);
      ContentsEnd(front);
      assert events[n..][..|events| - n - 1] == front[n..];
    } else {
      assert events[n..] == [];
    }
  }
}
