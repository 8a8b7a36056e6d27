/** Retained request bindings: how the demands of a selection are merged into a later request. */
module Bindings {
  import opened Wrappers
  import Pins
  import Identifiers

  datatype ModelRef = ModelRef(provider: string, model: string)

  datatype Binding = Binding(
    toolCalls: bool, structuredOutput: bool, streaming: bool, reasoningControls: bool,
    minimumContext: Option<nat>, maximumOutput: Option<nat>,
    alias: Option<string>, explicitModel: Option<ModelRef>, explicitVariant: Option<string>, pinned: Option<Pins.Pin>)

  /** An alias and an explicit model are two readings of one field. */
  predicate Valid(b: Binding) { !(b.alias.Some? && b.explicitModel.Some?) }

  // ---------------------------------------------------------------- the dictionary form

  datatype Key =
    | RequiresToolCalls
    | RequiresStructuredOutput
    | RequiresStreaming
    | RequiresReasoningControls
    | MinimumContext
    | MaximumOutput
    | ProfileAlias
    | ExplicitModel
    | ExplicitVariant
    | PinnedTarget

  datatype Value = Flag(on: bool) | Tokens(count: nat) | Text(text: string) | Ref(ref: ModelRef) | Target(pin: Pins.Pin)

  type Dictionary = map<Key, Value>

  /** The order in which a binding is written out. */
  const KEYS: seq<Key> := [
    RequiresToolCalls, RequiresStructuredOutput, RequiresStreaming, RequiresReasoningControls, MinimumContext,
    MaximumOutput, ProfileAlias, ExplicitModel, ExplicitVariant, PinnedTarget]

  /** What a binding writes for a key; false flags and absent fields are not written. */
  function Written(b: Binding, k: Key): Option<Value> {
    match k
    case RequiresToolCalls => if b.toolCalls then Some(Flag(true)) else None
    case RequiresStructuredOutput => if b.structuredOutput then Some(Flag(true)) else None
    case RequiresStreaming => if b.streaming then Some(Flag(true)) else None
    case RequiresReasoningControls => if b.reasoningControls then Some(Flag(true)) else None
    case MinimumContext => if b.minimumContext.Some? then Some(Tokens(b.minimumContext.value)) else None
    case MaximumOutput => if b.maximumOutput.Some? then Some(Tokens(b.maximumOutput.value)) else None
    case ProfileAlias => if b.alias.Some? then Some(Text(b.alias.value)) else None
    case ExplicitModel => if b.explicitModel.Some? then Some(Ref(b.explicitModel.value)) else None
    case ExplicitVariant => if b.explicitVariant.Some? then Some(Text(b.explicitVariant.value)) else None
    case PinnedTarget => if b.pinned.Some? then Some(Target(b.pinned.value)) else None
  }

  function ToDict(b: Binding): Dictionary {
    map k | k in KEYS && Written(b, k).Some? :: Written(b, k).value
  }

  function Get(d: Dictionary, k: Key): Option<Value> { if k in d then Some(d[k]) else None }

  predicate IsFlag(k: Key) {
    k == RequiresToolCalls || k == RequiresStructuredOutput || k == RequiresStreaming || k == RequiresReasoningControls
  }

  predicate IsTokens(k: Key) { k == MinimumContext || k == MaximumOutput }

  /** Whether a value is of its key's type. */
  predicate Typed(k: Key, v: Value) {
    if IsFlag(k) then v.Flag?
    else if IsTokens(k) then v.Tokens?
    else if k == ExplicitModel then v.Ref?
    else if k == PinnedTarget then v.Target?
    else v.Text?
  }

  function FlagOf(d: Dictionary, k: Key): bool { k in d && d[k] == Flag(true) }

  function TokensOf(d: Dictionary, k: Key): Option<nat> {
    if k in d && d[k].Tokens? then Some(d[k].count) else None
  }

  function TextOf(d: Dictionary, k: Key): Option<string> { if k in d && d[k].Text? then Some(d[k].text) else None }

  function RefOf(d: Dictionary, k: Key): Option<ModelRef> { if k in d && d[k].Ref? then Some(d[k].ref) else None }

  function PinOf(d: Dictionary, k: Key): Option<Pins.Pin> { if k in d && d[k].Target? then Some(d[k].pin) else None }

  /** Reading a dictionary back; the two readings of the model field exclude each other. */
  function FromDict(d: Dictionary): Option<Binding>
    requires forall k :: k in d ==> Typed(k, d[k])
  {
    var b := Binding(
      FlagOf(d, RequiresToolCalls), FlagOf(d, RequiresStructuredOutput), FlagOf(d, RequiresStreaming),
      FlagOf(d, RequiresReasoningControls),
      TokensOf(d, MinimumContext), TokensOf(d, MaximumOutput), TextOf(d, ProfileAlias), RefOf(d, ExplicitModel),
      TextOf(d, ExplicitVariant), PinOf(d, PinnedTarget));
    if Valid(b) then Some(b) else None
  }

  lemma KeysAreAll(k: Key)
    ensures k in KEYS
  {
    match k {
      case RequiresToolCalls => assert KEYS[0] == k;
      case RequiresStructuredOutput => assert KEYS[1] == k;
      case RequiresStreaming => assert KEYS[2] == k;
      case RequiresReasoningControls => assert KEYS[3] == k;
      case MinimumContext => assert KEYS[4] == k;
      case MaximumOutput => assert KEYS[5] == k;
      case ProfileAlias => assert KEYS[6] == k;
      case ExplicitModel => assert KEYS[7] == k;
      case ExplicitVariant => assert KEYS[8] == k;
      case PinnedTarget => assert KEYS[9] == k;
    }
  }

  lemma DictIs(b: Binding, k: Key)
    ensures Get(ToDict(b), k) == Written(b, k)
    ensures k in ToDict(b) ==> Typed(k, ToDict(b)[k])
  {
    KeysAreAll(k);
  }

  /** The dictionary form loses nothing. */
  lemma ReadBack(b: Binding)
    requires Valid(b)
    ensures forall k :: k in ToDict(b) ==> Typed(k, ToDict(b)[k])
    ensures FromDict(ToDict(b)) == Some(b)
  {
    forall k ensures Get(ToDict(b), k) == Written(b, k) && (k in ToDict(b) ==> Typed(k, ToDict(b)[k])) { DictIs(b, k); }
    assert Get(ToDict(b), RequiresToolCalls) == Written(b, RequiresToolCalls);
    assert Get(ToDict(b), RequiresStructuredOutput) == Written(b, RequiresStructuredOutput);
    assert Get(ToDict(b), RequiresStreaming) == Written(b, RequiresStreaming);
    assert Get(ToDict(b), RequiresReasoningControls) == Written(b, RequiresReasoningControls);
    assert Get(ToDict(b), MinimumContext) == Written(b, MinimumContext);
    assert Get(ToDict(b), MaximumOutput) == Written(b, MaximumOutput);
    assert Get(ToDict(b), ProfileAlias) == Written(b, ProfileAlias);
    assert Get(ToDict(b), ExplicitModel) == Written(b, ExplicitModel);
    assert Get(ToDict(b), ExplicitVariant) == Written(b, ExplicitVariant);
    assert Get(ToDict(b), PinnedTarget) == Written(b, PinnedTarget);
  }

  // ---------------------------------------------------------------- the merge

  function Max(a: nat, b: nat): nat { if a >= b then a else b }

  /** What one retained entry makes of the current one; the inner `None` refuses the merge. */
  function MergeValue(k: Key, current: Option<Value>, retained: Value): Option<Value>
    requires Typed(k, retained) && (current.Some? ==> Typed(k, current.value))
  {
    if IsFlag(k) then Some(Flag(current == Some(Flag(true)) || retained == Flag(true)))
    else if k == MinimumContext then
      Some(Tokens(if current.Some? then Max(current.value.count, retained.count) else retained.count))
    else if k == MaximumOutput then
      if current.None? || current.value.count > retained.count then None else current
    else if current.Some? && current != Some(retained) then None
    else Some(retained)
  }

  /** The same, field by field. */
  function Floor(retained: Option<nat>, actual: Option<nat>): Option<nat> {
    match (retained, actual)
    case (Some(r), Some(a)) => Some(Max(a, r))
    case (Some(r), None) => Some(r)
    case (None, a) => a
  }

  predicate CeilingHolds(retained: Option<nat>, actual: Option<nat>) {
    retained.Some? ==> actual.Some? && actual.value <= retained.value
  }

  predicate Agree<T(==)>(retained: Option<T>, actual: Option<T>) {
    retained.Some? && actual.Some? ==> retained == actual
  }

  function Either<T>(retained: Option<T>, actual: Option<T>): Option<T> { if retained.Some? then retained else actual }

  function Joined(retained: Binding, actual: Binding): Binding {
    Binding(
      retained.toolCalls || actual.toolCalls, retained.structuredOutput || actual.structuredOutput,
      retained.streaming || actual.streaming, retained.reasoningControls || actual.reasoningControls,
      Floor(retained.minimumContext, actual.minimumContext), actual.maximumOutput,
      Either(retained.alias, actual.alias), Either(retained.explicitModel, actual.explicitModel),
      Either(retained.explicitVariant, actual.explicitVariant), Either(retained.pinned, actual.pinned))
  }

  predicate Compatible(retained: Binding, actual: Binding) {
    && CeilingHolds(retained.maximumOutput, actual.maximumOutput)
    && Agree(retained.alias, actual.alias) && Agree(retained.explicitModel, actual.explicitModel)
    && Agree(retained.explicitVariant, actual.explicitVariant) && Agree(retained.pinned, actual.pinned)
  }

  /** The merge is defined exactly when nothing retained would be weakened and the two model readings do not meet. */
  function Merge(retained: Binding, actual: Binding): Option<Binding> {
    if Compatible(retained, actual) && Valid(Joined(retained, actual)) then Some(Joined(retained, actual)) else None
  }

  /** What the dictionary holds at a key once the first keys have been merged. */
  function MergedAt(retained: Binding, actual: Binding, done: nat, k: Key): Option<Value>
    requires done <= |KEYS|
  {
    if k in KEYS[..done] && Written(retained, k).Some?
    then MergeValue(k, Written(actual, k), Written(retained, k).value)
    else Written(actual, k)
  }

  predicate MergesAt(retained: Binding, actual: Binding, k: Key) {
    Written(retained, k).Some? ==> MergeValue(k, Written(actual, k), Written(retained, k).value).Some?
  }

  method MergeBinding(retained: Binding, actual: Binding) returns (r: Option<Binding>)
    ensures r == Merge(retained, actual)
  {
    hide Written, MergeValue, Typed, ToDict, FromDict, Merge;
    var current := ToDict(actual);
    var source := ToDict(retained);
    forall k ensures Get(current, k) == Written(actual, k) && (k in current ==> Typed(k, current[k])) {
      DictIs(actual, k);
    }
    forall k ensures Get(source, k) == Written(retained, k) && (k in source ==> Typed(k, source[k])) {
      DictIs(retained, k);
    }
    for i := 0 to |KEYS|
      invariant forall k :: k in current ==> Typed(k, current[k])
      invariant forall k :: Get(current, k) == MergedAt(retained, actual, i, k)
      invariant forall j :: 0 <= j < i ==> MergesAt(retained, actual, KEYS[j])
    {
      var k := KEYS[i];
      KeysOnce();
      assert Get(source, k) == Written(retained, k);
      assert Get(current, k) == MergedAt(retained, actual, i, k) == Written(actual, k);
      if k in source {
        MergeTyped(k, Get(current, k), source[k]);
        var merged := MergeValue(k, Get(current, k), source[k]);
        if merged.None? {
          Refused(retained, actual, k);
          return None;
        }
        current := current[k := merged.value];
      }
      MergedStep(retained, actual, i);
    }
    assert KEYS[..|KEYS|] == KEYS;
    forall k ensures MergesAt(retained, actual, k) { KeysAreAll(k); }
    forall k ensures Get(current, k) == Merged(retained, actual, k) { KeysAreAll(k); }
    r := FromDict(current);
    Accepted(retained, actual, current);
  }

  lemma MergedStep(retained: Binding, actual: Binding, i: nat)
    requires i < |KEYS|
    ensures forall k :: MergedAt(retained, actual, i + 1, k)
                        == if k == KEYS[i] && Written(retained, k).Some?
                           then MergeValue(k, Written(actual, k), Written(retained, k).value)
                           else MergedAt(retained, actual, i, k)
  {
    hide Written, MergeValue, Typed;
    assert KEYS[..i + 1] == KEYS[..i] + [KEYS[i]];
  }

  function Merged(retained: Binding, actual: Binding, k: Key): Option<Value> {
    if Written(retained, k).Some? then MergeValue(k, Written(actual, k), Written(retained, k).value)
    else Written(actual, k)
  }

  lemma KeysOnce()
    ensures forall i, j :: 0 <= i < j < |KEYS| ==> KEYS[i] != KEYS[j]
  {
  }

  lemma MergeTyped(k: Key, current: Option<Value>, retained: Value)
    requires Typed(k, retained) && (current.Some? ==> Typed(k, current.value))
    ensures MergeValue(k, current, retained).Some? ==> Typed(k, MergeValue(k, current, retained).value)
  {
  }

  lemma Refused(retained: Binding, actual: Binding, k: Key)
    requires !MergesAt(retained, actual, k)
    ensures Merge(retained, actual) == None
  {
  }

  lemma Accepted(retained: Binding, actual: Binding, d: Dictionary)
    requires forall k :: k in d ==> Typed(k, d[k])
    requires forall k :: MergesAt(retained, actual, k)
    requires forall k :: Get(d, k) == Merged(retained, actual, k)
    ensures FromDict(d) == Merge(retained, actual)
  {
    var j := Joined(retained, actual);
    FlagsAccepted(retained, actual, d);
    ValuesAccepted(retained, actual, d);
    IdentitiesAccepted(retained, actual, d);
  }

  lemma FlagsAccepted(retained: Binding, actual: Binding, d: Dictionary)
    requires forall k :: Get(d, k) == Merged(retained, actual, k)
    ensures FlagOf(d, RequiresToolCalls) == (retained.toolCalls || actual.toolCalls)
    ensures FlagOf(d, RequiresStructuredOutput) == (retained.structuredOutput || actual.structuredOutput)
    ensures FlagOf(d, RequiresStreaming) == (retained.streaming || actual.streaming)
    ensures FlagOf(d, RequiresReasoningControls) == (retained.reasoningControls || actual.reasoningControls)
  {
    assert Get(d, RequiresToolCalls) == Merged(retained, actual, RequiresToolCalls);
    assert Get(d, RequiresStructuredOutput) == Merged(retained, actual, RequiresStructuredOutput);
    assert Get(d, RequiresStreaming) == Merged(retained, actual, RequiresStreaming);
    assert Get(d, RequiresReasoningControls) == Merged(retained, actual, RequiresReasoningControls);
  }

  lemma ValuesAccepted(retained: Binding, actual: Binding, d: Dictionary)
    requires forall k :: k in d ==> Typed(k, d[k])
    requires forall k :: MergesAt(retained, actual, k)
    requires forall k :: Get(d, k) == Merged(retained, actual, k)
    ensures TokensOf(d, MinimumContext)
         == Floor(retained.minimumContext, actual.minimumContext)
    ensures TokensOf(d, MaximumOutput) == actual.maximumOutput
    ensures CeilingHolds(retained.maximumOutput, actual.maximumOutput)
  {
    assert Get(d, MinimumContext) == Merged(retained, actual, MinimumContext);
    assert Get(d, MaximumOutput) == Merged(retained, actual, MaximumOutput);
    assert MergesAt(retained, actual, MaximumOutput);
  }

  lemma IdentitiesAccepted(retained: Binding, actual: Binding, d: Dictionary)
    requires forall k :: k in d ==> Typed(k, d[k])
    requires forall k :: MergesAt(retained, actual, k)
    requires forall k :: Get(d, k) == Merged(retained, actual, k)
    ensures TextOf(d, ProfileAlias) == Either(retained.alias, actual.alias)
    ensures RefOf(d, ExplicitModel)
         == Either(retained.explicitModel, actual.explicitModel)
    ensures TextOf(d, ExplicitVariant)
         == Either(retained.explicitVariant, actual.explicitVariant)
    ensures PinOf(d, PinnedTarget) == Either(retained.pinned, actual.pinned)
    ensures Agree(retained.alias, actual.alias) && Agree(retained.explicitModel, actual.explicitModel)
    ensures Agree(retained.explicitVariant, actual.explicitVariant) && Agree(retained.pinned, actual.pinned)
  {
    assert Get(d, ProfileAlias) == Merged(retained, actual, ProfileAlias) && MergesAt(retained, actual, ProfileAlias);
    assert Get(d, ExplicitModel) == Merged(retained, actual, ExplicitModel);
    assert MergesAt(retained, actual, ExplicitModel);
    assert Get(d, ExplicitVariant) == Merged(retained, actual, ExplicitVariant);
    assert MergesAt(retained, actual, ExplicitVariant);
    assert Get(d, PinnedTarget) == Merged(retained, actual, PinnedTarget) && MergesAt(retained, actual, PinnedTarget);
  }

  // ---------------------------------------------------------------- a partial join

  /** `b` demands at least what `a` demands: flags, context floor, output ceiling and identity. */
  predicate Dominates(b: Binding, a: Binding) {
    DominatesButPin(b, a) && (a.pinned.Some? ==> b.pinned == a.pinned)
  }

  predicate DominatesButPin(b: Binding, a: Binding) {
    && (a.toolCalls ==> b.toolCalls) && (a.structuredOutput ==> b.structuredOutput)
    && (a.streaming ==> b.streaming) && (a.reasoningControls ==> b.reasoningControls)
    && (a.minimumContext.Some? ==> b.minimumContext.Some? && b.minimumContext.value >= a.minimumContext.value)
    && (a.maximumOutput.Some? ==> b.maximumOutput.Some? && b.maximumOutput.value <= a.maximumOutput.value)
    && (a.alias.Some? ==> b.alias == a.alias) && (a.explicitModel.Some? ==> b.explicitModel == a.explicitModel)
    && (a.explicitVariant.Some? ==> b.explicitVariant == a.explicitVariant)
  }

  lemma DominationIsAnOrder(a: Binding, b: Binding, c: Binding)
    ensures Dominates(a, a)
    ensures Dominates(b, a) && Dominates(a, b) ==> a == b
    ensures Dominates(b, a) && Dominates(c, b) ==> Dominates(c, a)
    ensures DominatesButPin(b, a) && DominatesButPin(c, b) ==> DominatesButPin(c, a)
  {
  }

  lemma MergeDominates(retained: Binding, actual: Binding)
    requires Merge(retained, actual).Some?
    ensures var merged := Merge(retained, actual).value;
            Valid(merged) && Dominates(merged, retained) && Dominates(merged, actual)
  {
  }

  lemma MergeIsLeast(retained: Binding, actual: Binding, other: Binding)
    requires Merge(retained, actual).Some? && Dominates(other, retained) && Dominates(other, actual)
    ensures Dominates(other, Merge(retained, actual).value)
  {
  }

  /** Where it is defined, the merge is the weakest binding at least as demanding as both. */
  lemma MergeIsTheJoin(retained: Binding, actual: Binding, other: Binding)
    requires Merge(retained, actual).Some?
    ensures var merged := Merge(retained, actual).value;
            && Valid(merged) && Dominates(merged, retained) && Dominates(merged, actual)
            && (Dominates(other, merged) <==> Dominates(other, retained) && Dominates(other, actual))
  {
    var merged := Merge(retained, actual).value;
    MergeDominates(retained, actual);
    hide Merge, Dominates;
    if Dominates(other, merged) {
      DominationIsAnOrder(retained, merged, other);
      DominationIsAnOrder(actual, merged, other);
    }
    if Dominates(other, retained) && Dominates(other, actual) { MergeIsLeast(retained, actual, other); }
  }

  /** It is undefined only where the request omits a retained output ceiling or no valid binding meets both demands. */
  lemma MergeIsDefinedIff(retained: Binding, actual: Binding)
    ensures Merge(retained, actual).Some? <==>
            && CeilingHolds(retained.maximumOutput, actual.maximumOutput)
            && exists other :: Valid(other) && Dominates(other, retained) && Dominates(other, actual)
  {
    if Merge(retained, actual).Some? {
      MergeIsTheJoin(retained, actual, actual);
    }
    forall other | Valid(other) && Dominates(other, retained) && Dominates(other, actual)
      ensures CeilingHolds(retained.maximumOutput, actual.maximumOutput) ==> Merge(retained, actual).Some?
    {
    }
  }

  lemma MergeIsIdempotent(b: Binding)
    requires Valid(b)
    ensures Merge(b, b) == Some(b)
  {
  }

  /** The merge of two bindings commutes exactly if their output ceilings are the same or it is undefined both ways. */
  lemma MergeCommutes(a: Binding, b: Binding)
    ensures Merge(a, b).Some? && Merge(b, a).Some? ==> Merge(a, b) == Merge(b, a)
    ensures Merge(a, b).Some? ==> (Merge(b, a).Some? <==> a.maximumOutput == b.maximumOutput)
  {
  }

  // ---------------------------------------------------------------- select, then bind

  /** A task requirement, known by its digest. */
  type Task = nat

  /** What a selection hands back: the demands with the exact target, its effort, and the policy behind them. */
  datatype Requirements = Requirements(
    task: Task, binding: Binding, effort: Option<string>, schema: nat,
    policyVersion: Option<nat>, expansion: Option<Task>)

  datatype Exact = Exact(provider: string, model: string, variant: string)

  datatype Listed = Listed(identity: Exact, effort: Option<string>)

  /** The profile policy in force and what the client's profile expands to, if it is known. */
  datatype Profile = Profile(version: Option<nat>, expansion: Option<Task>)

  /** What a later request finds: a reviewed catalog or the runtime inventory, its entries, the client's profile. */
  datatype Later = Later(request: Binding, calibrated: bool, entries: seq<Listed>, profile: Option<Profile>)

  datatype Bound = Bound(request: Binding, task: Task)

  function ExactOf(pin: Pins.Pin): Exact { Exact(pin.provider, pin.model, pin.variant) }

  /** The first entry of an exact variant. */
  function EntryOf(entries: seq<Listed>, identity: Exact): Option<Listed> {
    if entries == [] then None
    else if entries[0].identity == identity then Some(entries[0])
    else EntryOf(entries[1..], identity)
  }

  lemma {:induction false} EntryOfIs(entries: seq<Listed>, identity: Exact, e: Listed)
    ensures EntryOf(entries, identity) == Some(e) <==> FirstOf(entries, identity, e)
  {
    if entries != [] {
      var rest := entries[1..];
      if entries[0].identity == identity {
        if FirstOf(entries, identity, e) { assert entries[0] == e; }
        if entries[0] == e { assert FirstAt(entries, identity, e, 0); }
      } else {
        EntryOfIs(rest, identity, e);
        if FirstOf(rest, identity, e) {
          var i :| 0 <= i < |rest| && FirstAt(rest, identity, e, i);
          assert forall j :: 0 <= j < i + 1 ==> entries[j] == if j == 0 then entries[0] else rest[j - 1];
          assert FirstAt(entries, identity, e, i + 1);
        }
        if FirstOf(entries, identity, e) {
          var i :| 0 <= i < |entries| && FirstAt(entries, identity, e, i);
          assert forall j :: 0 <= j < |rest| ==> rest[j] == entries[j + 1];
          assert FirstAt(rest, identity, e, i - 1);
        }
      }
    }
  }

  predicate FirstAt(entries: seq<Listed>, identity: Exact, e: Listed, i: nat)
    requires i < |entries|
  {
    entries[i] == e && e.identity == identity && forall j :: 0 <= j < i ==> entries[j].identity != identity
  }

  predicate FirstOf(entries: seq<Listed>, identity: Exact, e: Listed) {
    exists i :: 0 <= i < |entries| && FirstAt(entries, identity, e, i)
  }

  /** Binding retained requirements to a later request; a changed target, effort, schema or profile refuses it. */
  function Bind(r: Requirements, later: Later): Option<Bound> {
    if r.binding.pinned.None? || later.request.pinned != r.binding.pinned then None
    else
      var pin := r.binding.pinned.value;
      var entry := EntryOf(later.entries, ExactOf(pin));
      if entry.None? then None
      else if !later.calibrated && (r.schema != 2 || pin.effort != r.effort) then None
      else if later.calibrated && (r.schema != 1 || entry.value.effort != r.effort) then None
      else if r.binding.alias.Some? && !ProfileStands(r, later.profile) then None
      else
        match Merge(r.binding, later.request)
        case None => None
        case Some(merged) => Some(Bound(merged, r.task))
  }

  predicate ProfileStands(r: Requirements, profile: Option<Profile>) {
    && profile.Some? && profile.value.version == r.policyVersion
    && profile.value.expansion.Some? && profile.value.expansion == r.expansion
  }

  /** Requirements as they can be read back from a client: schema, effort and profile fit each other. */
  predicate Readable(r: Requirements) {
    && (r.effort.Some? ==> Identifiers.PolicyEffort(r.effort.value))
    && (r.schema == 1 || r.schema == 2)
    && (r.schema == 1 && r.binding.pinned.Some? ==> r.binding.pinned.value.effort.None?)
    && (r.schema == 2 ==> r.binding.pinned.Some? && r.binding.pinned.value.effort == r.effort)
    && if r.binding.alias.None? then r.policyVersion.None? && r.expansion.None?
       else r.policyVersion.Some? && r.policyVersion.value >= 1 && r.expansion.Some?
  }

  /**
   * Requirements bind exactly if the request repeats their target, the catalog's first entry of the target and their
   * schema agree on the effort, the profile of an alias is the one they were made under, the request states an output
   * ceiling within theirs, and some binding meets both demands.
   */
  lemma BindsExactly(r: Requirements, later: Later)
    ensures Bind(r, later).Some? <==>
              && r.binding.pinned.Some? && later.request.pinned == r.binding.pinned
              && (exists e :: FirstOf(later.entries, ExactOf(r.binding.pinned.value), e)
                              && (if later.calibrated then r.schema == 1 && e.effort == r.effort
                                  else r.schema == 2 && r.binding.pinned.value.effort == r.effort))
              && (r.binding.alias.Some? ==>
                    r.expansion.Some? && later.profile == Some(Profile(r.policyVersion, r.expansion)))
              && CeilingHolds(r.binding.maximumOutput, later.request.maximumOutput)
              && exists other :: Valid(other) && Dominates(other, r.binding) && Dominates(other, later.request)
  {
    hide Merge, Dominates, Valid, FirstOf;
    MergeIsDefinedIff(r.binding, later.request);
    if r.binding.pinned.Some? {
      var identity := ExactOf(r.binding.pinned.value);
      forall e ensures EntryOf(later.entries, identity) == Some(e) <==> FirstOf(later.entries, identity, e) {
        EntryOfIs(later.entries, identity, e);
      }
      var entry := EntryOf(later.entries, identity);
      if entry.Some? { assert FirstOf(later.entries, identity, entry.value); }
    }
  }

  /** What a client can send back only ever fails for the catalog's kind and effort, never for its own effort. */
  lemma ReadableBinds(r: Requirements, later: Later)
    requires Readable(r)
    ensures Bind(r, later).Some? <==>
              && r.binding.pinned.Some? && later.request.pinned == r.binding.pinned
              && (later.calibrated <==> r.schema == 1)
              && (exists e :: FirstOf(later.entries, ExactOf(r.binding.pinned.value), e)
                              && (later.calibrated ==> e.effort == r.effort))
              && (r.binding.alias.Some? ==> later.profile == Some(Profile(r.policyVersion, r.expansion)))
              && Merge(r.binding, later.request).Some?
  {
    hide Dominates, Valid, FirstOf, Merge;
    BindsExactly(r, later);
    MergeIsDefinedIff(r.binding, later.request);
  }

  /**
   * The demands of a selection reach the later request: whatever was demanded, and whatever the route added, holds of
   * the bound request too, it names the selected target, and the task is the selection's.
   */
  lemma DemandsReachTheRequest(demands: Binding, route: Binding, pin: Pins.Pin, r: Requirements, later: Later)
    requires Merge(demands, route).Some? && r.binding == Merge(demands, route).value.(pinned := Some(pin))
    requires Bind(r, later).Some?
    ensures var bound := Bind(r, later).value;
            && Valid(bound.request) && bound.request.pinned == Some(pin) && bound.task == r.task
            && DominatesButPin(bound.request, demands) && DominatesButPin(bound.request, route)
            && Dominates(bound.request, later.request)
  {
    var merged := Merge(demands, route).value;
    MergeIsTheJoin(demands, route, merged);
    MergeIsTheJoin(r.binding, later.request, r.binding);
    var bound := Merge(r.binding, later.request).value;
    DominationIsAnOrder(demands, merged, bound);
    DominationIsAnOrder(route, merged, bound);
  }

  /** A request that repeats the selection exactly is always accepted, and unchanged. */
  lemma RepeatingIsAccepted(r: Requirements, later: Later, e: Listed)
    requires Readable(r) && Valid(r.binding) && r.binding.pinned.Some? && later.request == r.binding
    requires (later.calibrated <==> r.schema == 1) && FirstOf(later.entries, ExactOf(r.binding.pinned.value), e)
    requires later.calibrated ==> e.effort == r.effort
    requires r.binding.alias.Some? ==> later.profile == Some(Profile(r.policyVersion, r.expansion))
    ensures Bind(r, later) == Some(Bound(r.binding, r.task))
  {
    MergeIsIdempotent(r.binding);
    EntryOfIs(later.entries, ExactOf(r.binding.pinned.value), e);
  }
}
