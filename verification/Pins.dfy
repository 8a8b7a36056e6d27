/** Exact pinned-target references: how they are written into a model field and read back. */
module Pins {
  import opened Wrappers
  import opened Identifiers

  const PIN_PREFIX := "sr-pin:"

  datatype Pin = Pin(
    resource: string, provider: string, model: string, variant: string,
    effort: Option<string>, decision: Option<string>)

  /** What constructing a pin checks. */
  predicate Valid(pin: Pin) {
    && SafeId(pin.resource) && SafeId(pin.provider) && SafeId(pin.model) && SafeId(pin.variant)
    && (pin.effort.Some? ==> SafeId(pin.effort.value)) && (pin.decision.Some? ==> SafeId(pin.decision.value))
  }

  function Print(pin: Pin): string {
    PIN_PREFIX + pin.resource + "/" + pin.provider + "/" + pin.model + "/" + pin.variant
    + (if pin.effort.Some? then "~" + pin.effort.value else "")
    + (if pin.decision.Some? then "@" + pin.decision.value else "")
  }

  /** The pieces between the separators. */
  function Split(s: string, c: char): (parts: seq<string>)
    ensures |parts| >= 1
    decreases |s|
  {
    PartitionIs(s, c);
    match Partition(s, c)
    case None => [s]
    case Some((head, tail)) => [head] + Split(tail, c)
  }

  /** The identifiers of a reference without its decision. */
  function ParseTarget(body: string, decision: Option<string>): Option<Pin> {
    var parts := Split(body, '/');
    if |parts| != 4 then None
    else
      match Partition(parts[3], '~')
      case None =>
        if SafeId(parts[0]) && SafeId(parts[1]) && SafeId(parts[2]) && SafeId(parts[3])
        then Some(Pin(parts[0], parts[1], parts[2], parts[3], None, decision)) else None
      case Some((variant, effort)) =>
        if PolicyEffort(effort) && SafeId(parts[0]) && SafeId(parts[1]) && SafeId(parts[2]) && SafeId(variant)
        then Some(Pin(parts[0], parts[1], parts[2], variant, Some(effort), decision)) else None
  }

  function Parse(model: string): Option<Pin> {
    if |model| < |PIN_PREFIX| || model[..|PIN_PREFIX|] != PIN_PREFIX then None
    else
      var body := model[|PIN_PREFIX|..];
      match RightPartition(body, '@')
      case None => ParseTarget(body, None)
      case Some((front, decision)) => if SafeId(decision) then ParseTarget(front, Some(decision)) else None
  }

  /** No separator of the syntax is an identifier character. */
  lemma SafeIdsAreClean(s: string)
    requires SafeId(s) || PolicyEffort(s)
    ensures Lacks(s, '/') && Lacks(s, '~') && Lacks(s, '@')
  {
    hide SafeId;
    GrammarIff(s);
    if FeedAfterGrammar(s) {
      var front := s[..|s| - 1];
      assert s == front + "\n";
      assert forall i :: 0 <= i < |front| ==> SafeChar(front[i]);
    }
  }

  function Target(pin: Pin): string {
    pin.variant + (if pin.effort.Some? then "~" + pin.effort.value else "")
  }

  function Body(pin: Pin): string {
    pin.resource + "/" + (pin.provider + "/" + (pin.model + "/" + Target(pin)))
  }

  lemma PrintIs(pin: Pin)
    ensures Print(pin) == PIN_PREFIX + (if pin.decision.Some? then Body(pin) + "@" + pin.decision.value else Body(pin))
  {
    var t := Target(pin);
    assert Body(pin) == pin.resource + "/" + pin.provider + "/" + pin.model + "/" + t;
  }

  lemma LacksJoin(a: string, b: string, c: char)
    ensures Lacks(a + b, c) <==> Lacks(a, c) && Lacks(b, c)
  {
    var s := a + b;
    if Lacks(s, c) {
      forall i | 0 <= i < |a| ensures a[i] != c { assert a[i] == s[i]; }
      forall i | 0 <= i < |b| ensures b[i] != c { assert b[i] == s[|a| + i]; }
    }
  }

  lemma {:induction false} SplitJoin(head: string, tail: string, c: char)
    requires Lacks(head, c)
    ensures Split(head + [c] + tail, c) == [head] + Split(tail, c)
  {
    PartitionOf(head, c, tail);
  }

  lemma {:induction false} SplitWhole(s: string, c: char)
    requires Lacks(s, c)
    ensures Split(s, c) == [s]
  {
    PartitionIs(s, c);
  }

  lemma {:induction false} TargetIsClean(pin: Pin)
    requires Valid(pin)
    ensures Lacks(Target(pin), '/') && Lacks(Target(pin), '@') && (pin.effort.None? ==> Target(pin) == pin.variant)
    ensures Partition(Target(pin), '~') == if pin.effort.Some? then Some((pin.variant, pin.effort.value)) else None
  {
    SafeIdsAreClean(pin.variant);
    if pin.effort.Some? {
      SafeIdsAreClean(pin.effort.value);
      LacksJoin("~", pin.effort.value, '/');
      LacksJoin("~", pin.effort.value, '@');
      LacksJoin(pin.variant, "~" + pin.effort.value, '/');
      LacksJoin(pin.variant, "~" + pin.effort.value, '@');
      PartitionOf(pin.variant, '~', pin.effort.value);
      assert Target(pin) == pin.variant + "~" + pin.effort.value;
    } else {
      assert Target(pin) == pin.variant;
      PartitionIs(pin.variant, '~');
    }
  }

  lemma {:induction false} BodyReads(pin: Pin)
    requires Valid(pin)
    ensures Split(Body(pin), '/') == [pin.resource, pin.provider, pin.model, Target(pin)]
    ensures Lacks(Body(pin), '@')
  {
    hide SafeId, Target;
    TargetIsClean(pin);
    SafeIdsAreClean(pin.resource);
    SafeIdsAreClean(pin.provider);
    SafeIdsAreClean(pin.model);
    SplitWhole(Target(pin), '/');
    SplitJoin(pin.model, Target(pin), '/');
    SplitJoin(pin.provider, pin.model + "/" + Target(pin), '/');
    SplitJoin(pin.resource, pin.provider + "/" + (pin.model + "/" + Target(pin)), '/');
    LacksJoin(pin.model + "/", Target(pin), '@');
    LacksJoin(pin.model, "/", '@');
    LacksJoin(pin.provider + "/", pin.model + "/" + Target(pin), '@');
    LacksJoin(pin.provider, "/", '@');
    LacksJoin(pin.resource + "/", pin.provider + "/" + (pin.model + "/" + Target(pin)), '@');
    LacksJoin(pin.resource, "/", '@');
  }

  /** What was written is read back exactly when its effort is a policy effort or absent, and refused otherwise. */
  lemma PrintedPinsParse(pin: Pin)
    requires Valid(pin)
    ensures Parse(Print(pin)) == if pin.effort.Some? && !PolicyEffort(pin.effort.value) then None else Some(pin)
  {
    hide SafeId, Split, Target, RightPartition;
    PrintIs(pin);
    BodyReads(pin);
    TargetIsClean(pin);
    var rest := if pin.decision.Some? then Body(pin) + "@" + pin.decision.value else Body(pin);
    assert Print(pin)[..|PIN_PREFIX|] == PIN_PREFIX && Print(pin)[|PIN_PREFIX|..] == rest;
    if pin.decision.Some? {
      SafeIdsAreClean(pin.decision.value);
      RightPartitionOf(Body(pin), '@', pin.decision.value);
    } else {
      RightPartitionIs(Body(pin), '@');
    }
  }

  /** A pin may be constructed with any safe effort; one that is no policy effort fails the self-check. */
  lemma UnknownEffortIsNotReadBack()
    ensures var pin := Pin("r", "p", "m", "v", Some("fast"), None);
            Valid(pin) && Print(pin) == "sr-pin:r/p/m/v~fast" && Parse(Print(pin)) == None
  {
    hide SafeId, Parse;
    var pin := Pin("r", "p", "m", "v", Some("fast"), None);
    GrammarIff("r");
    GrammarIff("p");
    GrammarIff("m");
    GrammarIff("v");
    assert Grammar("fast");
    GrammarIff("fast");
    PrintedPinsParse(pin);
    assert Print(pin) == "sr-pin:" + "r" + "/" + "p" + "/" + "m" + "/" + "v" + "~fast" + "";
  }

  lemma ParsedEfforts(model: string)
    ensures Parse(model).Some? && Parse(model).value.effort.Some? ==> PolicyEffort(Parse(model).value.effort.value)
  {
    hide SafeId, Split, RightPartition, Partition;
  }

  lemma {:induction false} SplitIs(s: string, c: char)
    ensures |Split(s, c)| == 1 ==> s == Split(s, c)[0]
    ensures |Split(s, c)| > 1 ==>
              exists tail :: Split(tail, c) == Split(s, c)[1..] && s == Split(s, c)[0] + [c] + tail
  {
    PartitionIs(s, c);
    match Partition(s, c) {
      case None =>
      case Some((head, tail)) => assert Split(s, c)[1..] == Split(tail, c);
    }
  }

  lemma {:induction false} FourParts(body: string)
    requires |Split(body, '/')| == 4
    ensures var p := Split(body, '/'); body == p[0] + "/" + (p[1] + "/" + (p[2] + "/" + p[3]))
  {
    hide Split;
    var p := Split(body, '/');
    SplitIs(body, '/');
    var t1 :| Split(t1, '/') == p[1..] && body == p[0] + "/" + t1;
    SplitIs(t1, '/');
    var t2 :| Split(t2, '/') == p[1..][1..] && t1 == p[1] + "/" + t2;
    SplitIs(t2, '/');
    var t3 :| Split(t3, '/') == p[1..][1..][1..] && t2 == p[2] + "/" + t3;
    SplitIs(t3, '/');
    assert t3 == p[3];
  }

  lemma EffortsAreSafe(effort: string)
    requires PolicyEffort(effort)
    ensures SafeId(effort)
  {
    EffortsAreShort(effort);
    assert Grammar(effort);
    GrammarIff(effort);
  }

  lemma TargetsPrint(body: string, decision: Option<string>)
    requires ParseTarget(body, decision).Some? && (decision.Some? ==> SafeId(decision.value))
    ensures var pin := ParseTarget(body, decision).value; Valid(pin) && pin.decision == decision && Body(pin) == body
  {
    hide SafeId, Split;
    var parts := Split(body, '/');
    FourParts(body);
    PartitionIs(parts[3], '~');
    var pin := ParseTarget(body, decision).value;
    if pin.effort.Some? { EffortsAreSafe(pin.effort.value); }
    assert Target(pin) == parts[3];
  }

  /** Writing again what was read gives the same text: nothing is repaired, reordered or dropped. */
  lemma ParsedPinsPrint(model: string)
    requires Parse(model).Some?
    ensures Valid(Parse(model).value) && Print(Parse(model).value) == model
  {
    hide SafeId, Split, ParseTarget, Body;
    var body := model[|PIN_PREFIX|..];
    RightPartitionIs(body, '@');
    var pin := Parse(model).value;
    match RightPartition(body, '@') {
      case None => TargetsPrint(body, None);
      case Some((front, decision)) => TargetsPrint(front, Some(decision));
    }
    PrintIs(pin);
    assert model == PIN_PREFIX + body;
  }

  /** A model field is a reference exactly when it is the text of a valid pin with a policy effort or none. */
  lemma ReferencesAreThePrinted(model: string)
    ensures Parse(model).Some? <==>
            exists pin :: Valid(pin) && (pin.effort.Some? ==> PolicyEffort(pin.effort.value)) && Print(pin) == model
  {
    hide Parse, Print, SafeId;
    if Parse(model).Some? {
      ParsedPinsPrint(model);
      ParsedEfforts(model);
    }
    forall pin | Valid(pin) && (pin.effort.Some? ==> PolicyEffort(pin.effort.value)) && Print(pin) == model
      ensures Parse(model).Some?
    {
      PrintedPinsParse(pin);
    }
  }
}
