/** Adoption and retirement of the models an execution source reports. */
module Sources {
  import opened Wrappers
  import opened Identifiers

  const RETIRE_AFTER_MISSES := 3
  const MAX_RETAINED_RETIRED := 64
  const PLAN_MANAGED := "plan-managed"

  datatype Kind = CodexSubscription | ZcodeSubscription

  datatype Auth = Authenticated | AuthRequired | Unverified | Unavailable

  datatype Model = Model(slug: string, efforts: seq<string>)

  datatype Inventory = Inventory(auth: Auth, models: seq<Model>)

  /** The administrator's grant: one source, its kind, its worker and its adoption policy. */
  datatype Config = Config(
    sourceId: string, kind: Kind, workerId: string, pool: string,
    autoAdopt: bool, allowedTracks: set<string>, allowedModels: set<string>, scopes: seq<string>)

  datatype Reason =
    | AdoptionDisabled
    | LegacyTrackPolicy
    | ModelNotAllowed
    | PlanLaneUnverified
    | SourceNotAuthenticated
    | EffortNotReported

  datatype Decision =
    | Discovered(slug: string, reason: Reason, efforts: seq<string>)
    | Routable(slug: string, resourceId: string, efforts: seq<string>)

  /** Why the current configuration excludes a slug, whatever was observed. */
  function CurrentExclusion(config: Config, slug: string): Option<Reason> {
    if !config.autoAdopt then Some(AdoptionDisabled)
    else if config.allowedTracks != {} then Some(LegacyTrackPolicy)
    else if slug !in config.allowedModels then Some(ModelNotAllowed)
    else None
  }

  predicate AnyPolicyEffort(efforts: seq<string>) { exists e :: e in efforts && PolicyEffort(e) }

  /** Why one reported model is not adopted by one observation. */
  function Exclusion(config: Config, auth: Auth, m: Model): Option<Reason> {
    if CurrentExclusion(config, m.slug).Some? then CurrentExclusion(config, m.slug)
    else if config.kind == ZcodeSubscription then
      if m.slug != PLAN_MANAGED || m.efforts != [] then Some(PlanLaneUnverified)
      else if auth != Authenticated && auth != Unverified then Some(SourceNotAuthenticated)
      else None
    else if auth != Authenticated then Some(SourceNotAuthenticated)
    else if !AnyPolicyEffort(m.efforts) then Some(EffortNotReported)
    else None
  }

  /** Alphabetical, as the ids are derived. */
  const SORTED_EFFORTS: seq<string> := ["high", "low", "max", "medium", "none", "ultra", "xhigh"]

  function PolicyEffortsFrom(efforts: seq<string>, i: nat): seq<string>
    requires i <= |SORTED_EFFORTS|
    decreases |SORTED_EFFORTS| - i
  {
    if i == |SORTED_EFFORTS| then []
    else (if SORTED_EFFORTS[i] in efforts then [SORTED_EFFORTS[i]] else []) + PolicyEffortsFrom(efforts, i + 1)
  }

  /** The advertised policy efforts, sorted. */
  function PolicyEfforts(efforts: seq<string>): seq<string> { PolicyEffortsFrom(efforts, 0) }

  lemma PolicyEffortsAre(efforts: seq<string>)
    ensures forall e :: e in PolicyEfforts(efforts) <==> e in efforts && PolicyEffort(e)
  {
    assert PolicyEffortsFrom(efforts, 7) == [];
    forall e ensures e in PolicyEfforts(efforts) <==> e in efforts && e in SORTED_EFFORTS {
      PolicyEffortsFromAre(efforts, 0, e);
      assert SORTED_EFFORTS[0..] == SORTED_EFFORTS;
    }
    SameEfforts();
  }

  lemma SameEfforts()
    ensures forall e :: e in SORTED_EFFORTS <==> e in REASONING_EFFORTS
  {
  }

  lemma {:induction false} PolicyEffortsFromAre(efforts: seq<string>, i: nat, e: string)
    requires i <= |SORTED_EFFORTS|
    ensures e in PolicyEffortsFrom(efforts, i) <==> e in efforts && e in SORTED_EFFORTS[i..]
    decreases |SORTED_EFFORTS| - i
  {
    if i < |SORTED_EFFORTS| {
      PolicyEffortsFromAre(efforts, i + 1, e);
      assert SORTED_EFFORTS[i..] == [SORTED_EFFORTS[i]] + SORTED_EFFORTS[i + 1..];
    }
  }

  /** Whether every id the adoption of a model would derive is a safe identifier. */
  predicate IdsOk(config: Config, m: Model) {
    if config.kind == ZcodeSubscription then ResourceId(config.sourceId, m.slug, None).Some?
    else forall e :: e in PolicyEfforts(m.efforts) ==> ResourceId(config.sourceId, m.slug, Some(e)).Some?
  }

  function KeptEfforts(config: Config, m: Model): seq<string> {
    if config.kind == ZcodeSubscription then [] else m.efforts
  }

  function DecisionOf(config: Config, auth: Auth, m: Model): Decision
    requires Exclusion(config, auth, m).None? ==> IdsOk(config, m)
  {
    match Exclusion(config, auth, m)
    case Some(reason) => Discovered(m.slug, reason, m.efforts)
    case None =>
      PolicyEffortsAre(m.efforts);
      Routable(m.slug,
               if config.kind == ZcodeSubscription then ResourceId(config.sourceId, m.slug, None).value
               else ResourceId(config.sourceId, m.slug, Some(PolicyEfforts(m.efforts)[0])).value,
               m.efforts)
  }

  // ---------------------------------------------------------------- one observation, as values

  function Slugs(models: seq<Model>): set<string> { set m | m in models :: m.slug }

  /** A model that adopts but whose ids do not fit; the report is refused there. */
  predicate Bad(config: Config, auth: Auth, m: Model) { Exclusion(config, auth, m).None? && !IdsOk(config, m) }

  predicate AllFit(config: Config, auth: Auth, models: seq<Model>) {
    forall m :: m in models ==> !Bad(config, auth, m)
  }

  function AdoptAll(config: Config, auth: Auth, adopted: map<string, seq<string>>, models: seq<Model>)
    : map<string, seq<string>>
  {
    if models == [] then adopted
    else
      var m := models[|models| - 1];
      var before := AdoptAll(config, auth, adopted, models[..|models| - 1]);
      if Exclusion(config, auth, m).None? then before[m.slug := KeptEfforts(config, m)] else before
  }

  /** The efforts under which an observation adopts a slug, if it does. */
  function Adopting(config: Config, auth: Auth, models: seq<Model>, slug: string): Option<seq<string>> {
    if models == [] then None
    else
      var m := models[|models| - 1];
      if m.slug == slug && Exclusion(config, auth, m).None? then Some(KeptEfforts(config, m))
      else Adopting(config, auth, models[..|models| - 1], slug)
  }

  lemma {:induction false} AdoptAllAt(
    config: Config, auth: Auth, adopted: map<string, seq<string>>, models: seq<Model>, slug: string)
    ensures var after := AdoptAll(config, auth, adopted, models);
            match Adopting(config, auth, models, slug)
            case Some(efforts) => slug in after && after[slug] == efforts && slug in Slugs(models)
            case None => (slug in after <==> slug in adopted) && (slug in adopted ==> after[slug] == adopted[slug])
  {
    if models != [] { AdoptAllAt(config, auth, adopted, models[..|models| - 1], slug); }
  }

  lemma {:induction false} AdoptAllStep(
    config: Config, auth: Auth, adopted: map<string, seq<string>>, models: seq<Model>, i: nat)
    requires i < |models|
    ensures AdoptAll(config, auth, adopted, models[..i + 1])
         == (var before := AdoptAll(config, auth, adopted, models[..i]);
             if Exclusion(config, auth, models[i]).None? then before[models[i].slug := KeptEfforts(config, models[i])]
             else before)
    ensures Slugs(models[..i + 1]) == Slugs(models[..i]) + {models[i].slug}
  {
    assert models[..i + 1][..i] == models[..i];
  }

  function Misses(counts: map<string, nat>, slug: string): nat { if slug in counts then counts[slug] else 0 }

  predicate Expires(counts: map<string, nat>, slug: string) { Misses(counts, slug) + 1 >= RETIRE_AFTER_MISSES }

  /** The adopted slugs once the missing ones of `done` have been looked at. */
  function Survivors(adopted: map<string, seq<string>>, counts: map<string, nat>, done: set<string>)
    : map<string, seq<string>>
  {
    map slug | slug in adopted && !(slug in done && Expires(counts, slug)) :: adopted[slug]
  }

  function CountsAfter(counts: map<string, nat>, done: set<string>): map<string, nat> {
    map slug | slug in counts.Keys + done && !(slug in done && Expires(counts, slug)) ::
      if slug in done then Misses(counts, slug) + 1 else counts[slug]
  }

  lemma AfterNone(adopted: map<string, seq<string>>, counts: map<string, nat>)
    ensures Survivors(adopted, counts, {}) == adopted && CountsAfter(counts, {}) == counts
  {
  }

  lemma AfterOne(
    adopted: map<string, seq<string>>, counts: map<string, nat>, done: set<string>, slug: string)
    requires slug !in done && slug in adopted
    ensures if Expires(counts, slug)
            then Survivors(adopted, counts, done + {slug}) == Survivors(adopted, counts, done) - {slug}
                 && CountsAfter(counts, done + {slug}) == CountsAfter(counts, done) - {slug}
            else Survivors(adopted, counts, done + {slug}) == Survivors(adopted, counts, done)
                 && CountsAfter(counts, done + {slug}) == CountsAfter(counts, done)[slug := Misses(counts, slug) + 1]
    ensures Misses(CountsAfter(counts, done), slug) == Misses(counts, slug)
  {
  }

  /** Retirement history is a dictionary in insertion order, bounded by forgetting the oldest. */
  function Retire(retired: seq<string>, slug: string): seq<string> {
    var all := if slug in retired then retired else retired + [slug];
    if |all| <= MAX_RETAINED_RETIRED then all else all[|all| - MAX_RETAINED_RETIRED..]
  }

  /** The order in which texts are sorted. */
  predicate Before(a: string, b: string) {
    if b == "" then false
    else if a == "" then true
    else if a[0] != b[0] then a[0] < b[0]
    else Before(a[1..], b[1..])
  }

  predicate Ascending(s: seq<string>) { forall i, j :: 0 <= i < j < |s| ==> Before(s[i], s[j]) }

  lemma {:induction false} OneIsBefore(a: string, b: string)
    ensures Before(a, b) || Before(b, a) || a == b
  {
    if a != "" && b != "" && a[0] == b[0] {
      OneIsBefore(a[1..], b[1..]);
      if a[1..] == b[1..] { assert a == [a[0]] + a[1..] && b == [b[0]] + b[1..]; }
    }
  }

  lemma {:induction false} BeforeAll(a: string, b: string, c: string)
    requires Before(a, b) && Before(b, c)
    ensures Before(a, c)
  {
    if a != "" && a[0] == b[0] == c[0] { BeforeAll(a[1..], b[1..], c[1..]); }
  }

  /** The first of some texts in sorted order. */
  method First(texts: set<string>) returns (first: string)
    requires texts != {}
    ensures first in texts && forall x :: x in texts && x != first ==> Before(first, x)
  {
    hide Before;
    first :| first in texts;
    var todo := texts - {first};
    while todo != {}
      invariant todo <= texts && first in texts
      invariant forall x :: x in texts - todo && x != first ==> Before(first, x)
      decreases todo
    {
      var x :| x in todo;
      todo := todo - {x};
      OneIsBefore(first, x);
      if Before(x, first) {
        forall y | y in texts - todo && y != x ensures Before(x, y) {
          if y != first { BeforeAll(x, first, y); }
        }
        first := x;
      }
    }
  }

  function RetireAll(retired: seq<string>, order: seq<string>): seq<string> {
    if order == [] then retired else Retire(RetireAll(retired, order[..|order| - 1]), order[|order| - 1])
  }

  function Without(retired: seq<string>, gone: set<string>): seq<string> {
    if retired == [] then []
    else
      var before := Without(retired[..|retired| - 1], gone);
      if retired[|retired| - 1] in gone then before else before + [retired[|retired| - 1]]
  }

  predicate Distinct(s: seq<string>) { forall i, j :: 0 <= i < j < |s| ==> s[i] != s[j] }

  lemma RetireKeeps(retired: seq<string>, slug: string)
    requires Distinct(retired) && |retired| <= MAX_RETAINED_RETIRED
    ensures Distinct(Retire(retired, slug)) && |Retire(retired, slug)| <= MAX_RETAINED_RETIRED
    ensures slug !in retired ==> slug in Retire(retired, slug)
    ensures forall x :: x in Retire(retired, slug) ==> x in retired || x == slug
  {
    var all := if slug in retired then retired else retired + [slug];
    assert Distinct(all);
    assert slug !in retired ==> all[|all| - 1] == slug;
    if |all| > MAX_RETAINED_RETIRED && slug !in retired {
      var kept := all[|all| - MAX_RETAINED_RETIRED..];
      assert kept[|kept| - 1] == slug;
    }
  }

  lemma {:induction false} WithoutHolds(retired: seq<string>, gone: set<string>, x: string)
    ensures x in Without(retired, gone) <==> x in retired && x !in gone
  {
    if retired != [] {
      var front, last := retired[..|retired| - 1], retired[|retired| - 1];
      WithoutHolds(front, gone, x);
      assert retired == front + [last];
    }
  }

  lemma {:induction false} WithoutIsDistinct(retired: seq<string>, gone: set<string>)
    requires Distinct(retired)
    ensures Distinct(Without(retired, gone))
  {
    if retired != [] {
      var front, last := retired[..|retired| - 1], retired[|retired| - 1];
      WithoutIsDistinct(front, gone);
      WithoutHolds(front, gone, last);
      assert last !in front;
    }
  }

  lemma {:induction false} WithoutIsShorter(retired: seq<string>, gone: set<string>)
    ensures |Without(retired, gone)| <= |retired|
  {
    if retired != [] { WithoutIsShorter(retired[..|retired| - 1], gone); }
  }

  lemma WithoutIs(retired: seq<string>, gone: set<string>)
    ensures forall x :: x in Without(retired, gone) <==> x in retired && x !in gone
    ensures |Without(retired, gone)| <= |retired| && (Distinct(retired) ==> Distinct(Without(retired, gone)))
  {
    forall x ensures x in Without(retired, gone) <==> x in retired && x !in gone {
      WithoutHolds(retired, gone, x);
    }
    WithoutIsShorter(retired, gone);
    if Distinct(retired) { WithoutIsDistinct(retired, gone); }
  }

  // ---------------------------------------------------------------- one slug, as its own little machine

  /** An adopted slug: the efforts it was adopted under and its authenticated misses in a row. */
  datatype Tracked = Tracked(efforts: seq<string>, misses: nat)

  function TrackedOf(adopted: map<string, seq<string>>, counts: map<string, nat>, slug: string): Option<Tracked> {
    if slug in adopted then Some(Tracked(adopted[slug], Misses(counts, slug))) else None
  }

  /** What one observation does to one slug. */
  function StepSlug(config: Config, inv: Inventory, slug: string, t: Option<Tracked>): Option<Tracked> {
    var t1 := match Adopting(config, inv.auth, inv.models, slug)
              case Some(efforts) => Some(Tracked(efforts, if t.Some? then t.value.misses else 0))
              case None => t;
    if inv.auth != Authenticated || t1.None? then t1
    else if slug in Slugs(inv.models) then Some(t1.value.(misses := 0))
    else if t1.value.misses + 1 >= RETIRE_AFTER_MISSES then None
    else Some(t1.value.(misses := t1.value.misses + 1))
  }

  lemma {:induction false} UnauthenticatedStep(
    config: Config, inv: Inventory, adopted: map<string, seq<string>>, counts: map<string, nat>, slug: string)
    requires inv.auth != Authenticated && counts.Keys <= adopted.Keys
    ensures TrackedOf(AdoptAll(config, inv.auth, adopted, inv.models), counts, slug)
         == StepSlug(config, inv, slug, TrackedOf(adopted, counts, slug))
  {
    AdoptAllAt(config, inv.auth, adopted, inv.models, slug);
  }

  lemma {:induction false} AuthenticatedStep(
    config: Config, inv: Inventory, adopted: map<string, seq<string>>, counts: map<string, nat>, slug: string)
    requires inv.auth == Authenticated && counts.Keys <= adopted.Keys
    ensures var all := AdoptAll(config, inv.auth, adopted, inv.models);
            var present := Slugs(inv.models);
            var gone := all.Keys - present;
            TrackedOf(Survivors(all, counts, gone), CountsAfter(counts, gone) - present, slug)
            == StepSlug(config, inv, slug, TrackedOf(adopted, counts, slug))
  {
    AdoptAllAt(config, inv.auth, adopted, inv.models, slug);
  }

  /** One decision per reported model, in order. */
  function Listing(config: Config, auth: Auth, models: seq<Model>): seq<Decision>
    requires AllFit(config, auth, models)
  {
    if models == [] then []
    else
      var m := models[|models| - 1];
      assert m in models && !Bad(config, auth, m);
      Listing(config, auth, models[..|models| - 1]) + [DecisionOf(config, auth, m)]
  }

  lemma {:induction false} ListingAt(config: Config, auth: Auth, models: seq<Model>, i: nat)
    requires AllFit(config, auth, models) && i < |models|
    ensures |Listing(config, auth, models)| == |models|
    ensures !Bad(config, auth, models[i]) && Listing(config, auth, models)[i] == DecisionOf(config, auth, models[i])
  {
    hide DecisionOf, Exclusion, IdsOk;
    if |models| > 1 { ListingAt(config, auth, models[..|models| - 1], if i < |models| - 1 then i else 0); }
  }

  /** What the administrator's configuration lets a source adopt. */
  predicate Permits(config: Config, slug: string) {
    config.autoAdopt && config.allowedTracks == {} && slug in config.allowedModels
  }

  /** A model a source of this kind can be routed to: one policy effort at least, or the plan-managed lane. */
  predicate Servable(kind: Kind, m: Model) {
    if kind == ZcodeSubscription then m == Model(PLAN_MANAGED, [])
    else exists e :: e in m.efforts && e in REASONING_EFFORTS
  }

  /** Whether an observation under this sign-in state may adopt. */
  predicate Vouches(kind: Kind, auth: Auth) {
    auth == Authenticated || (kind == ZcodeSubscription && auth == Unverified)
  }

  /** Which reason a reported model is given, in terms of the configuration and the report. */
  lemma ReasonsAre(config: Config, auth: Auth, models: seq<Model>, i: nat)
    requires AllFit(config, auth, models) && i < |models|
    ensures |Listing(config, auth, models)| == |models|
    ensures var m, d := models[i], Listing(config, auth, models)[i];
            var reason := if d.Discovered? then Some(d.reason) else None;
            && d.slug == m.slug && d.efforts == m.efforts
            && (reason == Some(AdoptionDisabled) <==> !config.autoAdopt)
            && (reason == Some(LegacyTrackPolicy) <==> config.autoAdopt && config.allowedTracks != {})
            && (reason == Some(ModelNotAllowed) <==>
                  config.autoAdopt && config.allowedTracks == {} && m.slug !in config.allowedModels)
            && (reason == Some(PlanLaneUnverified) <==>
                  Permits(config, m.slug) && config.kind == ZcodeSubscription && !Servable(config.kind, m))
            && (reason == Some(SourceNotAuthenticated) <==>
                  Permits(config, m.slug) && !Vouches(config.kind, auth)
                  && (config.kind == ZcodeSubscription ==> Servable(config.kind, m)))
            && (reason == Some(EffortNotReported) <==>
                  Permits(config, m.slug) && config.kind == CodexSubscription && auth == Authenticated
                  && !Servable(config.kind, m))
            && (d.Routable? <==> Permits(config, m.slug) && Vouches(config.kind, auth) && Servable(config.kind, m))
  {
    ListingAt(config, auth, models, i);
  }

  /** The order of the policy efforts, as they are sorted. */
  lemma EffortsAscend()
    ensures forall i, j :: 0 <= i < j < |SORTED_EFFORTS| ==> Before(SORTED_EFFORTS[i], SORTED_EFFORTS[j])
  {
    assert Before("high", "low") && Before("low", "max") && Before("max", "medium") && Before("medium", "none");
    assert Before("none", "ultra") && Before("ultra", "xhigh");
    forall i, j | 0 <= i < j < |SORTED_EFFORTS| ensures Before(SORTED_EFFORTS[i], SORTED_EFFORTS[j]) {
      Ascends(i, j);
    }
  }

  lemma {:induction false} Ascends(i: nat, j: nat)
    requires i < j < |SORTED_EFFORTS|
    requires Before("high", "low") && Before("low", "max") && Before("max", "medium") && Before("medium", "none")
    requires Before("none", "ultra") && Before("ultra", "xhigh")
    ensures Before(SORTED_EFFORTS[i], SORTED_EFFORTS[j])
  {
    hide Before;
    assert Before(SORTED_EFFORTS[j - 1], SORTED_EFFORTS[j]);
    if i < j - 1 {
      Ascends(i, j - 1);
      BeforeAll(SORTED_EFFORTS[i], SORTED_EFFORTS[j - 1], SORTED_EFFORTS[j]);
    }
  }

  lemma {:induction false} FirstPolicyEffort(efforts: seq<string>, i: nat) returns (k: nat)
    requires i <= |SORTED_EFFORTS| && PolicyEffortsFrom(efforts, i) != []
    ensures i <= k < |SORTED_EFFORTS| && SORTED_EFFORTS[k] == PolicyEffortsFrom(efforts, i)[0]
    ensures SORTED_EFFORTS[k] in efforts && forall l :: i <= l < k ==> SORTED_EFFORTS[l] !in efforts
    decreases |SORTED_EFFORTS| - i
  {
    if SORTED_EFFORTS[i] in efforts { return i; }
    k := FirstPolicyEffort(efforts, i + 1);
  }

  /** The alphabetically first policy effort among those advertised. */
  predicate LeastEffort(efforts: seq<string>, e: string) {
    && e in efforts && PolicyEffort(e)
    && forall x :: x in efforts && PolicyEffort(x) && x != e ==> Before(e, x)
  }

  /** A routable model is listed under its own id: the lane's, or the one of its first advertised policy effort. */
  lemma RoutedUnder(config: Config, auth: Auth, models: seq<Model>, i: nat)
    requires AllFit(config, auth, models) && i < |models|
    ensures |Listing(config, auth, models)| == |models|
    ensures var m, d := models[i], Listing(config, auth, models)[i];
            d.Routable? ==>
              if config.kind == ZcodeSubscription then ResourceId(config.sourceId, m.slug, None) == Some(d.resourceId)
              else exists e :: LeastEffort(m.efforts, e)
                               && ResourceId(config.sourceId, m.slug, Some(e)) == Some(d.resourceId)
  {
    ListingAt(config, auth, models, i);
    var m := models[i];
    if Exclusion(config, auth, m).None? && config.kind != ZcodeSubscription {
      PolicyEffortsAre(m.efforts);
      var k := FirstPolicyEffort(m.efforts, 0);
      var e := SORTED_EFFORTS[k];
      EffortsAscend();
      SameEfforts();
      assert LeastEffort(m.efforts, e);
    }
  }

  function RoutableNow(config: Config, auth: Auth, models: seq<Model>): set<string> {
    set m | m in models && Exclusion(config, auth, m).None? :: m.slug
  }

  lemma {:induction false} ReadNothing(config: Config, auth: Auth, adopted: map<string, seq<string>>)
    ensures AdoptAll(config, auth, adopted, []) == adopted && Slugs([]) == {}
    ensures AllFit(config, auth, []) && Listing(config, auth, []) == [] && RoutableNow(config, auth, []) == {}
  {
  }

  lemma {:induction false} ReadOne(config: Config, auth: Auth, models: seq<Model>, i: nat)
    requires i < |models| && AllFit(config, auth, models[..i])
    ensures AllFit(config, auth, models[..i + 1]) <==> !Bad(config, auth, models[i])
    ensures Bad(config, auth, models[i]) ==> !AllFit(config, auth, models)
    ensures !Bad(config, auth, models[i]) ==>
              Listing(config, auth, models[..i + 1])
              == Listing(config, auth, models[..i]) + [DecisionOf(config, auth, models[i])]
    ensures RoutableNow(config, auth, models[..i + 1])
         == RoutableNow(config, auth, models[..i])
            + (if Exclusion(config, auth, models[i]).None? then {models[i].slug} else {})
  {
    hide Exclusion, IdsOk, DecisionOf;
    assert models[..i + 1] == models[..i] + [models[i]];
    assert models[..i + 1][..i] == models[..i];
  }

  // ---------------------------------------------------------------- the source's state

  /** One source's part of a report, and the worker that sent it. */
  datatype Report = Report(workerId: string, sourceId: string, kind: Kind, adapterId: string, inventory: Inventory)

  function AdapterId(config: Config): string {
    (match config.kind { case CodexSubscription => "codex" case ZcodeSubscription => "zcode" }) + ":" + config.sourceId
  }

  /** Whether a report is from the worker and adapter this source is granted to. */
  predicate Accepted(config: Config, report: Report) {
    && report.sourceId == config.sourceId && report.workerId == config.workerId
    && report.kind == config.kind && report.adapterId == AdapterId(config)
  }

  lemma AcceptedIs(config: Config, report: Report)
    ensures Accepted(config, report) <==>
              && report.sourceId == config.sourceId && report.workerId == config.workerId
              && report.kind == config.kind
              && report.adapterId == (if config.kind.CodexSubscription? then "codex:" else "zcode:") + config.sourceId
  {
    assert AdapterId(config) == (if config.kind.CodexSubscription? then "codex:" else "zcode:") + config.sourceId;
  }

  /** What a run of reports lets this source observe. */
  function Observations(config: Config, reports: seq<Report>): seq<Inventory> {
    if reports == [] then []
    else
      var last := reports[|reports| - 1];
      Observations(config, reports[..|reports| - 1]) + (if Accepted(config, last) then [last.inventory] else [])
  }

  lemma {:induction false} ObservationsStep(config: Config, reports: seq<Report>, i: nat)
    requires i < |reports|
    ensures Observations(config, reports[..i + 1])
         == if Accepted(config, reports[i]) then Observations(config, reports[..i]) + [reports[i].inventory]
            else Observations(config, reports[..i])
  {
    assert reports[..i + 1][..i] == reports[..i];
  }

  class SourceState {
    var config: Config
    var inventory: Option<Inventory>
    var routable: set<string>
    var adopted: map<string, seq<string>>
    var missCounts: map<string, nat>
    var retired: seq<string>
    var decisions: seq<Decision>

    /** Misses are counted for adopted slugs only, and the retirement history is a bounded set. */
    ghost predicate Valid()
      reads this
    {
      && missCounts.Keys <= adopted.Keys
      && (forall slug :: slug in missCounts ==> 0 < missCounts[slug] < RETIRE_AFTER_MISSES)
      && Distinct(retired) && |retired| <= MAX_RETAINED_RETIRED
    }

    ghost function Track(slug: string): Option<Tracked>
      reads this
    {
      TrackedOf(adopted, missCounts, slug)
    }

    constructor (config: Config)
      ensures Valid() && this.config == config && inventory == None && decisions == [] && routable == {}
      ensures adopted == map[] && missCounts == map[] && retired == []
    {
      this.config, inventory := config, None;
      routable, adopted, missCounts, retired, decisions := {}, map[], map[], [], [];
    }

    /** The loop over the reported models: adoption, and one decision each. */
    method AdoptReported(inv: Inventory)
      returns (r: Result<seq<Decision>, string>, routableNow: set<string>, present: set<string>)
      modifies this`adopted
      ensures r.Ok? <==> AllFit(config, inv.auth, inv.models)
      ensures r.Ok? ==>
                && adopted == AdoptAll(config, inv.auth, old(adopted), inv.models)
                && present == Slugs(inv.models) && routableNow == RoutableNow(config, inv.auth, inv.models)
                && r.value == Listing(config, inv.auth, inv.models)
      ensures r.Err? ==>
                exists k :: 0 <= k < |inv.models| && Bad(config, inv.auth, inv.models[k])
                            && AllFit(config, inv.auth, inv.models[..k]) && r.error == inv.models[k].slug
                            && adopted == AdoptAll(config, inv.auth, old(adopted), inv.models[..k])
    {
      hide AdoptAll, IdsOk, Exclusion, Slugs, AllFit, Listing, RoutableNow, KeptEfforts, DecisionOf;
      var models := inv.models;
      var listed: seq<Decision>;
      listed, routableNow, present := [], {}, {};
      ReadNothing(config, inv.auth, adopted);
      assert models[..0] == [];
      for i := 0 to |models|
        invariant AllFit(config, inv.auth, models[..i])
        invariant adopted == AdoptAll(config, inv.auth, old(adopted), models[..i])
        invariant present == Slugs(models[..i]) && listed == Listing(config, inv.auth, models[..i])
        invariant routableNow == RoutableNow(config, inv.auth, models[..i])
      {
        var m := models[i];
        AdoptAllStep(config, inv.auth, old(adopted), models, i);
        ReadOne(config, inv.auth, models, i);
        present := present + {m.slug};
        if Exclusion(config, inv.auth, m).None? {
          if !IdsOk(config, m) { return Err(m.slug), routableNow, present; }
          routableNow := routableNow + {m.slug};
          adopted := adopted[m.slug := KeptEfforts(config, m)];
        }
        listed := listed + [DecisionOf(config, inv.auth, m)];
      }
      assert models[..|models|] == models;
      return Ok(listed), routableNow, present;
    }

    /** Each adopted slug the observation lacks accrues a miss, in sorted order; the third in a row retires it. */
    method CountMisses(present: set<string>) returns (ghost order: seq<string>)
      requires Valid()
      modifies this`adopted, this`missCounts, this`retired
      ensures Valid()
      ensures adopted == Survivors(old(adopted), old(missCounts), old(adopted).Keys - present)
      ensures missCounts == CountsAfter(old(missCounts), old(adopted).Keys - present)
      ensures retired == RetireAll(old(retired), order) && Ascending(order)
      ensures forall slug ::
                slug in order <==> slug in old(adopted) && slug !in present && Expires(old(missCounts), slug)
    {
      hide Survivors, CountsAfter, RetireAll, Distinct, Retire, Before;
      ghost var adopted0, counts0 := adopted, missCounts;
      var missing := adopted.Keys - present;
      var todo := missing;
      ghost var done: set<string> := {};
      order := [];
      AfterNone(adopted, missCounts);
      RetireNothing(retired);
      while todo != {}
        invariant done !! todo && done + todo == missing
        invariant adopted == Survivors(adopted0, counts0, done) && missCounts == CountsAfter(counts0, done)
        invariant retired == RetireAll(old(retired), order) && Ascending(order)
        invariant forall x, y :: x in done && y in todo ==> Before(x, y)
        invariant Distinct(retired) && |retired| <= MAX_RETAINED_RETIRED
        invariant forall slug :: slug in order ==> slug in done && Expires(counts0, slug)
        invariant forall slug :: slug in done && Expires(counts0, slug) ==> slug in order
        decreases todo
      {
        var slug := First(todo);
        todo := todo - {slug};
        AfterOne(adopted0, counts0, done, slug);
        var misses := Misses(missCounts, slug) + 1;
        if misses >= RETIRE_AFTER_MISSES {
          adopted := adopted - {slug};
          RetireKeeps(retired, slug);
          RetireMore(old(retired), order, slug);
          retired := Retire(retired, slug);
          missCounts := missCounts - {slug};
          order := order + [slug];
        } else {
          missCounts := missCounts[slug := misses];
        }
        done := done + {slug};
      }
      assert done == missing;
      CountsStayValid(adopted0, counts0, missing);
    }

    /** One observation of this source. An id that does not fit refuses the report where it stands. */
    method Decide(inv: Inventory) returns (r: Result<seq<Decision>, string>, ghost order: seq<string>)
      requires Valid()
      modifies this`adopted, this`missCounts, this`retired, this`routable, this`decisions
      ensures Valid()
      ensures r.Ok? <==> AllFit(config, inv.auth, inv.models)
      ensures r.Ok? ==> decisions == r.value == Listing(config, inv.auth, inv.models)
      ensures r.Ok? ==> forall slug :: Track(slug) == StepSlug(config, inv, slug, old(Track(slug)))
      ensures r.Ok? && inv.auth != Authenticated ==>
                missCounts == old(missCounts) && retired == old(retired) && routable == old(routable)
      ensures r.Ok? && inv.auth == Authenticated ==>
                && routable == RoutableNow(config, inv.auth, inv.models)
                && Ascending(order)
                && (forall slug :: slug in order <==>
                      slug !in Slugs(inv.models) && old(Track(slug)).Some?
                      && old(Track(slug)).value.misses + 1 >= RETIRE_AFTER_MISSES)
                && retired == Without(RetireAll(old(retired), order), Slugs(inv.models) * adopted.Keys)
      ensures r.Err? ==>
                && missCounts == old(missCounts) && retired == old(retired) && routable == old(routable)
                && decisions == old(decisions)
                && exists k :: 0 <= k < |inv.models| && Bad(config, inv.auth, inv.models[k])
                               && adopted == AdoptAll(config, inv.auth, old(adopted), inv.models[..k])
    {
      hide AdoptAll, Bad, AllFit, Listing, RoutableNow, Slugs, StepSlug, TrackedOf, RetireAll, Without, Distinct,
           Survivors, CountsAfter, Expires, Ascending;
      order := [];
      ghost var adopted0, counts0 := adopted, missCounts;
      var listed, routableNow, present := AdoptReported(inv);
      AdoptionGrows(config, inv.auth, adopted0, inv.models);
      if listed.Err? {
        ghost var k :| 0 <= k < |inv.models| && Bad(config, inv.auth, inv.models[k])
                       && adopted == AdoptAll(config, inv.auth, adopted0, inv.models[..k]);
        AdoptionGrows(config, inv.auth, adopted0, inv.models[..k]);
        return Err(listed.error), order;
      }
      if inv.auth == Authenticated {
        ghost var all := adopted;
        order := CountMisses(present);
        var seen := present * adopted.Keys;
        WithoutIs(retired, seen);
        CountsStayValid(all, counts0, all.Keys - present);
        SeenCounts(all, counts0, present);
        missCounts := missCounts - seen;
        retired := RemoveAll(retired, seen);
        routable := routableNow;
        forall slug ensures Track(slug) == StepSlug(config, inv, slug, old(Track(slug))) {
          AuthenticatedStep(config, inv, adopted0, counts0, slug);
        }
        forall slug ensures slug in order <==>
                      slug !in Slugs(inv.models) && old(Track(slug)).Some?
                      && old(Track(slug)).value.misses + 1 >= RETIRE_AFTER_MISSES {
          OrderIs(config, inv, adopted0, counts0, slug);
        }
      } else {
        forall slug ensures Track(slug) == StepSlug(config, inv, slug, old(Track(slug))) {
          UnauthenticatedStep(config, inv, adopted0, counts0, slug);
        }
      }
      decisions := listed.value;
      return Ok(listed.value), order;
    }

    /** A report is heeded only from the granted worker, kind and adapter. */
    method Receive(report: Report) returns (r: Result<bool, string>, ghost order: seq<string>)
      requires Valid()
      modifies this
      ensures Valid() && config == old(config)
      ensures r.Ok? ==> r.value == Accepted(config, report)
      ensures r.Ok? ==>
                (r.value <==>
                   && report.sourceId == config.sourceId && report.workerId == config.workerId
                   && report.kind == config.kind
                   && report.adapterId
                      == (if config.kind.CodexSubscription? then "codex:" else "zcode:") + config.sourceId)
      ensures !Accepted(config, report) ==>
                && r.Ok? && inventory == old(inventory) && retired == old(retired)
                && routable == old(routable) && decisions == old(decisions)
                && forall slug :: Track(slug) == old(Track(slug))
      ensures Accepted(config, report) ==>
                && inventory == Some(report.inventory)
                && (r.Ok? <==> AllFit(config, report.inventory.auth, report.inventory.models))
      ensures r.Ok? && r.value ==>
                && (forall slug :: Track(slug) == StepSlug(config, report.inventory, slug, old(Track(slug))))
                && (report.inventory.auth != Authenticated ==> retired == old(retired))
                && (report.inventory.auth == Authenticated ==>
                      && Ascending(order)
                      && (forall slug :: slug in order <==>
                            slug !in Slugs(report.inventory.models) && old(Track(slug)).Some?
                            && old(Track(slug)).value.misses + 1 >= RETIRE_AFTER_MISSES)
                      && retired
                         == Without(RetireAll(old(retired), order), Slugs(report.inventory.models) * adopted.Keys))
    {
      hide StepSlug, AllFit, Listing, RoutableNow, Slugs, Without, RetireAll, Distinct, AdapterId, TrackedOf,
           Ascending;
      order := [];
      AcceptedIs(config, report);
      if !Accepted(config, report) { return Ok(false), order; }
      inventory := Some(report.inventory);
      var listed, retirement := Decide(report.inventory);
      order := retirement;
      if listed.Err? { return Err(listed.error), order; }
      return Ok(true), order;
    }

    /** Adopts the current grant: the history survives only while the worker and the kind stay the same. */
    static method Sync(existing: Option<SourceState>, config: Config) returns (state: SourceState)
      requires existing.Some? ==> existing.value.Valid()
      modifies (if existing.Some? then {existing.value} else {})`config
      ensures state.Valid() && state.config == config
      ensures if existing.Some? && old(existing.value.config.workerId) == config.workerId
                 && old(existing.value.config.kind) == config.kind
              then state == existing.value
              else fresh(state) && state.inventory == None && state.retired == [] && state.adopted == map[]
    {
      if existing.Some? && existing.value.config.workerId == config.workerId
         && existing.value.config.kind == config.kind {
        state := existing.value;
      } else {
        state := new SourceState(config);
      }
      state.config := config;
    }
  }

  /** Forgets entries one by one, as a dictionary does. */
  method RemoveAll(retired: seq<string>, gone: set<string>) returns (left: seq<string>)
    ensures left == Without(retired, gone)
  {
    hide Without;
    left := [];
    WithoutStep(retired, gone, 0);
    for i := 0 to |retired|
      invariant left == Without(retired[..i], gone)
    {
      WithoutStep(retired, gone, i);
      if retired[i] !in gone { left := left + [retired[i]]; }
    }
    assert retired[..|retired|] == retired;
  }

  lemma {:induction false} WithoutStep(retired: seq<string>, gone: set<string>, i: nat)
    requires i <= |retired|
    ensures Without([], gone) == [] && retired[..0] == []
    ensures i < |retired| ==>
              Without(retired[..i + 1], gone)
              == Without(retired[..i], gone) + (if retired[i] in gone then [] else [retired[i]])
  {
    if i < |retired| { assert retired[..i + 1][..i] == retired[..i]; }
  }

  lemma {:induction false} RetireNothing(retired: seq<string>)
    ensures RetireAll(retired, []) == retired
  {
  }

  lemma {:induction false} RetireMore(retired: seq<string>, order: seq<string>, slug: string)
    ensures RetireAll(retired, order + [slug]) == Retire(RetireAll(retired, order), slug)
  {
    assert (order + [slug])[..|order|] == order;
  }

  lemma CountsStayValid(
    adopted: map<string, seq<string>>, counts: map<string, nat>, missing: set<string>)
    requires counts.Keys <= adopted.Keys && missing <= adopted.Keys
    requires forall slug :: slug in counts ==> 0 < counts[slug] < RETIRE_AFTER_MISSES
    ensures var after := CountsAfter(counts, missing);
            && after.Keys <= Survivors(adopted, counts, missing).Keys
            && forall slug :: slug in after ==> 0 < after[slug] < RETIRE_AFTER_MISSES
  {
  }

  lemma SeenCounts(adopted: map<string, seq<string>>, counts: map<string, nat>, present: set<string>)
    requires counts.Keys <= adopted.Keys
    ensures var missing := adopted.Keys - present;
            CountsAfter(counts, missing) - present * Survivors(adopted, counts, missing).Keys
            == CountsAfter(counts, missing) - present
  {
  }

  lemma {:induction false} AdoptionGrows(
    config: Config, auth: Auth, adopted: map<string, seq<string>>, models: seq<Model>)
    ensures adopted.Keys <= AdoptAll(config, auth, adopted, models).Keys
  {
    if models != [] { AdoptionGrows(config, auth, adopted, models[..|models| - 1]); }
  }

  lemma {:induction false} OrderIs(
    config: Config, inv: Inventory, adopted: map<string, seq<string>>, counts: map<string, nat>, slug: string)
    requires counts.Keys <= adopted.Keys
    ensures var all := AdoptAll(config, inv.auth, adopted, inv.models);
            var t := TrackedOf(adopted, counts, slug);
            slug in all && slug !in Slugs(inv.models) && Expires(counts, slug) <==>
            slug !in Slugs(inv.models) && t.Some? && t.value.misses + 1 >= RETIRE_AFTER_MISSES
  {
    AdoptAllAt(config, inv.auth, adopted, inv.models, slug);
  }

  // ---------------------------------------------------------------- any run of observations

  /** What a run of observations under one configuration leaves of a slug. */
  function TrackAll(config: Config, invs: seq<Inventory>, slug: string): Option<Tracked> {
    if invs == [] then None
    else StepSlug(config, invs[|invs| - 1], slug, TrackAll(config, invs[..|invs| - 1], slug))
  }

  function Authed(invs: seq<Inventory>): seq<Inventory> {
    if invs == [] then []
    else
      var last := invs[|invs| - 1];
      Authed(invs[..|invs| - 1]) + (if last.auth == Authenticated then [last] else [])
  }

  predicate Adopts(config: Config, inv: Inventory, slug: string) {
    Adopting(config, inv.auth, inv.models, slug).Some?
  }

  predicate Lacks(inv: Inventory, slug: string) { slug !in Slugs(inv.models) }

  /** Three observations in a row, somewhere after `i`, lack the slug. */
  ghost predicate MissedThrice(invs: seq<Inventory>, slug: string, i: nat) {
    exists k :: i < k < |invs| - 2 && Lacks(invs[k], slug) && Lacks(invs[k + 1], slug) && Lacks(invs[k + 2], slug)
  }

  /** Some observation adopts the slug, and three misses in a row never follow it. */
  ghost predicate Deserves(config: Config, invs: seq<Inventory>, slug: string) {
    exists i: nat :: i < |invs| && Adopts(config, invs[i], slug) && !MissedThrice(invs, slug, i)
  }

  /** An observation lists the slug under a sign-in state and with efforts that its kind of source adopts from. */
  ghost predicate Offers(kind: Kind, inv: Inventory, slug: string) {
    Vouches(kind, inv.auth) && exists m :: m in inv.models && m.slug == slug && Servable(kind, m)
  }

  /** Some observation offers the slug, and three misses in a row never follow it. */
  ghost predicate Offered(kind: Kind, invs: seq<Inventory>, slug: string) {
    exists i: nat :: i < |invs| && Offers(kind, invs[i], slug) && !MissedThrice(invs, slug, i)
  }

  lemma ExclusionIs(config: Config, auth: Auth, m: Model)
    ensures Exclusion(config, auth, m).None? <==>
            Permits(config, m.slug) && Vouches(config.kind, auth) && Servable(config.kind, m)
  {
  }

  lemma {:induction false} AdoptingIff(config: Config, auth: Auth, models: seq<Model>, slug: string)
    ensures var efforts := Adopting(config, auth, models, slug);
            && (efforts.Some? <==>
                  && Permits(config, slug) && Vouches(config.kind, auth)
                  && exists m :: m in models && m.slug == slug && Servable(config.kind, m))
            && (efforts.Some? ==>
                  Model(slug, efforts.value) in models && Servable(config.kind, Model(slug, efforts.value)))
  {
    hide Exclusion, Permits, Servable, Vouches;
    if models != [] {
      var front, last := models[..|models| - 1], models[|models| - 1];
      AdoptingIff(config, auth, front, slug);
      ExclusionIs(config, auth, last);
      PlanHasNoEfforts(config, last);
      assert models == front + [last];
      assert last in models;
    }
  }

  lemma PlanHasNoEfforts(config: Config, m: Model)
    ensures Servable(config.kind, m) ==> KeptEfforts(config, m) == m.efforts
  {
  }

  /** An observation adopts a slug exactly if it is permitted and offered, with efforts under which it is listed. */
  lemma AdoptsIff(config: Config, inv: Inventory, slug: string)
    ensures Adopts(config, inv, slug) <==> Permits(config, slug) && Offers(config.kind, inv, slug)
    ensures Adopts(config, inv, slug) ==>
              var efforts := Adopting(config, inv.auth, inv.models, slug).value;
              Model(slug, efforts) in inv.models && Servable(config.kind, Model(slug, efforts))
  {
    hide Permits, Servable, Vouches, Adopting;
    AdoptingIff(config, inv.auth, inv.models, slug);
  }

  lemma DeservesIff(config: Config, invs: seq<Inventory>, slug: string)
    ensures Deserves(config, invs, slug) <==> Permits(config, slug) && Offered(config.kind, invs, slug)
  {
    hide MissedThrice, Offers, Permits, Adopts;
    forall i: nat | i < |invs|
      ensures Adopts(config, invs[i], slug) <==> Permits(config, slug) && Offers(config.kind, invs[i], slug)
    {
      AdoptsIff(config, invs[i], slug);
    }
    if Deserves(config, invs, slug) {
      var i: nat :| i < |invs| && Adopts(config, invs[i], slug) && !MissedThrice(invs, slug, i);
      assert Offers(config.kind, invs[i], slug) && !MissedThrice(invs, slug, i);
    }
    if Permits(config, slug) && Offered(config.kind, invs, slug) {
      var i: nat :| i < |invs| && Offers(config.kind, invs[i], slug) && !MissedThrice(invs, slug, i);
      assert Adopts(config, invs[i], slug) && !MissedThrice(invs, slug, i);
    }
  }

  /** Whatever is observed of a source of any kind, it adopts only what is permitted and was offered once. */
  lemma {:induction false} OnlyPermitted(config: Config, invs: seq<Inventory>, slug: string)
    ensures TrackAll(config, invs, slug).Some? ==>
              Permits(config, slug) && exists i :: 0 <= i < |invs| && Offers(config.kind, invs[i], slug)
  {
    hide Offers, Permits, Slugs, Adopting;
    if invs != [] {
      var front, last := invs[..|invs| - 1], invs[|invs| - 1];
      OnlyPermitted(config, front, slug);
      AdoptsIff(config, last, slug);
      if TrackAll(config, front, slug).Some? {
        var i :| 0 <= i < |front| && Offers(config.kind, front[i], slug);
        assert Offers(config.kind, invs[i], slug);
      }
    }
  }

  /** How many of the latest observations in a row lack the slug. */
  function Trailing(invs: seq<Inventory>, slug: string): nat {
    if invs == [] || !Lacks(invs[|invs| - 1], slug) then 0 else Trailing(invs[..|invs| - 1], slug) + 1
  }

  /** The efforts of the latest adopting observation. */
  function LatestEfforts(config: Config, invs: seq<Inventory>, slug: string): seq<string> {
    if invs == [] then []
    else
      var last := invs[|invs| - 1];
      match Adopting(config, last.auth, last.models, slug)
      case Some(efforts) => efforts
      case None => LatestEfforts(config, invs[..|invs| - 1], slug)
  }

  lemma {:induction false} AdoptingIsListed(config: Config, auth: Auth, models: seq<Model>, slug: string)
    ensures Adopting(config, auth, models, slug).Some? ==> slug in Slugs(models)
    ensures config.kind == CodexSubscription && auth != Authenticated ==> Adopting(config, auth, models, slug) == None
  {
    if models != [] { AdoptingIsListed(config, auth, models[..|models| - 1], slug); }
  }

  lemma {:induction false} TrailingIs(invs: seq<Inventory>, slug: string)
    ensures Trailing(invs, slug) <= |invs|
    ensures forall k :: |invs| - Trailing(invs, slug) <= k < |invs| ==> Lacks(invs[k], slug)
    ensures Trailing(invs, slug) < |invs| ==> !Lacks(invs[|invs| - Trailing(invs, slug) - 1], slug)
  {
    hide Lacks;
    if invs != [] && Lacks(invs[|invs| - 1], slug) { TrailingIs(invs[..|invs| - 1], slug); }
  }

  /** A new observation that lists the slug changes no earlier verdict. */
  lemma SeenAgain(invs: seq<Inventory>, inv: Inventory, slug: string, i: nat)
    requires i < |invs| && !Lacks(inv, slug)
    ensures MissedThrice(invs + [inv], slug, i) <==> MissedThrice(invs, slug, i)
  {
    hide Lacks;
    var all := invs + [inv];
    if MissedThrice(all, slug, i) {
      var k :| i < k < |all| - 2 && Lacks(all[k], slug) && Lacks(all[k + 1], slug) && Lacks(all[k + 2], slug);
      assert all[k + 2] != inv ==> k + 2 < |invs|;
      assert k + 2 != |invs|;
      assert Lacks(invs[k], slug) && Lacks(invs[k + 1], slug) && Lacks(invs[k + 2], slug);
    }
    if MissedThrice(invs, slug, i) {
      var k :| i < k < |invs| - 2 && Lacks(invs[k], slug) && Lacks(invs[k + 1], slug) && Lacks(invs[k + 2], slug);
      assert Lacks(all[k], slug) && Lacks(all[k + 1], slug) && Lacks(all[k + 2], slug);
    }
  }

  /** A new observation that lacks the slug completes a third miss exactly when two precede it. */
  lemma {:induction false} MissedAgain(invs: seq<Inventory>, inv: Inventory, slug: string, i: nat)
    requires i < |invs| && Lacks(inv, slug) && !Lacks(invs[i], slug)
    ensures MissedThrice(invs + [inv], slug, i) <==> MissedThrice(invs, slug, i) || Trailing(invs, slug) >= 2
  {
    hide Lacks, Trailing, MissedThrice;
    TrailingIs(invs, slug);
    if Trailing(invs, slug) >= 2 { ThirdMiss(invs, inv, slug, i); }
    if MissedThrice(invs, slug, i) { MissedStays(invs, inv, slug, i); }
    if MissedThrice(invs + [inv], slug, i) && Trailing(invs, slug) < 2 { MissedBefore(invs, inv, slug, i); }
  }

  lemma ThirdMiss(invs: seq<Inventory>, inv: Inventory, slug: string, i: nat)
    requires i < |invs| - 2 && Lacks(inv, slug) && Lacks(invs[|invs| - 1], slug) && Lacks(invs[|invs| - 2], slug)
    ensures MissedThrice(invs + [inv], slug, i)
  {
    hide Lacks;
    var all, k := invs + [inv], |invs| - 2;
    assert Lacks(all[k], slug) && Lacks(all[k + 1], slug) && Lacks(all[k + 2], slug);
  }

  lemma MissedStays(invs: seq<Inventory>, inv: Inventory, slug: string, i: nat)
    requires MissedThrice(invs, slug, i)
    ensures MissedThrice(invs + [inv], slug, i)
  {
    hide Lacks;
    var all := invs + [inv];
    var k :| i < k < |invs| - 2 && Lacks(invs[k], slug) && Lacks(invs[k + 1], slug) && Lacks(invs[k + 2], slug);
    assert Lacks(all[k], slug) && Lacks(all[k + 1], slug) && Lacks(all[k + 2], slug);
  }

  lemma {:induction false} MissedBefore(invs: seq<Inventory>, inv: Inventory, slug: string, i: nat)
    requires MissedThrice(invs + [inv], slug, i) && Trailing(invs, slug) < 2
    ensures MissedThrice(invs, slug, i)
  {
    hide Lacks;
    var all, n := invs + [inv], |invs|;
    var k :| i < k < n - 1 && Lacks(all[k], slug) && Lacks(all[k + 1], slug) && Lacks(all[k + 2], slug);
    assert Lacks(invs[k], slug) && Lacks(invs[k + 1], slug);
    if k == n - 2 { TwoTrailing(invs, slug); }
    assert all[k + 2] == invs[k + 2];
  }

  lemma {:induction false} TwoTrailing(invs: seq<Inventory>, slug: string)
    requires |invs| >= 2 && Lacks(invs[|invs| - 1], slug) && Lacks(invs[|invs| - 2], slug)
    ensures Trailing(invs, slug) >= 2
  {
    hide Lacks;
    var front := invs[..|invs| - 1];
    assert front[|front| - 1] == invs[|invs| - 2];
  }

  /** The state machine of a slug and its history agree, for authenticated observations. */
  lemma {:induction false} TrackIs(config: Config, invs: seq<Inventory>, slug: string)
    requires forall i :: 0 <= i < |invs| ==> invs[i].auth == Authenticated
    ensures TrackAll(config, invs, slug).Some? <==> Deserves(config, invs, slug)
    ensures TrackAll(config, invs, slug).Some? ==>
              && TrackAll(config, invs, slug).value.misses == Trailing(invs, slug) < RETIRE_AFTER_MISSES
              && TrackAll(config, invs, slug).value.efforts == LatestEfforts(config, invs, slug)
  {
    hide Adopting, Slugs, MissedThrice;
    if invs != [] {
      var front, last := invs[..|invs| - 1], invs[|invs| - 1];
      assert front + [last] == invs;
      TrackIs(config, front, slug);
      AdoptingIsListed(config, last.auth, last.models, slug);
      DeservesStep(config, front, last, slug);
    }
  }

  lemma {:induction false} DeservesStep(config: Config, front: seq<Inventory>, last: Inventory, slug: string)
    requires Deserves(config, front, slug) ==> Trailing(front, slug) < RETIRE_AFTER_MISSES
    ensures var invs := front + [last];
            Deserves(config, invs, slug) <==>
            Adopts(config, last, slug)
            || (Deserves(config, front, slug) && (Lacks(last, slug) ==> Trailing(front, slug) < 2))
  {
    hide Adopting, Slugs, MissedThrice, Lacks;
    var invs, n := front + [last], |front|;
    AdoptingIsListed(config, last.auth, last.models, slug);
    assert !MissedThrice(invs, slug, n) by { NotMissedYet(invs, slug); }
    assert invs[n] == last;
    forall i: nat | i < n && Adopts(config, front[i], slug)
      ensures MissedThrice(invs, slug, i) <==>
              MissedThrice(front, slug, i) || (Lacks(last, slug) && Trailing(front, slug) >= 2)
      ensures invs[i] == front[i]
    {
      ListedWhenAdopted(config, front[i], slug);
      if Lacks(last, slug) { MissedAgain(front, last, slug, i); } else { SeenAgain(front, last, slug, i); }
    }
    ListedWhenAdopted(config, last, slug);
    if Deserves(config, invs, slug) {
      var i: nat :| i < |invs| && Adopts(config, invs[i], slug) && !MissedThrice(invs, slug, i);
      if i < n { assert Adopts(config, front[i], slug) && !MissedThrice(front, slug, i); }
    }
    if Deserves(config, front, slug) && (Lacks(last, slug) ==> Trailing(front, slug) < 2) {
      var i: nat :| i < n && Adopts(config, front[i], slug) && !MissedThrice(front, slug, i);
      assert Adopts(config, invs[i], slug) && !MissedThrice(invs, slug, i);
    }
  }

  lemma NotMissedYet(invs: seq<Inventory>, slug: string)
    requires invs != []
    ensures !MissedThrice(invs, slug, |invs| - 1)
  {
  }

  lemma ListedWhenAdopted(config: Config, inv: Inventory, slug: string)
    ensures Adopts(config, inv, slug) ==> !Lacks(inv, slug)
  {
    AdoptingIsListed(config, inv.auth, inv.models, slug);
  }

  /** For a physical-model source, unauthenticated observations change nothing. */
  lemma {:induction false} OnlyAuthenticatedCount(config: Config, invs: seq<Inventory>, slug: string)
    requires config.kind == CodexSubscription
    ensures TrackAll(config, invs, slug) == TrackAll(config, Authed(invs), slug)
    ensures forall i :: 0 <= i < |Authed(invs)| ==> Authed(invs)[i].auth == Authenticated
  {
    hide Adopting, Slugs;
    if invs != [] {
      var front, last := invs[..|invs| - 1], invs[|invs| - 1];
      OnlyAuthenticatedCount(config, front, slug);
      AdoptingIsListed(config, last.auth, last.models, slug);
      if last.auth == Authenticated {
        assert Authed(invs)[..|Authed(front)|] == Authed(front);
      } else {
        assert Authed(invs) == Authed(front);
      }
    }
  }

  /**
   * After any run of observations of a physical-model source: a slug is adopted exactly when the configuration permits
   * it, some authenticated observation listed it with a policy effort and three authenticated misses in a row never
   * followed; its miss count is the number of authenticated observations since it was last listed, and its efforts are
   * the latest adopted ones.
   */
  lemma {:induction false} AdoptedIff(config: Config, invs: seq<Inventory>, slug: string)
    requires config.kind == CodexSubscription
    ensures var seen := Authed(invs);
            && (TrackAll(config, invs, slug).Some? <==>
                  Permits(config, slug) && Offered(config.kind, seen, slug))
            && (TrackAll(config, invs, slug).Some? ==>
                  && TrackAll(config, invs, slug).value.misses == Trailing(seen, slug) < RETIRE_AFTER_MISSES
                  && TrackAll(config, invs, slug).value.efforts == LatestEfforts(config, seen, slug))
  {
    hide TrackAll, Authed, Deserves, Trailing, LatestEfforts, Permits, Offered;
    OnlyAuthenticatedCount(config, invs, slug);
    TrackIs(config, Authed(invs), slug);
    DeservesIff(config, Authed(invs), slug);
  }

  lemma {:induction false} RetireAllFrom(retired: seq<string>, order: seq<string>, slug: string)
    ensures slug in RetireAll(retired, order) ==> slug in retired || slug in order
  {
    if order != [] { RetireAllFrom(retired, order[..|order| - 1], slug); }
  }

  /** An observation that adopts a slug without having seen its runtime: plan-managed, listed, and unverified. */
  predicate Readopts(config: Config, inv: Inventory, slug: string) {
    && config.kind == ZcodeSubscription && inv.auth == Unverified
    && slug == PLAN_MANAGED && Model(PLAN_MANAGED, []) in inv.models
    && CurrentExclusion(config, PLAN_MANAGED).None?
  }

  lemma {:induction false} AdoptsUnseen(config: Config, auth: Auth, models: seq<Model>, slug: string)
    requires auth != Authenticated
    ensures Adopting(config, auth, models, slug).Some? <==> Readopts(config, Inventory(auth, models), slug)
  {
    if models != [] {
      var front, last := models[..|models| - 1], models[|models| - 1];
      AdoptsUnseen(config, auth, front, slug);
      assert models == front + [last];
    }
  }

  /**
   * Where no slug was adopted and retired at once, one observation makes a slug both exactly if it is retired and the
   * observation adopts it unseen: not for a physical-model source, and not when authenticated.
   */
  lemma {:induction false} RetiredApartIff(
    config: Config, inv: Inventory, slug: string, before: Option<Tracked>,
    retired: seq<string>, order: seq<string>, seen: set<string>)
    requires slug in retired ==> before.None?
    requires slug in order <==>
             slug !in Slugs(inv.models) && before.Some? && before.value.misses + 1 >= RETIRE_AFTER_MISSES
    requires slug in seen <==> slug in Slugs(inv.models) && StepSlug(config, inv, slug, before).Some?
    ensures var after := if inv.auth == Authenticated then Without(RetireAll(retired, order), seen) else retired;
            slug in after && StepSlug(config, inv, slug, before).Some? <==>
            slug in retired && Readopts(config, inv, slug)
  {
    if inv.auth == Authenticated {
      WithoutIs(RetireAll(retired, order), seen);
      RetireAllFrom(retired, order, slug);
      AdoptingIsListed(config, inv.auth, inv.models, slug);
    } else {
      AdoptsUnseen(config, inv.auth, inv.models, slug);
    }
  }

  /**
   * The object follows the history: whatever run of reports arrives, from whichever workers, it holds what the
   * observations it was granted say.
   */
  method Follow(config: Config, reports: seq<Report>) returns (state: SourceState)
    requires forall i :: 0 <= i < |reports| ==> AllFit(config, reports[i].inventory.auth, reports[i].inventory.models)
    ensures fresh(state) && state.Valid() && state.config == config
    ensures forall slug :: state.Track(slug) == TrackAll(config, Observations(config, reports), slug)
    ensures forall slug :: slug in state.adopted ==>
              Permits(config, slug)
              && exists i :: 0 <= i < |reports| && Accepted(config, reports[i])
                             && Offers(config.kind, reports[i].inventory, slug)
    ensures forall slug :: slug in state.retired && state.Track(slug).Some? ==> Readopted(config, reports)
    ensures config.kind == CodexSubscription ==> forall slug :: slug in state.retired ==> state.Track(slug).None?
  {
    hide StepSlug, AllFit, Listing, RoutableNow, Slugs, Without, RetireAll, Distinct, AdapterId, TrackAll, Observations,
         TrackedOf, Apart, Accepted, Readopts, Permits, Offers;
    state := new SourceState(config);
    FollowNothing(config, state);
    assert reports[..0] == [];
    for i := 0 to |reports|
      invariant fresh(state) && state.Valid() && state.config == config
      invariant forall slug :: state.Track(slug) == TrackAll(config, Observations(config, reports[..i]), slug)
      invariant Apart(state) || Readopted(config, reports[..i])
    {
      ObservationsStep(config, reports, i);
      ghost var before := Observations(config, reports[..i]);
      label Before:
      var r, order := state.Receive(reports[i]);
      if r.Ok? && r.value {
        TrackAllMore(config, before, reports[i].inventory);
        if old@Before(Apart(state)) { StaysApart@Before(state, reports[i].inventory, order); }
      } else if old@Before(Apart(state)) {
        StillApart@Before(state);
      }
      ReadoptedStep(config, reports, i);
    }
    assert reports[..|reports|] == reports;
    ApartIs(state);
    forall slug | slug in state.adopted
      ensures Permits(config, slug)
      ensures exists i :: 0 <= i < |reports| && Accepted(config, reports[i])
                          && Offers(config.kind, reports[i].inventory, slug)
    {
      TrackedIs(state, slug);
      OnlyPermitted(config, Observations(config, reports), slug);
      var k :| 0 <= k < |Observations(config, reports)|
               && Offers(config.kind, Observations(config, reports)[k], slug);
      ObservedIsReported(config, reports, k);
    }
    if config.kind == CodexSubscription { NeverReadopted(config, reports); }
  }

  lemma TrackedIs(state: SourceState, slug: string)
    ensures state.Track(slug).Some? <==> slug in state.adopted
  {
  }

  lemma {:induction false} ObservedIsReported(config: Config, reports: seq<Report>, k: nat)
    requires k < |Observations(config, reports)|
    ensures exists i :: 0 <= i < |reports| && Accepted(config, reports[i])
                        && reports[i].inventory == Observations(config, reports)[k]
  {
    hide Accepted;
    if reports != [] {
      var front, last := reports[..|reports| - 1], reports[|reports| - 1];
      if k < |Observations(config, front)| {
        ObservedIsReported(config, front, k);
        var i :| 0 <= i < |front| && Accepted(config, front[i])
                 && front[i].inventory == Observations(config, front)[k];
        assert reports[i] == front[i];
      } else {
        assert reports[|reports| - 1] == last;
      }
    }
  }

  /** Some observation of the run adopted its plan-managed model unseen. */
  ghost predicate Readopted(config: Config, reports: seq<Report>) {
    exists i :: 0 <= i < |reports| && Accepted(config, reports[i])
                && Readopts(config, reports[i].inventory, PLAN_MANAGED)
  }

  lemma ReadoptedStep(config: Config, reports: seq<Report>, i: nat)
    requires i < |reports|
    ensures Readopted(config, reports[..i]) ==> Readopted(config, reports[..i + 1])
    ensures Accepted(config, reports[i]) && Readopts(config, reports[i].inventory, PLAN_MANAGED) ==>
              Readopted(config, reports[..i + 1])
  {
    hide Accepted, Readopts;
    assert reports[..i + 1] == reports[..i] + [reports[i]];
    assert reports[..i + 1][i] == reports[i];
  }

  lemma NeverReadopted(config: Config, reports: seq<Report>)
    requires config.kind == CodexSubscription
    ensures !Readopted(config, reports)
  {
    hide Accepted;
  }

  /** No slug is adopted and retired at once. */
  ghost predicate Apart(state: SourceState)
    reads state
  {
    forall slug :: slug in state.retired ==> state.Track(slug).None?
  }

  lemma ApartIs(state: SourceState)
    ensures Apart(state) <==> forall slug :: slug in state.retired ==> state.Track(slug).None?
  {
  }

  lemma {:induction false} FollowNothing(config: Config, state: SourceState)
    requires state.retired == [] && state.adopted == map[]
    ensures Observations(config, []) == [] && Apart(state)
    ensures forall slug :: state.Track(slug) == TrackAll(config, [], slug)
  {
  }

  lemma {:induction false} TrackAllMore(config: Config, before: seq<Inventory>, inv: Inventory)
    ensures forall slug :: TrackAll(config, before + [inv], slug)
                           == StepSlug(config, inv, slug, TrackAll(config, before, slug))
  {
    hide StepSlug;
    assert (before + [inv])[..|before|] == before;
  }

  twostate lemma StillApart(state: SourceState)
    requires old(Apart(state)) && state.config == old(state.config) && state.retired == old(state.retired)
    requires forall slug :: state.Track(slug) == old(state.Track(slug))
    ensures Apart(state)
  {
  }

  /** One observation keeps the two apart unless it adopts the plan-managed model unseen. */
  twostate lemma StaysApart(state: SourceState, new inv: Inventory, new order: seq<string>)
    requires old(Apart(state)) && state.config == old(state.config)
    requires forall slug :: state.Track(slug) == StepSlug(state.config, inv, slug, old(state.Track(slug)))
    requires inv.auth != Authenticated ==> state.retired == old(state.retired)
    requires inv.auth == Authenticated ==>
               && (forall slug :: slug in order <==>
                     slug !in Slugs(inv.models) && old(state.Track(slug)).Some?
                     && old(state.Track(slug)).value.misses + 1 >= RETIRE_AFTER_MISSES)
               && state.retired == Without(RetireAll(old(state.retired), order), Slugs(inv.models) * state.adopted.Keys)
    ensures Apart(state) || Readopts(state.config, inv, PLAN_MANAGED)
  {
    hide StepSlug, Slugs, Without, RetireAll;
    var config := state.config;
    if !Readopts(config, inv, PLAN_MANAGED) {
      forall slug | slug in state.retired ensures state.Track(slug).None? {
        if inv.auth == Authenticated {
          RetiredApartIff(config, inv, slug, old(state.Track(slug)), old(state.retired), order,
                          Slugs(inv.models) * state.adopted.Keys);
        } else {
          UnseenStays(config, inv, slug, old(state.Track(slug)));
        }
      }
    }
  }

  lemma UnseenStays(config: Config, inv: Inventory, slug: string, t: Option<Tracked>)
    requires inv.auth != Authenticated && !Readopts(config, inv, PLAN_MANAGED)
    ensures StepSlug(config, inv, slug, t) == t
  {
    hide Readopts;
    AdoptsUnseen(config, inv.auth, inv.models, slug);
    NotPlanManaged(config, inv, slug);
  }

  lemma NotPlanManaged(config: Config, inv: Inventory, slug: string)
    ensures Readopts(config, inv, slug) ==> slug == PLAN_MANAGED
  {
  }

  // ---------------------------------------------------------------- adopted and retired at once

  /** What an empty authenticated inventory does to the retirement history of a source that tracks one slug at most. */
  lemma {:induction false} RetiresOne(retired: seq<string>, order: seq<string>, slug: string, expires: bool)
    requires Ascending(order) && retired == []
    requires forall x :: x in order <==> x == slug && expires
    ensures Without(RetireAll(retired, order), {}) == if expires then [slug] else []
  {
    if expires {
      assert slug in order;
      AscendingOnce(order, slug);
      assert order == [slug];
      assert RetireAll(retired, order[..0]) == [];
    } else {
      assert forall i :: 0 <= i < |order| ==> order[i] in order;
    }
  }

  lemma AscendingOnce(order: seq<string>, slug: string)
    requires Ascending(order) && forall x :: x in order ==> x == slug
    ensures |order| <= 1 && forall i :: 0 <= i < |order| ==> order[i] == slug
  {
    assert forall i :: 0 <= i < |order| ==> order[i] in order;
    assert |order| > 1 ==> Before(order[0], order[1]);
    NotBefore(slug);
  }

  lemma {:induction false} NotBefore(a: string)
    ensures !Before(a, a)
  {
    if a != "" { NotBefore(a[1..]); }
  }

  /** An observation of the plan-managed model alone, unseen, and one of no model, seen. */
  lemma StepsOf(config: Config, t: Option<Tracked>, slug: string)
    requires config.kind == ZcodeSubscription && CurrentExclusion(config, PLAN_MANAGED).None?
    ensures StepSlug(config, Inventory(Unverified, [Model(PLAN_MANAGED, [])]), slug, t)
         == if slug == PLAN_MANAGED then Some(Tracked([], if t.Some? then t.value.misses else 0)) else t
    ensures StepSlug(config, Inventory(Authenticated, []), slug, t)
         == if t.None? || t.value.misses + 1 >= RETIRE_AFTER_MISSES then None
            else Some(t.value.(misses := t.value.misses + 1))
    ensures Slugs([]) == {}
  {
    var m := Model(PLAN_MANAGED, []);
    assert [m][..0] == [] && Adopting(config, Unverified, [], slug) == None;
  }

  /**
   * Any plan-managed source whose model may be adopted comes to hold it as adopted and retired at once: it is adopted
   * unseen, retired after three authenticated observations without it, and adopted unseen again.
   */
  method AdoptedAndRetired(config: Config) returns (state: SourceState)
    requires config.kind == ZcodeSubscription && CurrentExclusion(config, PLAN_MANAGED).None?
    requires IdsOk(config, Model(PLAN_MANAGED, []))
    ensures fresh(state) && state.Valid() && state.config == config
    ensures state.retired == [PLAN_MANAGED] && state.Track(PLAN_MANAGED) == Some(Tracked([], 0))
  {
    hide StepSlug, Slugs, RetireAll, Without, Ascending, Distinct, TrackedOf, CurrentExclusion, IdsOk, AdapterId;
    var adapter := AdapterId(config);
    var unseen := Inventory(Unverified, [Model(PLAN_MANAGED, [])]);
    var gone := Inventory(Authenticated, []);
    var listing := Report(config.workerId, config.sourceId, config.kind, adapter, unseen);
    var empty := Report(config.workerId, config.sourceId, config.kind, adapter, gone);
    state := new SourceState(config);
    forall slug, t ensures StepSlug(config, unseen, slug, t)
                        == if slug == PLAN_MANAGED then Some(Tracked([], if t.Some? then t.value.misses else 0)) else t
    {
      StepsOf(config, t, slug);
    }
    FollowNothing(config, state);
    var r, order := state.Receive(listing);
    for misses := 0 to RETIRE_AFTER_MISSES
      invariant fresh(state) && state.Valid() && state.config == config
      invariant state.retired == if misses < RETIRE_AFTER_MISSES then [] else [PLAN_MANAGED]
      invariant forall slug :: state.Track(slug)
                               == if slug == PLAN_MANAGED && misses < RETIRE_AFTER_MISSES
                                  then Some(Tracked([], misses)) else None
    {
      forall slug, t ensures StepSlug(config, gone, slug, t)
                          == if t.None? || t.value.misses + 1 >= RETIRE_AFTER_MISSES then None
                             else Some(t.value.(misses := t.value.misses + 1))
      {
        StepsOf(config, t, slug);
      }
      StepsOf(config, None, PLAN_MANAGED);
      r, order := state.Receive(empty);
      RetiresOne([], order, PLAN_MANAGED, misses + 1 >= RETIRE_AFTER_MISSES);
      assert Slugs(gone.models) * state.adopted.Keys == {};
    }
    r, order := state.Receive(listing);
  }
}
