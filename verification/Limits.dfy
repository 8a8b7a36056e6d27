/** Effective limits: what the gateway advertises for a model, and what it then enforces on a route. */
module Limits {
  import opened Wrappers

  const UNCONFIGURED := "unconfigured"

  datatype Identity = Identity(provider: string, model: string, variant: string)

  /** A catalog entry: an exact variant, the hard limits known of it, and the resources it is bound to, if any. */
  datatype Entry = Entry(
    identity: Identity, hardContext: Option<nat>, hardOutput: Option<nat>, bound: Option<set<string>>)

  /** `calibrated` tells a reviewed catalog from the runtime inventory. */
  datatype Catalog = Catalog(calibrated: bool, entries: seq<Entry>)

  /** When the evidence for a route's context limit was verified and until when it is valid. */
  datatype Evidence = Evidence(verifiedAt: Option<int>, validUntil: Option<int>)

  datatype Resource = Resource(
    id: string, provider: string, model: string, variant: Option<string>,
    contextLimit: Option<nat>, outputLimit: Option<nat>, evidence: Evidence)

  datatype Snapshot = Snapshot(resources: seq<Resource>, generatedAt: int)

  datatype Allowance = Allowance(context: nat, output: nat)

  datatype Route = Route(id: string, context: Option<nat>, output: Option<nat>)

  datatype Info = Info(model: string, provider: string, context: Option<nat>, output: Option<nat>, routes: seq<Route>)

  predicate UniqueIdentities(catalog: Catalog) {
    forall i, j :: 0 <= i < j < |catalog.entries| ==> catalog.entries[i].identity != catalog.entries[j].identity
  }

  // ---------------------------------------------------------------- intersections with unknowns

  function Min(a: nat, b: nat): nat { if a <= b then a else b }

  function Max(a: nat, b: nat): nat { if a >= b then a else b }

  /** The least known value; `None` when nothing is known. */
  function LeastKnown(values: seq<Option<nat>>): Option<nat> {
    if values == [] then None
    else
      match (LeastKnown(values[1..]), values[0])
      case (None, v) => v
      case (some, None) => some
      case (Some(m), Some(v)) => Some(Min(m, v))
  }

  /** The known capability inputs, intersected with the administrator's allowance. */
  function EffectiveCeiling(inputs: seq<Option<nat>>, admin: nat): Option<nat> {
    match LeastKnown(inputs)
    case None => None
    case Some(m) => Some(Min(m, admin))
  }

  lemma {:induction false} LeastKnownIs(values: seq<Option<nat>>)
    ensures LeastKnown(values).None? <==> forall v :: v in values ==> v.None?
    ensures LeastKnown(values).Some? ==>
              LeastKnown(values) in values && forall v :: v in values && v.Some? ==> LeastKnown(values).value <= v.value
  {
    if values != [] {
      LeastKnownIs(values[1..]);
      assert values == [values[0]] + values[1..];
    }
  }

  /** Known exactly when some capability is, and then the greatest number no known input and no allowance exceeds. */
  lemma EffectiveCeilingIs(inputs: seq<Option<nat>>, admin: nat, tokens: nat)
    ensures EffectiveCeiling(inputs, admin).Some? <==> exists v :: v in inputs && v.Some?
    ensures EffectiveCeiling(inputs, admin).Some? ==>
              (tokens <= EffectiveCeiling(inputs, admin).value <==>
                 tokens <= admin && forall v :: v in inputs && v.Some? ==> tokens <= v.value)
  {
    LeastKnownIs(inputs);
  }

  /** The least value, when all are known and there is one. */
  function Weakest(values: seq<Option<nat>>): Option<nat> {
    if values == [] || values[0].None? then None
    else if |values| == 1 then values[0]
    else
      match Weakest(values[1..])
      case None => None
      case Some(m) => Some(Min(values[0].value, m))
  }

  lemma {:induction false} WeakestIs(values: seq<Option<nat>>)
    ensures Weakest(values).Some? <==> values != [] && forall v :: v in values ==> v.Some?
    ensures Weakest(values).Some? ==>
              Weakest(values) in values && forall v :: v in values && v.Some? ==> Weakest(values).value <= v.value
  {
    if |values| > 1 {
      WeakestIs(values[1..]);
      assert values == [values[0]] + values[1..];
    }
  }

  /** The greatest known value. */
  function Strongest(values: seq<Option<nat>>): Option<nat> {
    if values == [] then None
    else
      match (Strongest(values[1..]), values[0])
      case (None, v) => v
      case (some, None) => some
      case (Some(m), Some(v)) => Some(Max(m, v))
  }

  lemma {:induction false} StrongestIs(values: seq<Option<nat>>)
    ensures Strongest(values).None? <==> forall v :: v in values ==> v.None?
    ensures Strongest(values).Some? ==>
              Strongest(values) in values && forall v :: v in values && v.Some? ==> v.value <= Strongest(values).value
  {
    if values != [] {
      StrongestIs(values[1..]);
      assert values == [values[0]] + values[1..];
    }
  }

  // ---------------------------------------------------------------- one route

  /** Whether a resource serves a catalog variant. */
  predicate Binds(catalog: Catalog, r: Resource, e: Entry) {
    && e.identity.provider == r.provider && e.identity.model == r.model
    && (r.variant.Some? ==> e.identity.variant == r.variant.value)
    && (!catalog.calibrated && r.variant.None? && e.identity.variant != UNCONFIGURED ==>
          e.bound.Some? && r.id in e.bound.value)
  }

  /** Runtime inventory counts context evidence only while it is valid. */
  predicate EvidenceHolds(r: Resource, at: int) {
    && r.contextLimit.Some?
    && (r.evidence.validUntil.Some? ==>
          at < r.evidence.validUntil.value && (r.evidence.verifiedAt.Some? ==> r.evidence.verifiedAt.value <= at))
  }

  function ContextOf(catalog: Catalog, r: Resource, e: Entry, limits: Allowance, at: int): Option<nat> {
    if !catalog.calibrated && !EvidenceHolds(r, at) then None
    else EffectiveCeiling([e.hardContext, r.contextLimit], limits.context)
  }

  function OutputOf(catalog: Catalog, r: Resource, e: Entry, limits: Allowance): Option<nat> {
    if !catalog.calibrated && r.outputLimit.None? then None
    else EffectiveCeiling([e.hardOutput, r.outputLimit], limits.output)
  }

  /** The ceilings of the variants a route binds, in catalog order. */
  function Contexts(catalog: Catalog, r: Resource, entries: seq<Entry>, limits: Allowance, at: int): seq<Option<nat>> {
    if entries == [] then []
    else
      Contexts(catalog, r, entries[..|entries| - 1], limits, at)
      + (if Binds(catalog, r, entries[|entries| - 1])
         then [ContextOf(catalog, r, entries[|entries| - 1], limits, at)] else [])
  }

  function Outputs(catalog: Catalog, r: Resource, entries: seq<Entry>, limits: Allowance): seq<Option<nat>> {
    if entries == [] then []
    else
      Outputs(catalog, r, entries[..|entries| - 1], limits)
      + (if Binds(catalog, r, entries[|entries| - 1])
         then [OutputOf(catalog, r, entries[|entries| - 1], limits)] else [])
  }

  lemma {:induction false} ContextsAre(catalog: Catalog, r: Resource, entries: seq<Entry>, limits: Allowance, at: int)
    ensures forall e :: e in entries && Binds(catalog, r, e) ==>
              ContextOf(catalog, r, e, limits, at) in Contexts(catalog, r, entries, limits, at)
    ensures forall v :: v in Contexts(catalog, r, entries, limits, at) ==>
              exists e :: e in entries && Binds(catalog, r, e) && v == ContextOf(catalog, r, e, limits, at)
  {
    hide Binds, ContextOf;
    if entries != [] { ContextsAre(catalog, r, entries[..|entries| - 1], limits, at); }
  }

  lemma {:induction false} OutputsAre(catalog: Catalog, r: Resource, entries: seq<Entry>, limits: Allowance)
    ensures forall e :: e in entries && Binds(catalog, r, e) ==>
              OutputOf(catalog, r, e, limits) in Outputs(catalog, r, entries, limits)
    ensures forall v :: v in Outputs(catalog, r, entries, limits) ==>
              exists e :: e in entries && Binds(catalog, r, e) && v == OutputOf(catalog, r, e, limits)
  {
    hide Binds, OutputOf;
    if entries != [] { OutputsAre(catalog, r, entries[..|entries| - 1], limits); }
  }

  /** A route reports the weakest variant it binds. */
  function RouteOf(catalog: Catalog, r: Resource, limits: Allowance, at: int): Route {
    Route(r.id, Weakest(Contexts(catalog, r, catalog.entries, limits, at)),
          Weakest(Outputs(catalog, r, catalog.entries, limits)))
  }

  function RoutesOf(catalog: Catalog, resources: seq<Resource>, limits: Allowance, at: int): seq<Route> {
    if resources == [] then []
    else RoutesOf(catalog, resources[..|resources| - 1], limits, at)
         + [RouteOf(catalog, resources[|resources| - 1], limits, at)]
  }

  /** The permitted resources of one provider's model, in registry order. */
  function Serving(resources: seq<Resource>, permitted: Option<set<string>>, provider: string, model: string)
    : seq<Resource>
  {
    if resources == [] then []
    else
      var last := resources[|resources| - 1];
      Serving(resources[..|resources| - 1], permitted, provider, model)
      + (if (permitted.None? || last.id in permitted.value) && last.provider == provider && last.model == model
         then [last] else [])
  }

  function ContextsOf(routes: seq<Route>): seq<Option<nat>> {
    if routes == [] then [] else ContextsOf(routes[..|routes| - 1]) + [routes[|routes| - 1].context]
  }

  function OutputsOf(routes: seq<Route>): seq<Option<nat>> {
    if routes == [] then [] else OutputsOf(routes[..|routes| - 1]) + [routes[|routes| - 1].output]
  }

  function InfoOf(
    catalog: Catalog, snapshot: Snapshot, permitted: Option<set<string>>, limits: Allowance,
    provider: string, model: string): Info
  {
    var serving := Serving(snapshot.resources, permitted, provider, model);
    var routes := RoutesOf(catalog, serving, limits, snapshot.generatedAt);
    Info(model, provider, Strongest(ContextsOf(routes)), Strongest(OutputsOf(routes)), routes)
  }

  /** The providers under which a model has both a catalog identity and a permitted resource. */
  function ProvidersOf(catalog: Catalog, snapshot: Snapshot, permitted: Option<set<string>>, model: string): set<string>
  {
    set e | e in catalog.entries && e.identity.model == model
            && Serving(snapshot.resources, permitted, e.identity.provider, model) != [] :: e.identity.provider
  }

  // ---------------------------------------------------------------- the listing

  /** The detail of one route: its variants' ceilings, gathered in the catalog's order. */
  method RouteDetail(catalog: Catalog, r: Resource, limits: Allowance, at: int) returns (route: Route)
    ensures route == RouteOf(catalog, r, limits, at)
  {
    hide Binds, ContextOf, OutputOf, Weakest;
    var contexts, outputs: seq<Option<nat>> := [], [];
    for i := 0 to |catalog.entries|
      invariant contexts == Contexts(catalog, r, catalog.entries[..i], limits, at)
      invariant outputs == Outputs(catalog, r, catalog.entries[..i], limits)
    {
      var e := catalog.entries[i];
      assert catalog.entries[..i + 1][..i] == catalog.entries[..i];
      if Binds(catalog, r, e) {
        contexts := contexts + [ContextOf(catalog, r, e, limits, at)];
        outputs := outputs + [OutputOf(catalog, r, e, limits)];
      }
    }
    assert catalog.entries[..|catalog.entries|] == catalog.entries;
    route := Route(r.id, Weakest(contexts), Weakest(outputs));
  }

  method Details(catalog: Catalog, resources: seq<Resource>, limits: Allowance, at: int) returns (routes: seq<Route>)
    ensures routes == RoutesOf(catalog, resources, limits, at)
  {
    hide RouteOf;
    routes := [];
    for i := 0 to |resources|
      invariant routes == RoutesOf(catalog, resources[..i], limits, at)
    {
      assert resources[..i + 1][..i] == resources[..i];
      var route := RouteDetail(catalog, resources[i], limits, at);
      routes := routes + [route];
    }
    assert resources[..|resources|] == resources;
  }

  type Channels = map<(string, string), seq<Resource>>

  function ChannelAt(channels: Channels, provider: string, model: string): seq<Resource> {
    if (provider, model) in channels then channels[(provider, model)] else []
  }

  /** The permitted resources, filed under the model they serve. */
  method FileResources(resources: seq<Resource>, permitted: Option<set<string>>) returns (channels: Channels)
    ensures forall p, m :: ChannelAt(channels, p, m) == Serving(resources, permitted, p, m)
    ensures forall p, m :: (p, m) in channels <==> Serving(resources, permitted, p, m) != []
  {
    hide Serving;
    channels := map[];
    ServingNothing(permitted);
    assert resources[..0] == [];
    for i := 0 to |resources|
      invariant forall p, m :: ChannelAt(channels, p, m) == Serving(resources[..i], permitted, p, m)
      invariant forall p, m :: (p, m) in channels <==> Serving(resources[..i], permitted, p, m) != []
    {
      var r := resources[i];
      ServingStep(resources, permitted, i);
      if permitted.None? || r.id in permitted.value {
        channels := channels[(r.provider, r.model) := ChannelAt(channels, r.provider, r.model) + [r]];
      }
    }
    assert resources[..|resources|] == resources;
  }

  lemma {:induction false} ServingNothing(permitted: Option<set<string>>)
    ensures forall p, m :: Serving([], permitted, p, m) == []
  {
  }

  lemma {:induction false} ServingStep(resources: seq<Resource>, permitted: Option<set<string>>, i: nat)
    requires i < |resources|
    ensures forall p, m ::
              Serving(resources[..i + 1], permitted, p, m)
              == Serving(resources[..i], permitted, p, m)
                 + (if (permitted.None? || resources[i].id in permitted.value)
                       && resources[i].provider == p && resources[i].model == m then [resources[i]] else [])
  {
    assert resources[..i + 1][..i] == resources[..i];
  }

  /** A model's providers are those with a catalog entry for it and a permitted resource that serves it. */
  lemma ProvidersAre(
    catalog: Catalog, snapshot: Snapshot, permitted: Option<set<string>>, provider: string, model: string)
    ensures provider in ProvidersOf(catalog, snapshot, permitted, model) <==>
              && (exists e :: e in catalog.entries && e.identity.provider == provider && e.identity.model == model)
              && exists r :: Offers(snapshot, permitted, provider, model, r)
  {
    hide Serving;
    var serving := Serving(snapshot.resources, permitted, provider, model);
    ServingAre(snapshot.resources, permitted, provider, model);
    if serving != [] { assert Offers(snapshot, permitted, provider, model, serving[0]); }
    if r :| Offers(snapshot, permitted, provider, model, r) { assert r in serving; }
    if provider in ProvidersOf(catalog, snapshot, permitted, model) {
      var e :| e in catalog.entries && e.identity.model == model && e.identity.provider == provider;
      assert serving != [];
    }
  }

  /** The providers of each model that a permitted resource serves. */
  method GroupModels(entries: seq<Entry>, channels: Channels) returns (byModel: map<string, set<string>>)
    ensures forall m :: m in byModel ==> byModel[m] == Named(entries, channels, m)
    ensures forall m :: m in byModel <==> Named(entries, channels, m) != {}
  {
    hide Named;
    byModel := map[];
    NamedNothing(channels);
    assert entries[..0] == [];
    for i := 0 to |entries|
      invariant forall m :: m in byModel ==> byModel[m] == Named(entries[..i], channels, m)
      invariant forall m :: m in byModel <==> Named(entries[..i], channels, m) != {}
    {
      var id := entries[i].identity;
      NamedStep(entries, channels, i);
      if (id.provider, id.model) in channels {
        byModel := byModel[id.model := (if id.model in byModel then byModel[id.model] else {}) + {id.provider}];
      }
    }
    assert entries[..|entries|] == entries;
  }

  /** Exactly the models with one provider are listed, each once, with what its routes support. */
  ghost predicate Listed(
    catalog: Catalog, snapshot: Snapshot, permitted: Option<set<string>>, limits: Allowance, infos: seq<Info>)
  {
    && (forall info :: info in infos ==>
          ProvidersOf(catalog, snapshot, permitted, info.model) == {info.provider}
          && info == InfoOf(catalog, snapshot, permitted, limits, info.provider, info.model))
    && (forall m :: |ProvidersOf(catalog, snapshot, permitted, m)| == 1 ==>
          exists info :: info in infos && info.model == m)
    && (forall i, j :: 0 <= i < j < |infos| ==> infos[i].model != infos[j].model)
  }

  method ExposedLogicalModels(
    catalog: Catalog, snapshot: Option<Snapshot>, permitted: Option<set<string>>, limits: Allowance)
    returns (infos: seq<Info>)
    ensures snapshot.None? ==> infos == []
    ensures snapshot.Some? ==> Listed(catalog, snapshot.value, permitted, limits, infos)
  {
    hide RoutesOf, Strongest, ContextsOf, OutputsOf, Serving, Named, ProvidersOf;
    infos := [];
    if snapshot.None? { return; }
    var channels := FileResources(snapshot.value.resources, permitted);
    var byModel := GroupModels(catalog.entries, channels);
    NamedIs(catalog, snapshot.value, permitted, channels);
    var todo := byModel.Keys;
    while todo != {}
      invariant todo <= byModel.Keys
      invariant forall info :: info in infos ==>
                  ProvidersOf(catalog, snapshot.value, permitted, info.model) == {info.provider}
                  && info == InfoOf(catalog, snapshot.value, permitted, limits, info.provider, info.model)
      invariant forall m :: m in byModel && m !in todo && |byModel[m]| == 1 ==>
                  exists info :: info in infos && info.model == m
      invariant forall info :: info in infos ==> info.model !in todo
      invariant forall i, j :: 0 <= i < j < |infos| ==> infos[i].model != infos[j].model
      decreases todo
    {
      var model :| model in todo;
      todo := todo - {model};
      if |byModel[model]| == 1 {
        var provider :| provider in byModel[model];
        Singleton(byModel[model], provider);
        var routes := Details(catalog, ChannelAt(channels, provider, model), limits, snapshot.value.generatedAt);
        var info := Info(model, provider, Strongest(ContextsOf(routes)), Strongest(OutputsOf(routes)), routes);
        ghost var before := infos;
        infos := infos + [info];
        assert infos[|before|] == info && forall x :: x in before ==> x in infos;
      }
    }
  }

  lemma Singleton(s: set<string>, x: string)
    requires |s| == 1 && x in s
    ensures s == {x}
  {
    assert |s - {x}| == 0;
  }

  lemma NamedNothing(channels: Channels)
    ensures forall m :: Named([], channels, m) == {}
  {
  }

  lemma {:induction false} NamedIs(
    catalog: Catalog, snapshot: Snapshot, permitted: Option<set<string>>, channels: Channels)
    requires forall p, m :: (p, m) in channels <==> Serving(snapshot.resources, permitted, p, m) != []
    ensures forall m :: Named(catalog.entries, channels, m) == ProvidersOf(catalog, snapshot, permitted, m)
  {
    hide Serving;
  }

  function Named(entries: seq<Entry>, channels: Channels, model: string): set<string> {
    set e | e in entries && e.identity.model == model && (e.identity.provider, model) in channels :: e.identity.provider
  }

  lemma NamedStep(entries: seq<Entry>, channels: Channels, i: nat)
    requires i < |entries|
    ensures forall m :: Named(entries[..i + 1], channels, m)
                        == Named(entries[..i], channels, m)
                           + (if entries[i].identity.model == m && (entries[i].identity.provider, m) in channels
                              then {entries[i].identity.provider} else {})
  {
    assert entries[..i + 1] == entries[..i] + [entries[i]];
  }

  // ---------------------------------------------------------------- what a request then meets

  /** The hard limits of one exact variant: those of the first entry with its identity. */
  function HardContext(entries: seq<Entry>, identity: Identity): Option<nat> {
    if entries == [] then None
    else if entries[0].identity == identity then entries[0].hardContext
    else HardContext(entries[1..], identity)
  }

  lemma {:induction false} HardContextOf(entries: seq<Entry>, i: nat)
    requires i < |entries| && forall j, k :: 0 <= j < k < |entries| ==> entries[j].identity != entries[k].identity
    ensures HardContext(entries, entries[i].identity) == entries[i].hardContext
  {
    if i > 0 {
      assert entries[0].identity != entries[i].identity;
      HardContextOf(entries[1..], i - 1);
    }
  }

  /** The admission check on the whole request, before any routing. */
  predicate PassesAdmission(limits: Allowance, estimate: Option<nat>) {
    estimate.Some? ==> estimate.value <= limits.context
  }

  /** The context check on the selected route and variant. */
  predicate PassesRoute(catalog: Catalog, r: Resource, identity: Identity, limits: Allowance, estimate: Option<nat>) {
    var ceiling := EffectiveCeiling([HardContext(catalog.entries, identity), r.contextLimit], limits.context);
    estimate.Some? && ceiling.Some? ==> estimate.value <= ceiling.value
  }

  lemma {:induction false} ContextsOfAre(routes: seq<Route>)
    ensures forall v :: v in ContextsOf(routes) <==> exists r :: r in routes && r.context == v
    ensures forall v :: v in OutputsOf(routes) <==> exists r :: r in routes && r.output == v
  {
    if routes != [] {
      ContextsOfAre(routes[..|routes| - 1]);
      assert routes == routes[..|routes| - 1] + [routes[|routes| - 1]];
    }
  }

  lemma {:induction false} RoutesAre(catalog: Catalog, resources: seq<Resource>, limits: Allowance, at: int)
    ensures forall route :: route in RoutesOf(catalog, resources, limits, at) <==>
                            exists r :: r in resources && route == RouteOf(catalog, r, limits, at)
  {
    hide RouteOf;
    if resources != [] {
      RoutesAre(catalog, resources[..|resources| - 1], limits, at);
      assert resources == resources[..|resources| - 1] + [resources[|resources| - 1]];
    }
  }

  lemma {:induction false} ServingAre(
    resources: seq<Resource>, permitted: Option<set<string>>, provider: string, model: string)
    ensures forall r :: r in Serving(resources, permitted, provider, model) <==>
                        r in resources && (permitted.None? || r.id in permitted.value)
                        && r.provider == provider && r.model == model
  {
    if resources != [] {
      ServingAre(resources[..|resources| - 1], permitted, provider, model);
      assert resources == resources[..|resources| - 1] + [resources[|resources| - 1]];
    }
  }

  /** A known route context covers every variant the route binds, and there is one. */
  lemma RouteIsBacked(catalog: Catalog, r: Resource, limits: Allowance, at: int)
    requires RouteOf(catalog, r, limits, at).context.Some?
    ensures exists x :: x in catalog.entries && Binds(catalog, r, x)
    ensures RouteOf(catalog, r, limits, at).context.value <= limits.context
  {
    hide Binds, EvidenceHolds;
    var contexts := Contexts(catalog, r, catalog.entries, limits, at);
    WeakestIs(contexts);
    ContextsAre(catalog, r, catalog.entries, limits, at);
    var x :| x in catalog.entries && Binds(catalog, r, x) && Weakest(contexts) == ContextOf(catalog, r, x, limits, at);
  }

  lemma RouteContextIs(catalog: Catalog, r: Resource, limits: Allowance, at: int, e: Entry)
    requires RouteOf(catalog, r, limits, at).context.Some?
    ensures e in catalog.entries && Binds(catalog, r, e) ==>
              && ContextOf(catalog, r, e, limits, at).Some?
              && RouteOf(catalog, r, limits, at).context.value <= ContextOf(catalog, r, e, limits, at).value
  {
    hide Binds, EvidenceHolds;
    var contexts := Contexts(catalog, r, catalog.entries, limits, at);
    WeakestIs(contexts);
    ContextsAre(catalog, r, catalog.entries, limits, at);
  }

  /**
   * The advertised context is sound: a request within it passes the admission check, and some permitted route passes
   * the per-route check for every variant it binds.
   */
  lemma HeadlineIsSound(
    catalog: Catalog, snapshot: Snapshot, permitted: Option<set<string>>, limits: Allowance,
    provider: string, model: string, estimate: nat)
    requires UniqueIdentities(catalog)
    requires var info := InfoOf(catalog, snapshot, permitted, limits, provider, model);
             info.context.Some? && estimate <= info.context.value
    ensures PassesAdmission(limits, Some(estimate))
    ensures exists r ::
              && r in snapshot.resources && (permitted.None? || r.id in permitted.value)
              && r.provider == provider && r.model == model
              && (exists e :: e in catalog.entries && Binds(catalog, r, e))
              && (forall e :: e in catalog.entries && Binds(catalog, r, e) ==>
                    PassesRoute(catalog, r, e.identity, limits, Some(estimate)))
  {
    hide Binds, EvidenceHolds, Contexts, Outputs, RouteOf, HardContext, Serving, RoutesOf, ContextsOf, Strongest,
         ContextOf,
         EffectiveCeiling, UniqueIdentities, PassesRoute;
    var at := snapshot.generatedAt;
    var serving := Serving(snapshot.resources, permitted, provider, model);
    var routes := RoutesOf(catalog, serving, limits, at);
    ServingAre(snapshot.resources, permitted, provider, model);
    RoutesAre(catalog, serving, limits, at);
    ContextsOfAre(routes);
    StrongestIs(ContextsOf(routes));
    var route :| route in routes && route.context == Strongest(ContextsOf(routes));
    var r :| r in serving && route == RouteOf(catalog, r, limits, at);
    RouteIsBacked(catalog, r, limits, at);
    forall e | e in catalog.entries && Binds(catalog, r, e)
      ensures PassesRoute(catalog, r, e.identity, limits, Some(estimate))
    {
      RouteContextIs(catalog, r, limits, at, e);
      WithinPasses(catalog, r, limits, at, e, estimate);
    }
  }

  lemma WithinPasses(
    catalog: Catalog, r: Resource, limits: Allowance, at: int, e: Entry, estimate: nat)
    requires UniqueIdentities(catalog) && e in catalog.entries
    requires ContextOf(catalog, r, e, limits, at).Some? && estimate <= ContextOf(catalog, r, e, limits, at).value
    ensures PassesRoute(catalog, r, e.identity, limits, Some(estimate))
  {
    var i :| 0 <= i < |catalog.entries| && catalog.entries[i] == e;
    HardContextOf(catalog.entries, i);
  }

  /** Nothing advertised exceeds the administrator's allowance, for a route or for a model. */
  lemma NothingAboveTheAllowance(
    catalog: Catalog, snapshot: Snapshot, permitted: Option<set<string>>, limits: Allowance,
    provider: string, model: string)
    ensures var info := InfoOf(catalog, snapshot, permitted, limits, provider, model);
            && (info.context.Some? ==> info.context.value <= limits.context)
            && (info.output.Some? ==> info.output.value <= limits.output)
            && forall route :: route in info.routes ==>
                 (route.context.Some? ==> route.context.value <= limits.context)
                 && (route.output.Some? ==> route.output.value <= limits.output)
  {
    hide Contexts, Outputs, Serving, RoutesOf, ContextsOf, OutputsOf, Strongest, RouteOf;
    var serving := Serving(snapshot.resources, permitted, provider, model);
    var routes := RoutesOf(catalog, serving, limits, snapshot.generatedAt);
    RoutesAre(catalog, serving, limits, snapshot.generatedAt);
    ContextsOfAre(routes);
    StrongestIs(ContextsOf(routes));
    StrongestIs(OutputsOf(routes));
    forall route | route in routes
      ensures route.context.Some? ==> route.context.value <= limits.context
      ensures route.output.Some? ==> route.output.value <= limits.output
    {
      var r :| r in serving && route == RouteOf(catalog, r, limits, snapshot.generatedAt);
      RouteBelow(catalog, r, limits, snapshot.generatedAt);
    }
  }

  lemma RouteBelow(catalog: Catalog, r: Resource, limits: Allowance, at: int)
    ensures var route := RouteOf(catalog, r, limits, at);
            (route.context.Some? ==> route.context.value <= limits.context)
            && (route.output.Some? ==> route.output.value <= limits.output)
  {
    hide Contexts, Outputs, Weakest, Binds, OutputOf;
    if RouteOf(catalog, r, limits, at).context.Some? { RouteIsBacked(catalog, r, limits, at); }
    WeakestIs(Outputs(catalog, r, catalog.entries, limits));
    OutputsAre(catalog, r, catalog.entries, limits);
    forall e ensures OutputOf(catalog, r, e, limits).Some? ==> OutputOf(catalog, r, e, limits).value <= limits.output {
      OutputBelow(catalog, r, e, limits);
    }
  }

  lemma OutputBelow(catalog: Catalog, r: Resource, e: Entry, limits: Allowance)
    ensures OutputOf(catalog, r, e, limits).Some? ==> OutputOf(catalog, r, e, limits).value <= limits.output
  {
    var ceiling := EffectiveCeiling([e.hardOutput, r.outputLimit], limits.output);
    EffectiveCeilingIs([e.hardOutput, r.outputLimit], limits.output, if ceiling.Some? then ceiling.value else 0);
  }

  /**
   * A route's context is known exactly when it binds a variant and, for every variant it binds, the variant's hard
   * limit or the route's own is known; in the runtime inventory only the route's own counts, while its evidence holds.
   */
  lemma UnknownStaysUnknown(catalog: Catalog, r: Resource, limits: Allowance, at: int)
    ensures RouteOf(catalog, r, limits, at).context.Some? <==>
              && (exists e :: e in catalog.entries && Binds(catalog, r, e))
              && (forall e :: e in catalog.entries && Binds(catalog, r, e) ==>
                    if catalog.calibrated then e.hardContext.Some? || r.contextLimit.Some? else EvidenceHolds(r, at))
  {
    hide Binds, EvidenceHolds, Contexts;
    var contexts := Contexts(catalog, r, catalog.entries, limits, at);
    WeakestIs(contexts);
    ContextsAre(catalog, r, catalog.entries, limits, at);
    forall e ensures ContextOf(catalog, r, e, limits, at).Some? <==>
                     if catalog.calibrated then e.hardContext.Some? || r.contextLimit.Some? else EvidenceHolds(r, at) {
      KnownIff(catalog, r, e, limits, at);
    }
    if exists e :: e in catalog.entries && Binds(catalog, r, e) {
      var e :| e in catalog.entries && Binds(catalog, r, e);
      assert ContextOf(catalog, r, e, limits, at) in contexts;
    }
  }

  lemma KnownIff(catalog: Catalog, r: Resource, e: Entry, limits: Allowance, at: int)
    ensures ContextOf(catalog, r, e, limits, at).Some? <==>
            if catalog.calibrated then e.hardContext.Some? || r.contextLimit.Some? else EvidenceHolds(r, at)
  {
    EffectiveCeilingIs([e.hardContext, r.contextLimit], limits.context, 0);
    assert [e.hardContext, r.contextLimit][0] == e.hardContext && [e.hardContext, r.contextLimit][1] == r.contextLimit;
  }

  // ---------------------------------------------------------------- the advertised numbers, from the inputs alone

  /** The variants a route serves: its own if it names one, else all reviewed ones, or those the inventory gives it. */
  ghost function Served(catalog: Catalog, r: Resource): set<Entry> {
    set e | e in catalog.entries && e.identity.provider == r.provider && e.identity.model == r.model
            && match r.variant
               case Some(variant) => e.identity.variant == variant
               case None =>
                 catalog.calibrated || e.identity.variant == UNCONFIGURED || (e.bound.Some? && r.id in e.bound.value)
  }

  /** Whether a number of tokens is within both limits, of which at least one is known. */
  predicate Carries(hard: Option<nat>, channel: Option<nat>, tokens: nat) {
    match (hard, channel)
    case (Some(h), Some(c)) => tokens <= h && tokens <= c
    case (Some(h), None) => tokens <= h
    case (None, Some(c)) => tokens <= c
    case (None, None) => false
  }

  /** The instants at which the runtime inventory lets a route's context limit count. */
  predicate Attested(r: Resource, at: int) {
    match (r.contextLimit, r.evidence)
    case (None, _) => false
    case (Some(_), Evidence(_, None)) => true
    case (Some(_), Evidence(None, Some(end))) => at < end
    case (Some(_), Evidence(Some(begin), Some(end))) => begin <= at < end
  }

  /** A route takes a context of this many tokens for every variant it serves, and it serves one. */
  ghost predicate TakesContext(catalog: Catalog, r: Resource, limits: Allowance, at: int, tokens: nat) {
    && Served(catalog, r) != {} && tokens <= limits.context && (catalog.calibrated || Attested(r, at))
    && forall e :: e in Served(catalog, r) ==> Carries(e.hardContext, r.contextLimit, tokens)
  }

  ghost predicate TakesOutput(catalog: Catalog, r: Resource, limits: Allowance, tokens: nat) {
    && Served(catalog, r) != {} && tokens <= limits.output && (catalog.calibrated || r.outputLimit.Some?)
    && forall e :: e in Served(catalog, r) ==> Carries(e.hardOutput, r.outputLimit, tokens)
  }

  predicate Within(tokens: nat, limit: Option<nat>) { limit.Some? && tokens <= limit.value }

  lemma ServedIs(catalog: Catalog, r: Resource, e: Entry)
    ensures e in catalog.entries && Binds(catalog, r, e) <==> e in Served(catalog, r)
  {
  }

  lemma CeilingCarries(hard: Option<nat>, channel: Option<nat>, admin: nat, tokens: nat)
    ensures Within(tokens, EffectiveCeiling([hard, channel], admin)) <==>
            tokens <= admin && Carries(hard, channel, tokens)
  {
    EffectiveCeilingIs([hard, channel], admin, tokens);
    assert [hard, channel][0] == hard && [hard, channel][1] == channel;
  }

  lemma WithinWeakest(values: seq<Option<nat>>, tokens: nat)
    ensures Within(tokens, Weakest(values)) <==> values != [] && forall v :: v in values ==> Within(tokens, v)
  {
    WeakestIs(values);
    if values != [] { assert values[0] in values; }
  }

  lemma WithinStrongest(values: seq<Option<nat>>, tokens: nat)
    ensures Within(tokens, Strongest(values)) <==> exists v :: v in values && Within(tokens, v)
  {
    StrongestIs(values);
  }

  lemma ContextWithin(catalog: Catalog, r: Resource, e: Entry, limits: Allowance, at: int, tokens: nat)
    ensures Within(tokens, ContextOf(catalog, r, e, limits, at)) <==>
              && tokens <= limits.context && (catalog.calibrated || Attested(r, at))
              && Carries(e.hardContext, r.contextLimit, tokens)
  {
    CeilingCarries(e.hardContext, r.contextLimit, limits.context, tokens);
  }

  lemma OutputWithin(catalog: Catalog, r: Resource, e: Entry, limits: Allowance, tokens: nat)
    ensures Within(tokens, OutputOf(catalog, r, e, limits)) <==>
              && tokens <= limits.output && (catalog.calibrated || r.outputLimit.Some?)
              && Carries(e.hardOutput, r.outputLimit, tokens)
  {
    CeilingCarries(e.hardOutput, r.outputLimit, limits.output, tokens);
  }

  /** A number is within a route's advertised context exactly if the route takes it. */
  lemma RouteContextIff(catalog: Catalog, r: Resource, limits: Allowance, at: int, tokens: nat)
    ensures Within(tokens, RouteOf(catalog, r, limits, at).context) <==> TakesContext(catalog, r, limits, at, tokens)
  {
    hide Binds, Served, Carries, Within, Weakest, Attested, ContextOf, Contexts;
    var contexts := Contexts(catalog, r, catalog.entries, limits, at);
    WithinWeakest(contexts, tokens);
    ContextsAre(catalog, r, catalog.entries, limits, at);
    forall e ensures e in catalog.entries && Binds(catalog, r, e) <==> e in Served(catalog, r) {
      ServedIs(catalog, r, e);
    }
    forall e { ContextWithin(catalog, r, e, limits, at, tokens); }
    if contexts != [] { assert contexts[0] in contexts; }
  }

  lemma RouteOutputIff(catalog: Catalog, r: Resource, limits: Allowance, at: int, tokens: nat)
    ensures Within(tokens, RouteOf(catalog, r, limits, at).output) <==> TakesOutput(catalog, r, limits, tokens)
  {
    hide Binds, Served, Carries, Within, Weakest, OutputOf, Outputs;
    var outputs := Outputs(catalog, r, catalog.entries, limits);
    WithinWeakest(outputs, tokens);
    OutputsAre(catalog, r, catalog.entries, limits);
    forall e ensures e in catalog.entries && Binds(catalog, r, e) <==> e in Served(catalog, r) {
      ServedIs(catalog, r, e);
    }
    forall e { OutputWithin(catalog, r, e, limits, tokens); }
    if outputs != [] { assert outputs[0] in outputs; }
  }

  predicate Offers(snapshot: Snapshot, permitted: Option<set<string>>, provider: string, model: string, r: Resource) {
    && r in snapshot.resources && (permitted.None? || r.id in permitted.value)
    && r.provider == provider && r.model == model
  }

  /**
   * What a model advertises, from the catalog, the resources and the clock alone: a number of tokens is within the
   * headline exactly if one permitted route takes it, for every variant it serves and inside its evidence's window.
   */
  lemma AdvertisedIff(
    catalog: Catalog, snapshot: Snapshot, permitted: Option<set<string>>, limits: Allowance,
    provider: string, model: string, tokens: nat)
    ensures var info := InfoOf(catalog, snapshot, permitted, limits, provider, model);
            && (Within(tokens, info.context) <==>
                  exists r :: Offers(snapshot, permitted, provider, model, r)
                              && TakesContext(catalog, r, limits, snapshot.generatedAt, tokens))
            && (Within(tokens, info.output) <==>
                  exists r :: Offers(snapshot, permitted, provider, model, r)
                              && TakesOutput(catalog, r, limits, tokens))
  {
    hide Serving, RoutesOf, RouteOf, Strongest, ContextsOf, OutputsOf, Within, TakesContext, TakesOutput;
    var at := snapshot.generatedAt;
    var serving := Serving(snapshot.resources, permitted, provider, model);
    var routes := RoutesOf(catalog, serving, limits, at);
    ServingAre(snapshot.resources, permitted, provider, model);
    RoutesAre(catalog, serving, limits, at);
    ContextsOfAre(routes);
    WithinStrongest(ContextsOf(routes), tokens);
    WithinStrongest(OutputsOf(routes), tokens);
    forall r { RouteContextIff(catalog, r, limits, at, tokens); }
    forall r { RouteOutputIff(catalog, r, limits, at, tokens); }
    OneRoute(catalog, serving, limits, at, routes, tokens);
  }

  lemma OneRoute(
    catalog: Catalog, serving: seq<Resource>, limits: Allowance, at: int, routes: seq<Route>, tokens: nat)
    requires forall route :: route in routes <==> exists r :: r in serving && route == RouteOf(catalog, r, limits, at)
    ensures (exists route :: route in routes && Within(tokens, route.context)) <==>
            exists r :: r in serving && Within(tokens, RouteOf(catalog, r, limits, at).context)
    ensures (exists route :: route in routes && Within(tokens, route.output)) <==>
            exists r :: r in serving && Within(tokens, RouteOf(catalog, r, limits, at).output)
  {
    hide RouteOf, Within;
  }
}
