/** The two projections of the adopted models: the resources that are registered and the catalog entries they need. */
module Projections {
  import opened Wrappers
  import opened Identifiers
  import opened Sources

  const PLAN_LANE_VARIANT := "plan"

  function Provider(kind: Kind): string {
    match kind
    case CodexSubscription => "openai"
    case ZcodeSubscription => "zai"
  }

  /** What the projections read of one source: its grant, whether it ever reported, and what it adopted. */
  datatype SourceView = SourceView(config: Config, reported: bool, adopted: map<string, seq<string>>)

  type Registry = map<string, SourceView>

  /** One exact resource to be: a model of a source, bound to an effort unless the lane has none. */
  datatype Grant = Grant(config: Config, slug: string, effort: Option<string>)

  datatype Key = Key(provider: string, model: string, variant: string)

  datatype Registration = Registration(
    id: string, provider: string, model: string, variant: Option<string>, pool: string)

  /** A catalog entry for a discovered identity; `bindings` are the capacity scopes it is known to draw from. */
  datatype Entry = Entry(
    key: Key, bindings: Option<seq<string>>, resources: set<string>, scopes: map<string, seq<string>>)

  function KeyOf(g: Grant): Key {
    Key(Provider(g.config.kind), g.slug, if g.effort.Some? then g.effort.value else PLAN_LANE_VARIANT)
  }

  /** The catalog identity a registration is an instance of. */
  function IdentityOf(r: Registration): Key {
    Key(r.provider, r.model, if r.variant.Some? then r.variant.value else PLAN_LANE_VARIANT)
  }

  predicate Fits(g: Grant) { ResourceId(g.config.sourceId, g.slug, g.effort).Some? && g.effort != Some("") }

  function IdOf(g: Grant): string
    requires Fits(g)
  {
    ResourceId(g.config.sourceId, g.slug, g.effort).value
  }

  function RegistrationOf(g: Grant): Registration
    requires Fits(g)
  {
    Registration(IdOf(g), Provider(g.config.kind), g.slug, g.effort, g.config.pool)
  }

  /** The variants one adopted model is bound to: one per advertised policy effort, or the lane itself. */
  function Lanes(efforts: seq<string>): seq<Option<string>> {
    if efforts == [] then [None] else Somes(PolicyEfforts(efforts))
  }

  function Somes(efforts: seq<string>): seq<Option<string>> {
    if efforts == [] then [] else Somes(efforts[..|efforts| - 1]) + [Some(efforts[|efforts| - 1])]
  }

  /** Whether a grant is in force: the source has reported, the slug is adopted and not excluded now. */
  predicate InForce(reg: Registry, g: Grant) {
    && g.config.sourceId in reg
    && var view := reg[g.config.sourceId];
    && view.config == g.config && view.reported && g.slug in view.adopted
    && CurrentExclusion(view.config, g.slug).None?
    && g.effort in Lanes(view.adopted[g.slug])
  }

  /**
   * Every source is filed under its own id, every id it needs was checked when it adopted, and a model names each of
   * its efforts once, as its construction checks.
   */
  predicate WellFormed(reg: Registry) {
    && (forall id :: id in reg ==> reg[id].config.sourceId == id)
    && (forall id, slug :: id in reg && slug in reg[id].adopted ==> Distinct(reg[id].adopted[slug]))
    && (forall id, slug :: id in reg && slug in reg[id].adopted ==>
          forall lane :: lane in Lanes(reg[id].adopted[slug]) ==> Fits(Grant(reg[id].config, slug, lane)))
  }

  predicate NoRepeat(grants: seq<Grant>) { forall i, j :: 0 <= i < j < |grants| ==> grants[i] != grants[j] }

  // ---------------------------------------------------------------- walking the grants

  predicate InForceAt(view: SourceView, g: Grant) {
    && g.config == view.config && view.reported && g.slug in view.adopted
    && CurrentExclusion(view.config, g.slug).None?
    && g.effort in Lanes(view.adopted[g.slug])
  }

  lemma {:induction false} SomesAre(efforts: seq<string>)
    ensures forall lane :: lane in Somes(efforts) <==> lane.Some? && lane.value in efforts
    ensures |Somes(efforts)| == |efforts| && forall i :: 0 <= i < |efforts| ==> Somes(efforts)[i] == Some(efforts[i])
  {
    if efforts != [] { SomesAre(efforts[..|efforts| - 1]); }
  }

  lemma LanesAreDistinct(efforts: seq<string>)
    ensures forall i, j :: 0 <= i < j < |Lanes(efforts)| ==> Lanes(efforts)[i] != Lanes(efforts)[j]
  {
    SomesAre(PolicyEfforts(efforts));
    PolicyEffortsDistinct(efforts, 0);
  }

  lemma {:induction false} PolicyEffortsDistinct(efforts: seq<string>, from: nat)
    requires from <= |SORTED_EFFORTS|
    ensures forall i, j :: 0 <= i < j < |PolicyEffortsFrom(efforts, from)| ==>
              PolicyEffortsFrom(efforts, from)[i] != PolicyEffortsFrom(efforts, from)[j]
    decreases |SORTED_EFFORTS| - from
  {
    if from < |SORTED_EFFORTS| {
      PolicyEffortsDistinct(efforts, from + 1);
      PolicyEffortsFromAre(efforts, from + 1, SORTED_EFFORTS[from]);
      assert SORTED_EFFORTS[from] !in SORTED_EFFORTS[from + 1..] by { SortedOnce(); }
    }
  }

  lemma SortedOnce()
    ensures forall i, j :: 0 <= i < j < |SORTED_EFFORTS| ==> SORTED_EFFORTS[i] != SORTED_EFFORTS[j]
  {
  }

  /** The lanes of one adopted model. */
  method WalkModel(config: Config, slug: string, lanes: seq<Option<string>>) returns (grants: seq<Grant>)
    requires forall i, j :: 0 <= i < j < |lanes| ==> lanes[i] != lanes[j]
    ensures NoRepeat(grants)
    ensures forall g :: g in grants <==> g.config == config && g.slug == slug && g.effort in lanes
  {
    grants := [];
    for i := 0 to |lanes|
      invariant |grants| == i && forall j :: 0 <= j < i ==> grants[j] == Grant(config, slug, lanes[j])
    {
      grants := grants + [Grant(config, slug, lanes[i])];
    }
    forall g: Grant | g.config == config && g.slug == slug && g.effort in lanes ensures g in grants {
      var j :| 0 <= j < |lanes| && lanes[j] == g.effort;
      assert grants[j] == g;
    }
  }

  lemma Joined(a: seq<Grant>, b: seq<Grant>)
    requires NoRepeat(a) && NoRepeat(b) && forall g :: g in a ==> g !in b
    ensures NoRepeat(a + b)
  {
    var all := a + b;
    forall i, j | 0 <= i < j < |all| ensures all[i] != all[j] {
      if i < |a| <= j { assert all[i] in a && all[j] in b; }
    }
  }

  /** The models of one source, skipping what the current grant excludes. */
  method WalkSource(view: SourceView) returns (grants: seq<Grant>)
    ensures NoRepeat(grants)
    ensures forall g :: g in grants <==> InForceAt(view, g)
  {
    hide Lanes, CurrentExclusion, NoRepeat;
    grants := [];
    assert NoRepeat(grants) by { NothingRepeats(); }
    if !view.reported { return; }
    var todo := view.adopted.Keys;
    while todo != {}
      invariant todo <= view.adopted.Keys && NoRepeat(grants)
      invariant forall g :: g in grants <==> InForceAt(view, g) && g.slug !in todo
      decreases todo
    {
      var slug :| slug in todo;
      todo := todo - {slug};
      if CurrentExclusion(view.config, slug).None? {
        LanesAreDistinct(view.adopted[slug]);
        var more := WalkModel(view.config, slug, Lanes(view.adopted[slug]));
        Joined(grants, more);
        grants := grants + more;
      }
    }
  }

  lemma NothingRepeats()
    ensures NoRepeat([])
  {
  }

  /** Every grant in force, once. */
  method WalkGrants(reg: Registry) returns (grants: seq<Grant>)
    requires WellFormed(reg)
    ensures NoRepeat(grants)
    ensures forall g :: g in grants <==> InForce(reg, g)
    ensures forall g :: g in grants ==> Fits(g)
  {
    hide Lanes, CurrentExclusion, NoRepeat, Fits;
    grants := [];
    NothingRepeats();
    var todo := reg.Keys;
    while todo != {}
      invariant todo <= reg.Keys && NoRepeat(grants)
      invariant forall g :: g in grants <==> InForce(reg, g) && g.config.sourceId !in todo
      decreases todo
    {
      var id :| id in todo;
      todo := todo - {id};
      var more := WalkSource(reg[id]);
      Joined(grants, more);
      grants := grants + more;
    }
  }

  // ---------------------------------------------------------------- walking them again, for the catalog

  /** The policy efforts in the order in which they were advertised. */
  function Advertised(efforts: seq<string>): seq<string> {
    if efforts == [] then []
    else
      var last := efforts[|efforts| - 1];
      Advertised(efforts[..|efforts| - 1]) + (if PolicyEffort(last) then [last] else [])
  }

  /** The variants one adopted model has entries for: unsorted, where those of its registrations are sorted. */
  function EntryLanes(efforts: seq<string>): seq<Option<string>> {
    if efforts == [] then [None] else Somes(Advertised(efforts))
  }

  lemma {:induction false} AdvertisedAre(efforts: seq<string>)
    ensures forall e :: e in Advertised(efforts) <==> e in efforts && PolicyEffort(e)
    ensures Distinct(efforts) ==> Distinct(Advertised(efforts))
  {
    if efforts != [] {
      var front, last := efforts[..|efforts| - 1], efforts[|efforts| - 1];
      AdvertisedAre(front);
      assert efforts == front + [last];
      assert Distinct(efforts) ==> last !in front;
    }
  }

  /** Both walks bind a model to the same variants. */
  lemma SameLanes(efforts: seq<string>)
    requires Distinct(efforts)
    ensures forall lane :: lane in EntryLanes(efforts) <==> lane in Lanes(efforts)
    ensures forall i, j :: 0 <= i < j < |EntryLanes(efforts)| ==> EntryLanes(efforts)[i] != EntryLanes(efforts)[j]
  {
    AdvertisedAre(efforts);
    PolicyEffortsAre(efforts);
    SomesAre(Advertised(efforts));
    SomesAre(PolicyEfforts(efforts));
  }

  /** The catalog's walk over the models of one source. */
  method WalkSourceEntries(view: SourceView) returns (grants: seq<Grant>)
    requires forall slug :: slug in view.adopted ==> Distinct(view.adopted[slug])
    ensures NoRepeat(grants)
    ensures forall g :: g in grants <==> InForceAt(view, g)
  {
    hide Lanes, EntryLanes, CurrentExclusion, NoRepeat, Distinct;
    grants := [];
    assert NoRepeat(grants) by { NothingRepeats(); }
    if !view.reported { return; }
    var todo := view.adopted.Keys;
    while todo != {}
      invariant todo <= view.adopted.Keys && NoRepeat(grants)
      invariant forall g :: g in grants <==> InForceAt(view, g) && g.slug !in todo
      decreases todo
    {
      var slug :| slug in todo;
      todo := todo - {slug};
      if CurrentExclusion(view.config, slug).None? {
        SameLanes(view.adopted[slug]);
        var more := WalkModel(view.config, slug, EntryLanes(view.adopted[slug]));
        Joined(grants, more);
        grants := grants + more;
      }
    }
  }

  /** The catalog's own walk over the sources meets every grant in force once, too. */
  method WalkEntries(reg: Registry) returns (grants: seq<Grant>)
    requires WellFormed(reg)
    ensures NoRepeat(grants)
    ensures forall g :: g in grants <==> InForce(reg, g)
    ensures forall g :: g in grants ==> Fits(g)
  {
    hide Lanes, CurrentExclusion, NoRepeat, Fits, Distinct;
    grants := [];
    NothingRepeats();
    var todo := reg.Keys;
    while todo != {}
      invariant todo <= reg.Keys && NoRepeat(grants)
      invariant forall g :: g in grants <==> InForce(reg, g) && g.config.sourceId !in todo
      decreases todo
    {
      var id :| id in todo;
      todo := todo - {id};
      var more := WalkSourceEntries(reg[id]);
      Joined(grants, more);
      grants := grants + more;
    }
  }

  // ---------------------------------------------------------------- the registrations

  lemma IdsDiffer(g: Grant, h: Grant, reg: Registry)
    requires Fits(g) && Fits(h) && InForce(reg, g) && InForce(reg, h) && IdOf(g) == IdOf(h)
    ensures g == h
  {
    hide Lanes;
    ResourceIdsAreInjective(g.config.sourceId, g.slug, g.effort, h.config.sourceId, h.slug, h.effort);
  }

  /** Exactly one registration per grant in force, each under its own resource id. */
  ghost predicate RegistrationsOk(reg: Registry, out: seq<Registration>) {
    && (forall r :: r in out <==> exists g :: InForce(reg, g) && Fits(g) && r == RegistrationOf(g))
    && (forall i, j :: 0 <= i < j < |out| ==> out[i].id != out[j].id)
  }

  method DerivedRegistrations(reg: Registry) returns (out: seq<Registration>)
    requires WellFormed(reg)
    ensures RegistrationsOk(reg, out)
  {
    hide InForce, Fits, IdOf;
    var grants := WalkGrants(reg);
    out := [];
    for i := 0 to |grants|
      invariant |out| == i && forall j :: 0 <= j < i ==> Fits(grants[j]) && out[j] == RegistrationOf(grants[j])
    {
      out := out + [RegistrationOf(grants[i])];
    }
    forall g: Grant | InForce(reg, g) && Fits(g) ensures RegistrationOf(g) in out {
      var j :| 0 <= j < |grants| && grants[j] == g;
      assert out[j] == RegistrationOf(g);
    }
    forall i, j | 0 <= i < j < |out| ensures out[i].id != out[j].id {
      if IdOf(grants[i]) == IdOf(grants[j]) { IdsDiffer(grants[i], grants[j], reg); }
    }
  }

  /** The registration of one adopted model, in terms of the configuration, the source's kind and what it adopted. */
  predicate Describes(reg: Registry, id: string, slug: string, r: Registration) {
    && id in reg
    && var view := reg[id];
    && view.reported && slug in view.adopted && Permits(view.config, slug)
    && r.provider == (if view.config.kind == CodexSubscription then "openai" else "zai")
    && r.model == slug && r.pool == view.config.pool
    && ResourceId(id, slug, r.variant) == Some(r.id)
    && if view.adopted[slug] == [] then r.variant.None?
       else r.variant.Some? && r.variant.value in view.adopted[slug] && r.variant.value in REASONING_EFFORTS
  }

  lemma GrantDescribed(reg: Registry, g: Grant)
    requires WellFormed(reg) && InForce(reg, g) && Fits(g)
    ensures Describes(reg, g.config.sourceId, g.slug, RegistrationOf(g))
  {
    var efforts := reg[g.config.sourceId].adopted[g.slug];
    SomesAre(PolicyEfforts(efforts));
    PolicyEffortsAre(efforts);
  }

  lemma DescribedGrant(reg: Registry, id: string, slug: string, r: Registration) returns (g: Grant)
    requires WellFormed(reg) && Describes(reg, id, slug, r)
    ensures InForce(reg, g) && Fits(g) && RegistrationOf(g) == r
  {
    g := Grant(reg[id].config, slug, r.variant);
    var efforts := reg[id].adopted[slug];
    SomesAre(PolicyEfforts(efforts));
    PolicyEffortsAre(efforts);
    assert r.variant in Lanes(efforts);
    hide Lanes, WellFormed;
    WellFormedFits(reg, id, slug, r.variant);
  }

  lemma WellFormedFits(reg: Registry, id: string, slug: string, lane: Option<string>)
    requires WellFormed(reg) && id in reg && slug in reg[id].adopted && lane in Lanes(reg[id].adopted[slug])
    ensures reg[id].config.sourceId == id && Fits(Grant(reg[id].config, slug, lane))
  {
    hide Lanes, Fits;
  }

  /** Exactly what is registered: every permitted model a source has adopted, under each policy effort it advertised. */
  lemma RegisteredIff(reg: Registry, out: seq<Registration>, r: Registration)
    requires WellFormed(reg) && RegistrationsOk(reg, out)
    ensures r in out <==> exists id, slug :: Describes(reg, id, slug, r)
  {
    hide Describes, InForce, Fits, WellFormed, IdOf, RegistrationOf;
    if r in out {
      var g :| InForce(reg, g) && Fits(g) && r == RegistrationOf(g);
      GrantDescribed(reg, g);
    }
    if id, slug :| Describes(reg, id, slug, r) { var g := DescribedGrant(reg, id, slug, r); }
  }

  // ---------------------------------------------------------------- the catalog entries

  function ScopesOf(grants: seq<Grant>, k: Key): set<seq<string>> {
    set g | g in grants && KeyOf(g) == k :: g.config.scopes
  }

  function IdsOf(grants: seq<Grant>, k: Key): set<string>
    requires forall g :: g in grants ==> Fits(g)
  {
    set g | g in grants && KeyOf(g) == k :: IdOf(g)
  }

  function KeysOf(grants: seq<Grant>): set<Key> { set g | g in grants :: KeyOf(g) }

  /** The explicit capacity scopes of one resource, as the latest grant that has any says. */
  function ScopedBy(grants: seq<Grant>, k: Key, id: string): Option<seq<string>>
    requires forall g :: g in grants ==> Fits(g)
  {
    if grants == [] then None
    else
      var g, front := grants[|grants| - 1], grants[..|grants| - 1];
      if KeyOf(g) == k && IdOf(g) == id && g.config.scopes != [] then Some(g.config.scopes) else ScopedBy(front, k, id)
  }

  /** The binding of the first grant with an identity. */
  function FirstBinding(grants: seq<Grant>, k: Key): Option<seq<string>> {
    if grants == [] then None
    else if KeyOf(grants[0]) == k then (if grants[0].config.scopes == [] then None else Some(grants[0].config.scopes))
    else FirstBinding(grants[1..], k)
  }

  function At<V>(m: map<Key, set<V>>, k: Key): set<V> { if k in m then m[k] else {} }

  function Add<V>(m: map<Key, set<V>>, k: Key, v: V): map<Key, set<V>> { m[k := At(m, k) + {v}] }

  function ScopeAt(m: map<Key, map<string, seq<string>>>, k: Key, id: string): Option<seq<string>> {
    if k in m && id in m[k] then Some(m[k][id]) else None
  }

  lemma {:induction false} OneMore(grants: seq<Grant>, i: nat, k: Key, id: string)
    requires i < |grants| && forall g :: g in grants ==> Fits(g)
    ensures forall g :: g in grants[..i + 1] ==> Fits(g)
    ensures ScopesOf(grants[..i + 1], k)
         == ScopesOf(grants[..i], k) + (if KeyOf(grants[i]) == k then {grants[i].config.scopes} else {})
    ensures IdsOf(grants[..i + 1], k)
         == IdsOf(grants[..i], k) + (if KeyOf(grants[i]) == k then {IdOf(grants[i])} else {})
    ensures KeysOf(grants[..i + 1]) == KeysOf(grants[..i]) + {KeyOf(grants[i])}
    ensures ScopedBy(grants[..i + 1], k, id)
         == if KeyOf(grants[i]) == k && IdOf(grants[i]) == id && grants[i].config.scopes != []
            then Some(grants[i].config.scopes) else ScopedBy(grants[..i], k, id)
  {
    hide Fits, IdOf, KeyOf;
    assert grants[..i + 1] == grants[..i] + [grants[i]];
    assert grants[..i + 1][..i] == grants[..i];
  }

  lemma {:induction false} FirstStays(grants: seq<Grant>, i: nat, k: Key)
    requires i < |grants|
    ensures k in KeysOf(grants[..i]) ==> FirstBinding(grants[..i + 1], k) == FirstBinding(grants[..i], k)
    ensures k !in KeysOf(grants[..i]) && KeyOf(grants[i]) == k ==>
              FirstBinding(grants[..i + 1], k)
              == if grants[i].config.scopes == [] then None else Some(grants[i].config.scopes)
  {
    hide KeyOf;
    if i > 0 {
      FirstStays(grants[1..], i - 1, k);
      assert grants[..i][1..] == grants[1..][..i - 1] && grants[..i + 1][1..] == grants[1..][..i];
      assert grants[..i] == [grants[0]] + grants[1..][..i - 1];
    }
  }

  /** The dictionaries the walk fills. */
  datatype Gathered = Gathered(
    scopes: map<Key, set<seq<string>>>, resources: map<Key, set<string>>,
    bindings: map<Key, map<string, seq<string>>>, extra: seq<(Key, Option<seq<string>>)>)

  ghost predicate GatheredFrom(all: Gathered, grants: seq<Grant>, base: set<Key>)
    requires forall g :: g in grants ==> Fits(g)
  {
    && (forall k :: At(all.scopes, k) == ScopesOf(grants, k))
    && (forall k :: At(all.resources, k) == IdsOf(grants, k))
    && (forall k, id :: ScopeAt(all.bindings, k, id) == ScopedBy(grants, k, id))
    && (forall k :: k in KeysOf(grants) && k !in base ==> (k, FirstBinding(grants, k)) in all.extra)
    && (forall e :: e in all.extra ==> e.0 in KeysOf(grants) && e.0 !in base && e.1 == FirstBinding(grants, e.0))
    && (forall i, j :: 0 <= i < j < |all.extra| ==> all.extra[i].0 != all.extra[j].0)
  }

  method Gather(grants: seq<Grant>, base: set<Key>) returns (all: Gathered)
    requires forall g :: g in grants ==> Fits(g)
    ensures GatheredFrom(all, grants, base)
  {
    hide Fits, IdOf, KeyOf, GatheredFrom, KeysOf;
    all := Gathered(map[], map[], map[], []);
    var existing := base;
    GatherNothing(all, base);
    assert grants[..0] == [];
    for i := 0 to |grants|
      invariant forall g :: g in grants[..i] ==> Fits(g)
      invariant GatheredFrom(all, grants[..i], base)
      invariant existing == base + KeysOf(grants[..i])
    {
      var g := grants[i];
      var k, id, scopes := KeyOf(g), IdOf(g), g.config.scopes;
      OneMore(grants, i, k, id);
      var extra := all.extra;
      if k !in existing {
        existing := existing + {k};
        extra := extra + [(k, if scopes == [] then None else Some(scopes))];
      }
      GatherOne(all, grants, i, base);
      all := Gathered(Add(all.scopes, k, scopes), Add(all.resources, k, id),
                      Bound(all.bindings, k, id, scopes), extra);
    }
    assert grants[..|grants|] == grants;
  }

  function Bound(m: map<Key, map<string, seq<string>>>, k: Key, id: string, scopes: seq<string>)
    : map<Key, map<string, seq<string>>>
  {
    if scopes == [] then m else m[k := (if k in m then m[k] else map[])[id := scopes]]
  }

  lemma GatherNothing(all: Gathered, base: set<Key>)
    requires all == Gathered(map[], map[], map[], [])
    ensures GatheredFrom(all, [], base) && KeysOf([]) == {}
  {
  }

  lemma GatherOne(all: Gathered, grants: seq<Grant>, i: nat, base: set<Key>)
    requires i < |grants| && (forall g :: g in grants ==> Fits(g)) && GatheredFrom(all, grants[..i], base)
    ensures var g := grants[i];
            var k, id, scopes := KeyOf(g), IdOf(g), g.config.scopes;
            var extra := if k in base + KeysOf(grants[..i]) then all.extra
                         else all.extra + [(k, if scopes == [] then None else Some(scopes))];
            (forall h :: h in grants[..i + 1] ==> Fits(h))
            && GatheredFrom(
                 Gathered(Add(all.scopes, k, scopes), Add(all.resources, k, id),
                          Bound(all.bindings, k, id, scopes), extra),
                 grants[..i + 1], base)
  {
    hide Fits, IdOf, KeyOf, Add, At, Bound, ScopeAt, ScopesOf, IdsOf, FirstBinding, ScopedBy, KeysOf;
    var g := grants[i];
    OneMore(grants, i, KeyOf(g), IdOf(g));
    GatherScopes(all, grants, i, base);
    GatherExtra(all, grants, i, base);
  }

  lemma {:induction false} GatherScopes(all: Gathered, grants: seq<Grant>, i: nat, base: set<Key>)
    requires i < |grants| && (forall g :: g in grants ==> Fits(g)) && GatheredFrom(all, grants[..i], base)
    ensures forall h :: h in grants[..i + 1] ==> Fits(h)
    ensures var g := grants[i];
            var k, id, scopes := KeyOf(g), IdOf(g), g.config.scopes;
            && (forall x :: At(Add(all.scopes, k, scopes), x) == ScopesOf(grants[..i + 1], x))
            && (forall x :: At(Add(all.resources, k, id), x) == IdsOf(grants[..i + 1], x))
            && (forall x, y :: ScopeAt(Bound(all.bindings, k, id, scopes), x, y) == ScopedBy(grants[..i + 1], x, y))
  {
    hide Fits, IdOf, KeyOf, ScopesOf, IdsOf, KeysOf, FirstBinding, ScopedBy;
    var g := grants[i];
    var k, id, scopes := KeyOf(g), IdOf(g), g.config.scopes;
    OneMore(grants, i, k, id);
    forall x ensures At(Add(all.scopes, k, scopes), x) == ScopesOf(grants[..i + 1], x) {
      OneMore(grants, i, x, id);
    }
    forall x ensures At(Add(all.resources, k, id), x) == IdsOf(grants[..i + 1], x) {
      OneMore(grants, i, x, id);
    }
    forall x, y ensures ScopeAt(Bound(all.bindings, k, id, scopes), x, y) == ScopedBy(grants[..i + 1], x, y) {
      OneMore(grants, i, x, y);
    }
  }

  lemma {:induction false} GatherExtra(all: Gathered, grants: seq<Grant>, i: nat, base: set<Key>)
    requires i < |grants| && (forall g :: g in grants ==> Fits(g)) && GatheredFrom(all, grants[..i], base)
    ensures var g := grants[i];
            var k, scopes := KeyOf(g), g.config.scopes;
            var extra := if k in base + KeysOf(grants[..i]) then all.extra
                         else all.extra + [(k, if scopes == [] then None else Some(scopes))];
            && (forall x :: x in KeysOf(grants[..i + 1]) && x !in base ==>
                  (x, FirstBinding(grants[..i + 1], x)) in extra)
            && (forall e :: e in extra ==>
                  e.0 in KeysOf(grants[..i + 1]) && e.0 !in base && e.1 == FirstBinding(grants[..i + 1], e.0))
            && (forall a, b :: 0 <= a < b < |extra| ==> extra[a].0 != extra[b].0)
  {
    hide Fits, IdOf, KeyOf, ScopesOf, IdsOf, FirstBinding, ScopedBy, KeysOf;
    var g := grants[i];
    var k, scopes := KeyOf(g), g.config.scopes;
    OneMore(grants, i, k, "");
    forall x ensures x in KeysOf(grants[..i]) ==> FirstBinding(grants[..i + 1], x) == FirstBinding(grants[..i], x) {
      FirstStays(grants, i, x);
    }
    FirstStays(grants, i, k);
    assert forall a :: 0 <= a < |all.extra| ==> all.extra[a] in all.extra;
    if k !in base + KeysOf(grants[..i]) {
      var added := (k, if scopes == [] then None else Some(scopes));
      assert added in all.extra + [added];
      assert forall e :: e in all.extra ==> e in all.extra + [added];
    }
  }

  /** A resource of an identity: some grant in force derives it under that identity. */
  ghost predicate Serves(reg: Registry, k: Key, id: string, scopes: seq<string>) {
    exists g :: InForce(reg, g) && Fits(g) && KeyOf(g) == k && IdOf(g) == id && g.config.scopes == scopes
  }

  /** Every source that grants the identity declares these scopes. */
  ghost predicate Unanimous(reg: Registry, k: Key, scopes: seq<string>) {
    forall g :: InForce(reg, g) && KeyOf(g) == k ==> g.config.scopes == scopes
  }

  function OwnScopes(e: Entry, id: string): Option<seq<string>> {
    if id in e.scopes then Some(e.scopes[id]) else None
  }

  /** What an added entry tells: its resources, the capacity all its sources agree on, and each one's own. */
  ghost predicate EntryOk(reg: Registry, e: Entry) {
    && (exists g :: InForce(reg, g) && KeyOf(g) == e.key)
    && (forall id :: id in e.resources <==> exists scopes :: Serves(reg, e.key, id, scopes))
    && (forall scopes :: e.bindings == Some(scopes) <==> scopes != [] && Unanimous(reg, e.key, scopes))
    && (forall id, scopes :: OwnScopes(e, id) == Some(scopes) <==> scopes != [] && Serves(reg, e.key, id, scopes))
  }

  /** One entry for each granted identity the base catalog lacks. */
  ghost predicate EntriesOk(reg: Registry, base: set<Key>, extra: seq<Entry>) {
    && (forall e :: e in extra ==> EntryOk(reg, e) && e.key !in base)
    && (forall g :: InForce(reg, g) && KeyOf(g) !in base ==> exists e :: e in extra && e.key == KeyOf(g))
    && (forall i, j :: 0 <= i < j < |extra| ==> extra[i].key != extra[j].key)
  }

  function EntryFrom(all: Gathered, i: nat): Entry
    requires i < |all.extra|
  {
    var k := all.extra[i].0;
    Entry(k, if |At(all.scopes, k)| == 1 then all.extra[i].1 else None, At(all.resources, k),
          if k in all.bindings then all.bindings[k] else map[])
  }

  method DerivedCatalogEntries(reg: Registry, base: set<Key>) returns (extra: seq<Entry>)
    requires WellFormed(reg)
    ensures EntriesOk(reg, base, extra)
  {
    hide InForce, Fits, IdOf, KeyOf, EntryOk, EntryFrom, NoRepeat, FirstBinding;
    var grants := WalkEntries(reg);
    var all := Gather(grants, base);
    extra := [];
    for i := 0 to |all.extra|
      invariant |extra| == i
      invariant forall j :: 0 <= j < i ==> extra[j] == EntryFrom(all, j)
    {
      extra := extra + [EntryFrom(all, i)];
    }
    forall j | 0 <= j < |extra| ensures EntryOk(reg, extra[j]) && extra[j].key == all.extra[j].0 {
      EntryFromOk(reg, grants, base, all, j);
    }
    forall g: Grant | InForce(reg, g) && KeyOf(g) !in base ensures exists e :: e in extra && e.key == KeyOf(g) {
      assert KeyOf(g) in KeysOf(grants);
      var j :| 0 <= j < |all.extra| && all.extra[j] == (KeyOf(g), FirstBinding(grants, KeyOf(g)));
      assert extra[j] in extra;
    }
    assert forall e :: e in extra ==> e.key !in base;
  }

  lemma EntryFromOk(reg: Registry, grants: seq<Grant>, base: set<Key>, all: Gathered, i: nat)
    requires forall g :: g in grants <==> InForce(reg, g)
    requires forall g :: g in grants ==> Fits(g)
    requires GatheredFrom(all, grants, base) && i < |all.extra|
    ensures EntryOk(reg, EntryFrom(all, i)) && EntryFrom(all, i).key == all.extra[i].0
  {
    hide InForce, Fits, IdOf, KeyOf, ScopesOf, IdsOf, ScopedBy, FirstBinding, At, ScopeAt, Serves, Unanimous;
    var k, e := all.extra[i].0, EntryFrom(all, i);
    assert all.extra[i] in all.extra;
    FirstIs(grants, k);
    var g0: Grant :| g0 in grants && KeyOf(g0) == k;
    assert InForce(reg, g0) && KeyOf(g0) == e.key;
    forall id ensures id in e.resources <==> exists scopes :: Serves(reg, e.key, id, scopes) {
      EntryResources(reg, grants, k, id);
    }
    forall id, scopes ensures OwnScopes(e, id) == Some(scopes) <==> scopes != [] && Serves(reg, e.key, id, scopes) {
      assert ScopeAt(all.bindings, k, id) == ScopedBy(grants, k, id);
      ScopedIs(reg, grants, k, id, scopes);
      ScopeAtIs(all.bindings, k, id);
    }
    forall scopes ensures e.bindings == Some(scopes) <==> scopes != [] && Unanimous(reg, e.key, scopes) {
      assert At(all.scopes, k) == ScopesOf(grants, k);
      BindingIs(reg, grants, k, scopes);
    }
  }

  lemma ScopeAtIs(m: map<Key, map<string, seq<string>>>, k: Key, id: string)
    ensures var scopes := if k in m then m[k] else map[];
            ScopeAt(m, k, id) == if id in scopes then Some(scopes[id]) else None
  {
  }

  lemma EntryResources(reg: Registry, grants: seq<Grant>, k: Key, id: string)
    requires forall g :: g in grants <==> InForce(reg, g)
    requires forall g :: g in grants ==> Fits(g)
    ensures id in IdsOf(grants, k) <==> exists scopes :: Serves(reg, k, id, scopes)
  {
    hide InForce, Fits, IdOf, KeyOf;
    if id in IdsOf(grants, k) {
      var g: Grant :| g in grants && KeyOf(g) == k && IdOf(g) == id;
      assert Serves(reg, k, id, g.config.scopes);
    }
  }

  lemma {:induction false} BindingIs(reg: Registry, grants: seq<Grant>, k: Key, scopes: seq<string>)
    requires forall g :: g in grants <==> InForce(reg, g)
    requires k in KeysOf(grants)
    ensures (if |ScopesOf(grants, k)| == 1 then FirstBinding(grants, k) else None) == Some(scopes) <==>
            scopes != [] && Unanimous(reg, k, scopes)
  {
    hide InForce, KeyOf, FirstBinding;
    FirstIs(grants, k);
    var g0: Grant :| g0 in grants && KeyOf(g0) == k;
    if scopes != [] && Unanimous(reg, k, scopes) {
      assert g0.config.scopes in ScopesOf(grants, k);
      assert ScopesOf(grants, k) == {scopes};
    }
    if |ScopesOf(grants, k)| == 1 && FirstBinding(grants, k) == Some(scopes) { OnlyScope(reg, grants, k, scopes); }
  }

  lemma {:induction false} FirstIs(grants: seq<Grant>, k: Key)
    ensures FirstBinding(grants, k).Some? ==>
              FirstBinding(grants, k).value in ScopesOf(grants, k) && FirstBinding(grants, k).value != []
    ensures FirstBinding(grants, k).None? && k in KeysOf(grants) ==> [] in ScopesOf(grants, k)
    ensures k in KeysOf(grants) ==> exists g :: g in grants && KeyOf(g) == k
  {
    hide KeyOf;
    if grants != [] && KeyOf(grants[0]) != k {
      FirstIs(grants[1..], k);
      assert grants == [grants[0]] + grants[1..];
      assert ScopesOf(grants[1..], k) <= ScopesOf(grants, k);
    }
  }

  lemma OneScope(grants: seq<Grant>, k: Key)
    ensures |ScopesOf(grants, k)| == 1 ==>
              forall g :: g in grants && KeyOf(g) == k ==> ScopesOf(grants, k) == {g.config.scopes}
  {
    hide KeyOf;
    if |ScopesOf(grants, k)| == 1 {
      forall g: Grant | g in grants && KeyOf(g) == k ensures ScopesOf(grants, k) == {g.config.scopes} {
        assert g.config.scopes in ScopesOf(grants, k);
        assert |ScopesOf(grants, k) - {g.config.scopes}| == 0;
      }
    }
  }

  lemma OnlyScope(reg: Registry, grants: seq<Grant>, k: Key, scopes: seq<string>)
    requires forall g :: g in grants <==> InForce(reg, g)
    requires |ScopesOf(grants, k)| == 1 && scopes in ScopesOf(grants, k)
    ensures Unanimous(reg, k, scopes)
  {
    hide KeyOf, InForce;
    OneScope(grants, k);
  }

  /** Two grants with one resource id are the same grant, so each resource has one set of scopes. */
  lemma {:induction false} ScopedIs(reg: Registry, grants: seq<Grant>, k: Key, id: string, scopes: seq<string>)
    requires forall g :: g in grants <==> InForce(reg, g)
    requires forall g :: g in grants ==> Fits(g)
    ensures ScopedBy(grants, k, id) == Some(scopes) <==> scopes != [] && Serves(reg, k, id, scopes)
  {
    hide InForce, Fits, IdOf, KeyOf;
    ScopedFrom(grants, k, id);
    if scopes != [] && Serves(reg, k, id, scopes) {
      var g: Grant :| InForce(reg, g) && Fits(g) && KeyOf(g) == k && IdOf(g) == id && g.config.scopes == scopes;
      var h: Grant :| h in grants && KeyOf(h) == k && IdOf(h) == id && ScopedBy(grants, k, id) == Some(h.config.scopes);
      IdsDiffer(g, h, reg);
    }
  }

  lemma {:induction false} ScopedFrom(grants: seq<Grant>, k: Key, id: string)
    requires forall g :: g in grants ==> Fits(g)
    ensures ScopedBy(grants, k, id).Some? ==>
              ScopedBy(grants, k, id).value != []
              && exists g :: g in grants && KeyOf(g) == k && IdOf(g) == id
                             && ScopedBy(grants, k, id) == Some(g.config.scopes)
    ensures ScopedBy(grants, k, id).None? ==>
              forall g :: g in grants && KeyOf(g) == k && IdOf(g) == id ==> g.config.scopes == []
  {
    hide Fits, IdOf, KeyOf;
    if grants != [] {
      var g, front := grants[|grants| - 1], grants[..|grants| - 1];
      ScopedFrom(front, k, id);
      assert grants == front + [g];
    }
  }

  // ---------------------------------------------------------------- the projections agree

  /**
   * Every derived registration has exactly one added catalog entry for its identity unless the base already has one,
   * and an added entry binds exactly the registrations with its identity.
   */
  lemma ProjectionsAgree(reg: Registry, base: set<Key>, out: seq<Registration>, extra: seq<Entry>)
    requires WellFormed(reg) && RegistrationsOk(reg, out) && EntriesOk(reg, base, extra)
    ensures forall r :: r in out && IdentityOf(r) !in base ==>
              exists i :: 0 <= i < |extra| && extra[i].key == IdentityOf(r)
                          && forall j :: 0 <= j < |extra| && extra[j].key == IdentityOf(r) ==> j == i
    ensures forall e :: e in extra ==>
              e.key !in base && e.resources == (set r | r in out && IdentityOf(r) == e.key :: r.id)
              && exists r :: r in out && IdentityOf(r) == e.key
  {
    hide InForce, Fits, IdOf, Lanes, WellFormed;
    forall g: Grant | Fits(g) ensures IdentityOf(RegistrationOf(g)) == KeyOf(g) && RegistrationOf(g).id == IdOf(g) { }
    forall r | r in out && IdentityOf(r) !in base
      ensures exists i :: 0 <= i < |extra| && extra[i].key == IdentityOf(r)
                          && forall j :: 0 <= j < |extra| && extra[j].key == IdentityOf(r) ==> j == i
    {
      var g: Grant :| InForce(reg, g) && Fits(g) && r == RegistrationOf(g);
      var e :| e in extra && e.key == KeyOf(g);
      var i :| 0 <= i < |extra| && extra[i] == e;
    }
    forall e | e in extra
      ensures e.resources == (set r | r in out && IdentityOf(r) == e.key :: r.id)
      ensures exists r :: r in out && IdentityOf(r) == e.key
    {
      EntryBinds(reg, out, e);
    }
  }

  lemma InForceFits(reg: Registry, g: Grant)
    requires WellFormed(reg) && InForce(reg, g)
    ensures Fits(g)
  {
    hide Fits, Lanes, CurrentExclusion;
    assert g == Grant(g.config, g.slug, g.effort);
  }

  lemma EntryBinds(reg: Registry, out: seq<Registration>, e: Entry)
    requires WellFormed(reg) && RegistrationsOk(reg, out) && EntryOk(reg, e)
    ensures e.resources == (set r | r in out && IdentityOf(r) == e.key :: r.id)
    ensures exists r :: r in out && IdentityOf(r) == e.key
  {
    hide Fits, IdOf, Lanes, CurrentExclusion, InForce, WellFormed;
    var g0: Grant :| InForce(reg, g0) && KeyOf(g0) == e.key;
    InForceFits(reg, g0);
    assert RegistrationOf(g0) in out;
    var ids := set r | r in out && IdentityOf(r) == e.key :: r.id;
    forall id ensures id in e.resources <==> id in ids {
      if id in e.resources {
        var scopes :| Serves(reg, e.key, id, scopes);
        var g: Grant :| InForce(reg, g) && Fits(g) && KeyOf(g) == e.key && IdOf(g) == id && g.config.scopes == scopes;
        assert RegistrationOf(g) in out;
      }
      if id in ids {
        var r :| r in out && IdentityOf(r) == e.key && r.id == id;
        var g: Grant :| InForce(reg, g) && Fits(g) && r == RegistrationOf(g);
        assert Serves(reg, e.key, id, g.config.scopes);
      }
    }
  }

  // ---------------------------------------------------------------- what adoption guarantees to the projections

  lemma {:induction false} AdoptingFits(config: Config, auth: Auth, models: seq<Model>, slug: string)
    requires AllFit(config, auth, models) && Adopting(config, auth, models, slug).Some?
    ensures forall lane :: lane in Lanes(Adopting(config, auth, models, slug).value) ==> Fits(Grant(config, slug, lane))
  {
    var m := models[|models| - 1];
    if m.slug == slug && Exclusion(config, auth, m).None? {
      assert !Bad(config, auth, m);
      if config.kind == CodexSubscription {
        SomesAre(PolicyEfforts(m.efforts));
        PolicyEffortsAre(m.efforts);
        forall e | PolicyEffort(e) ensures e != "" { EffortsAreShort(e); }
      }
    } else {
      AdoptingFits(config, auth, models[..|models| - 1], slug);
    }
  }

  /** Whatever a source has adopted, the ids its resources need are safe identifiers. */
  lemma {:induction false} AdoptedFits(config: Config, invs: seq<Inventory>, slug: string)
    requires forall i :: 0 <= i < |invs| ==> AllFit(config, invs[i].auth, invs[i].models)
    ensures TrackAll(config, invs, slug).Some? ==>
              forall lane :: lane in Lanes(TrackAll(config, invs, slug).value.efforts) ==>
                Fits(Grant(config, slug, lane))
  {
    hide Lanes, Fits, AllFit, Slugs, Adopting;
    if invs != [] {
      var last := invs[|invs| - 1];
      AdoptedFits(config, invs[..|invs| - 1], slug);
      if Adopting(config, last.auth, last.models, slug).Some? { AdoptingFits(config, last.auth, last.models, slug); }
    }
  }
}
