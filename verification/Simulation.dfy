/** What-if capacity: overriding observed quota windows of a registry snapshot, one window per override. */
module Simulation {
  import opened Wrappers

  datatype Window = Window(
    scope: string, resource: string, kind: string, id: Option<string>, used: Option<int>, remaining: Option<int>)

  /** A quota fact; only provider telemetry can be overridden. */
  datatype Fact = Fact(telemetry: bool, window: Window)

  datatype Observation = Observation(healthy: bool, facts: seq<Fact>)

  datatype Entry = Entry(id: string, current: bool, observation: Option<Observation>)

  /** One fact of one entry. */
  datatype Place = Place(entry: nat, fact: nat)

  datatype Override = Override(
    provider: string, scope: string, resource: string, kind: string, windowId: Option<string>, remaining: int)

  /** What the caller may see, and which scopes of which provider each resource draws from. */
  datatype Context = Context(visible: set<string>, bindings: set<(string, string, string)>)

  predicate UniqueIds(entries: seq<Entry>) {
    forall i, j :: 0 <= i < j < |entries| ==> entries[i].id != entries[j].id
  }

  predicate Open(c: Context, e: Entry, o: Override) {
    && e.id in c.visible && e.current && e.observation.Some? && e.observation.value.healthy
    && (e.id, o.provider, o.scope) in c.bindings
  }

  predicate Named(f: Fact, o: Override) {
    && f.telemetry && f.window.scope == o.scope && f.window.resource == o.resource && f.window.kind == o.kind
    && (o.windowId.None? || f.window.id == o.windowId)
  }

  /** Whether an override names the window at a place. */
  predicate Matches(c: Context, entries: seq<Entry>, o: Override, at: Place) {
    && at.entry < |entries| && Open(c, entries[at.entry], o)
    && at.fact < |entries[at.entry].observation.value.facts|
    && Named(entries[at.entry].observation.value.facts[at.fact], o)
  }

  predicate Within(entries: seq<Entry>, at: Place) {
    at.entry < |entries| && entries[at.entry].observation.Some? && at.fact < |entries[at.entry].observation.value.facts|
  }

  function FactAt(entries: seq<Entry>, at: Place): Fact
    requires Within(entries, at)
  {
    entries[at.entry].observation.value.facts[at.fact]
  }

  predicate Known(f: Fact) { f.window.used.Some? && f.window.remaining.Some? }

  predicate KnownAt(entries: seq<Entry>, at: Place) { Within(entries, at) && Known(FactAt(entries, at)) }

  function Overridden(f: Fact, o: Override): Fact {
    f.(window := f.window.(remaining := Some(o.remaining), used := Some(100 - o.remaining)))
  }

  // ---------------------------------------------------------------- what an override list asks for

  /** The one window an override names, when there is exactly one. */
  ghost predicate Targets(c: Context, entries: seq<Entry>, o: Override, at: Place) {
    Matches(c, entries, o, at) && forall other :: Matches(c, entries, o, other) ==> other == at
  }

  /** Each override names exactly one known window, and no two name the same. */
  ghost predicate Acceptable(c: Context, entries: seq<Entry>, overrides: seq<Override>) {
    && (forall o :: o in overrides ==> exists at :: Targets(c, entries, o, at) && KnownAt(entries, at))
    && (forall i, j, at :: 0 <= i < j < |overrides| && Targets(c, entries, overrides[i], at) ==>
          !Targets(c, entries, overrides[j], at))
  }

  predicate SameShape(a: seq<Entry>, b: seq<Entry>) {
    && |a| == |b|
    && forall i :: 0 <= i < |a| ==>
         && a[i].id == b[i].id && a[i].current == b[i].current && a[i].observation.Some? == b[i].observation.Some?
         && (a[i].observation.Some? ==>
               a[i].observation.value.healthy == b[i].observation.value.healthy
               && |a[i].observation.value.facts| == |b[i].observation.value.facts|)
  }

  /** Every named window is overridden by the override that names it, and nothing else is different. */
  ghost predicate Simulated(c: Context, entries: seq<Entry>, overrides: seq<Override>, r: seq<Entry>) {
    && SameShape(entries, r)
    && (forall at, o :: Within(entries, at) && o in overrides && Targets(c, entries, o, at) ==>
          FactAt(r, at) == Overridden(FactAt(entries, at), o))
    && (forall at :: Within(entries, at) && (forall o :: o in overrides ==> !Targets(c, entries, o, at)) ==>
          FactAt(r, at) == FactAt(entries, at))
  }

  // ---------------------------------------------------------------- the loop

  /** Every place an override names, once each. */
  method FindMatches(c: Context, entries: seq<Entry>, o: Override) returns (matches: seq<Place>)
    ensures forall at :: at in matches <==> Matches(c, entries, o, at)
    ensures forall a, b :: 0 <= a < b < |matches| ==> matches[a] != matches[b]
  {
    hide Named, Open;
    matches := [];
    for i := 0 to |entries|
      invariant forall at :: at in matches <==> Matches(c, entries, o, at) && at.entry < i
      invariant forall a, b :: 0 <= a < b < |matches| ==> matches[a] != matches[b]
    {
      if Open(c, entries[i], o) {
        OpenIsObserved(c, entries[i], o);
        var facts := entries[i].observation.value.facts;
        for j := 0 to |facts|
          invariant forall at :: at in matches <==>
                                 Matches(c, entries, o, at) && (at.entry < i || (at.entry == i && at.fact < j))
          invariant forall a, b :: 0 <= a < b < |matches| ==> matches[a] != matches[b]
        {
          if Named(facts[j], o) { matches := matches + [Place(i, j)]; }
        }
      }
    }
  }

  lemma OpenIsObserved(c: Context, e: Entry, o: Override)
    requires Open(c, e, o)
    ensures e.observation.Some?
  {
  }

  lemma OneMatch(c: Context, entries: seq<Entry>, o: Override, matches: seq<Place>)
    requires forall at :: at in matches <==> Matches(c, entries, o, at)
    requires forall a, b :: 0 <= a < b < |matches| ==> matches[a] != matches[b]
    ensures |matches| == 1 <==> exists at :: Targets(c, entries, o, at)
    ensures |matches| == 1 ==> Targets(c, entries, o, matches[0])
  {
    hide Matches;
    if exists at :: Targets(c, entries, o, at) {
      var at :| Targets(c, entries, o, at);
      assert at in matches;
      if |matches| > 1 { assert matches[0] in matches && matches[1] in matches && matches[0] != matches[1]; }
    }
    if |matches| == 1 {
      var at := matches[0];
      assert at in matches;
      forall other | Matches(c, entries, o, other) ensures other == at { assert other in matches; }
      assert Targets(c, entries, o, at);
    }
  }

  function Put(entries: seq<Entry>, at: Place, o: Override): (r: seq<Entry>)
    requires Within(entries, at)
    ensures SameShape(entries, r) && FactAt(r, at) == Overridden(FactAt(entries, at), o)
    ensures forall other :: Within(entries, other) && other != at ==> FactAt(r, other) == FactAt(entries, other)
  {
    var e := entries[at.entry];
    var facts := e.observation.value.facts[at.fact := Overridden(FactAt(entries, at), o)];
    entries[at.entry := e.(observation := Some(e.observation.value.(facts := facts)))]
  }

  /** Overriding percentages changes no identity, so every override names the same windows as before. */
  lemma SameTargets(
    c: Context, entries: seq<Entry>, overrides: seq<Override>, r: seq<Entry>, o: Override)
    requires Simulated(c, entries, overrides, r)
    ensures forall at :: Matches(c, r, o, at) <==> Matches(c, entries, o, at)
    ensures forall at :: Targets(c, r, o, at) <==> Targets(c, entries, o, at)
  {
    forall at ensures Matches(c, r, o, at) <==> Matches(c, entries, o, at) {
      SameMatch(c, entries, overrides, r, o, at);
    }
  }

  lemma SameMatch(
    c: Context, entries: seq<Entry>, overrides: seq<Override>, r: seq<Entry>, o: Override, at: Place)
    requires Simulated(c, entries, overrides, r)
    ensures Matches(c, r, o, at) <==> Matches(c, entries, o, at)
  {
    if Within(entries, at) {
      hide Targets;
      if exists x :: x in overrides && Targets(c, entries, x, at) {
        var x :| x in overrides && Targets(c, entries, x, at);
        assert FactAt(r, at) == Overridden(FactAt(entries, at), x);
      } else {
        assert FactAt(r, at) == FactAt(entries, at);
      }
    }
  }

  /** Whether some override names a window. */
  ghost predicate Touched(c: Context, entries: seq<Entry>, overrides: seq<Override>, at: Place) {
    exists o :: o in overrides && Targets(c, entries, o, at)
  }

  /** One more override is acceptable when the window it names is known and was not named before. */
  lemma AcceptableStep(
    c: Context, entries: seq<Entry>, overrides: seq<Override>, o: Override, at: Place)
    requires Acceptable(c, entries, overrides) && Targets(c, entries, o, at)
    ensures Acceptable(c, entries, overrides + [o]) <==>
            KnownAt(entries, at) && !Touched(c, entries, overrides, at)
  {
    hide Matches, KnownAt;
    var all, n := overrides + [o], |overrides|;
    assert all[n] == o && o in all;
    if Touched(c, entries, overrides, at) {
      var x :| x in overrides && Targets(c, entries, x, at);
      var i :| 0 <= i < n && overrides[i] == x;
      assert all[i] == x;
    }
    if KnownAt(entries, at) && !Touched(c, entries, overrides, at) {
      forall i, j, x | 0 <= i < j < |all| && Targets(c, entries, all[i], x) ensures !Targets(c, entries, all[j], x) {
        if j == n { assert overrides[i] in overrides; }
      }
    }
  }

  lemma AcceptablePrefix(c: Context, entries: seq<Entry>, overrides: seq<Override>, n: nat)
    requires n <= |overrides| && Acceptable(c, entries, overrides)
    ensures Acceptable(c, entries, overrides[..n])
  {
    hide Targets, KnownAt;
    assert forall i :: 0 <= i < n ==> overrides[..n][i] == overrides[i];
    assert forall o :: o in overrides[..n] ==> o in overrides;
  }

  lemma SimulatedStep(
    c: Context, entries: seq<Entry>, overrides: seq<Override>, r: seq<Entry>, o: Override, at: Place)
    requires Simulated(c, entries, overrides, r) && Targets(c, entries, o, at) && !Touched(c, entries, overrides, at)
    ensures Within(r, at) && Simulated(c, entries, overrides + [o], Put(r, at, o))
  {
    hide Matches, Overridden;
    assert Within(entries, at) by { TargetIsWithin(c, entries, o, at); }
    assert o in overrides + [o];
    assert forall x :: x in overrides ==> x in overrides + [o];
    var next := Put(r, at, o);
    forall x, other | Within(entries, other) && x in overrides + [o] && Targets(c, entries, x, other)
      ensures FactAt(next, other) == Overridden(FactAt(entries, other), x)
    {
      if other == at {
        assert x == o by { assert x in overrides ==> Touched(c, entries, overrides, at); }
      } else {
        assert x in overrides;
      }
    }
    forall other | Within(entries, other) && (forall x :: x in overrides + [o] ==> !Targets(c, entries, x, other))
      ensures FactAt(next, other) == FactAt(entries, other)
    {
      assert other != at;
    }
  }

  lemma TargetIsWithin(c: Context, entries: seq<Entry>, o: Override, at: Place)
    requires Targets(c, entries, o, at)
    ensures Within(entries, at)
  {
  }

  /** The windows already changed, as the loop remembers them. */
  ghost predicate Remembers(
    c: Context, entries: seq<Entry>, overrides: seq<Override>, changed: set<(string, nat)>)
  {
    forall at :: Within(entries, at) ==>
      ((entries[at.entry].id, at.fact) in changed <==> Touched(c, entries, overrides, at))
  }

  lemma RemembersStep(
    c: Context, entries: seq<Entry>, overrides: seq<Override>, changed: set<(string, nat)>, o: Override, at: Place)
    requires UniqueIds(entries) && Remembers(c, entries, overrides, changed) && Targets(c, entries, o, at)
    ensures Within(entries, at)
    ensures Remembers(c, entries, overrides + [o], changed + {(entries[at.entry].id, at.fact)})
  {
    hide Matches;
    TargetIsWithin(c, entries, o, at);
    assert o in overrides + [o];
    forall other | Within(entries, other)
      ensures (entries[other.entry].id, other.fact) in changed + {(entries[at.entry].id, at.fact)}
              <==> Touched(c, entries, overrides + [o], other)
    {
      if Touched(c, entries, overrides, other) {
        var x :| x in overrides && Targets(c, entries, x, other);
        assert x in overrides + [o];
      }
      if Touched(c, entries, overrides + [o], other) && other != at {
        var x :| x in overrides + [o] && Targets(c, entries, x, other);
        assert x in overrides;
      }
      if entries[other.entry].id == entries[at.entry].id { SameEntry(entries, other.entry, at.entry); }
    }
  }

  lemma SameEntry(entries: seq<Entry>, i: nat, j: nat)
    requires UniqueIds(entries) && i < |entries| && j < |entries| && entries[i].id == entries[j].id
    ensures i == j
  {
  }

  lemma NothingSimulated(c: Context, entries: seq<Entry>)
    ensures Acceptable(c, entries, []) && Simulated(c, entries, [], entries) && Remembers(c, entries, [], {})
  {
  }

  /** The overrides one after the other, refused as soon as one does not name exactly one known, untouched window. */
  method Simulate(c: Context, entries: seq<Entry>, overrides: seq<Override>) returns (r: Option<seq<Entry>>)
    requires UniqueIds(entries)
    ensures r.Some? <==> Acceptable(c, entries, overrides)
    ensures r.Some? ==> Simulated(c, entries, overrides, r.value)
  {
    hide Acceptable, Simulated, Targets, Matches, Remembers, Touched, UniqueIds, Known, Put, SameShape;
    var current := entries;
    var changed: set<(string, nat)> := {};
    NothingSimulated(c, entries);
    assert overrides[..0] == [];
    for k := 0 to |overrides|
      invariant Acceptable(c, entries, overrides[..k]) && Simulated(c, entries, overrides[..k], current)
      invariant Remembers(c, entries, overrides[..k], changed)
    {
      var o := overrides[k];
      assert overrides[..k + 1] == overrides[..k] + [o];
      SameTargets(c, entries, overrides[..k], current, o);
      var matches := FindMatches(c, current, o);
      OneMatch(c, current, o, matches);
      if |matches| != 1 {
        NoTarget(c, entries, overrides, k);
        return None;
      }
      var at := matches[0];
      ChosenIs(c, entries, overrides[..k], current, changed, o, at);
      AcceptableStep(c, entries, overrides[..k], o, at);
      var fact := FactAt(current, at);
      if fact.window.used.None? || fact.window.remaining.None? || (current[at.entry].id, at.fact) in changed {
        KnownIs(fact);
        Refused(c, entries, overrides, k);
        return None;
      }
      KnownIs(fact);
      RemembersStep(c, entries, overrides[..k], changed, o, at);
      SimulatedStep(c, entries, overrides[..k], current, o, at);
      changed := changed + {(current[at.entry].id, at.fact)};
      current := Put(current, at, o);
    }
    assert overrides[..|overrides|] == overrides;
    return Some(current);
  }

  lemma KnownIs(f: Fact)
    ensures Known(f) <==> f.window.used.Some? && f.window.remaining.Some?
  {
  }

  lemma NoTarget(c: Context, entries: seq<Entry>, overrides: seq<Override>, k: nat)
    requires k < |overrides| && !exists at :: Targets(c, entries, overrides[k], at)
    ensures !Acceptable(c, entries, overrides)
  {
    hide Targets;
    assert overrides[k] in overrides;
  }

  lemma Refused(c: Context, entries: seq<Entry>, overrides: seq<Override>, k: nat)
    requires k < |overrides| && !Acceptable(c, entries, overrides[..k + 1])
    ensures !Acceptable(c, entries, overrides)
  {
    hide Acceptable;
    if Acceptable(c, entries, overrides) { AcceptablePrefix(c, entries, overrides, k + 1); }
  }

  /** The window found in the current entries is the one named in the original ones, changed exactly when remembered. */
  lemma ChosenIs(
    c: Context, entries: seq<Entry>, overrides: seq<Override>, current: seq<Entry>, changed: set<(string, nat)>,
    o: Override, at: Place)
    requires Simulated(c, entries, overrides, current) && Remembers(c, entries, overrides, changed)
    requires Targets(c, entries, o, at)
    ensures Within(entries, at) && Within(current, at) && current[at.entry].id == entries[at.entry].id
    ensures (current[at.entry].id, at.fact) in changed <==> Touched(c, entries, overrides, at)
    ensures !Touched(c, entries, overrides, at) ==> FactAt(current, at) == FactAt(entries, at)
  {
    hide Matches;
    TargetIsWithin(c, entries, o, at);
  }

  // ---------------------------------------------------------------- any order

  /** Whether the overrides name different windows does not depend on their order. */
  lemma AcceptableInAnyOrder(c: Context, entries: seq<Entry>, a: seq<Override>, b: seq<Override>)
    requires multiset(a) == multiset(b) && Acceptable(c, entries, a)
    ensures Acceptable(c, entries, b)
  {
    hide Targets, KnownAt;
    forall o | o in b ensures exists at :: Targets(c, entries, o, at) && KnownAt(entries, at) {
      assert o in multiset(b);
      assert o in a;
    }
    forall i, j, at | 0 <= i < j < |b| && Targets(c, entries, b[i], at) ensures !Targets(c, entries, b[j], at) {
      if Targets(c, entries, b[j], at) { TwoPlaces(c, entries, a, b, i, j, at); }
    }
  }

  lemma TwoPlaces(
    c: Context, entries: seq<Entry>, a: seq<Override>, b: seq<Override>, i: nat, j: nat, at: Place)
    requires multiset(a) == multiset(b) && i < j < |b|
    requires Targets(c, entries, b[i], at) && Targets(c, entries, b[j], at)
    ensures !Acceptable(c, entries, a)
  {
    hide Targets, KnownAt;
    if b[i] == b[j] {
      TwiceInBoth(b, i, j);
      TwoIndices(a, b[i]);
      var k, l :| 0 <= k < l < |a| && a[k] == b[i] && a[l] == b[i];
      assert Targets(c, entries, a[k], at) && Targets(c, entries, a[l], at);
    } else {
      assert b[i] in multiset(b) && b[j] in multiset(b);
      var k :| 0 <= k < |a| && a[k] == b[i];
      var l :| 0 <= l < |a| && a[l] == b[j];
      assert Targets(c, entries, a[k], at) && Targets(c, entries, a[l], at);
    }
  }

  lemma TwiceInBoth(s: seq<Override>, i: nat, j: nat)
    requires i < j < |s| && s[i] == s[j]
    ensures multiset(s)[s[i]] >= 2
  {
    assert s == s[..j] + [s[j]] + s[j + 1..];
    assert s[i] in s[..j];
    assert s[i] in multiset(s[..j]);
  }

  lemma {:induction false} TwoIndices(s: seq<Override>, o: Override)
    requires multiset(s)[o] >= 2
    ensures exists k, l :: 0 <= k < l < |s| && s[k] == o && s[l] == o
  {
    var front, last := s[..|s| - 1], s[|s| - 1];
    assert s == front + [last];
    if last == o {
      assert o in multiset(front);
      var k :| 0 <= k < |front| && front[k] == o;
      assert s[k] == o && s[|s| - 1] == o;
    } else {
      TwoIndices(front, o);
      var k, l :| 0 <= k < l < |front| && front[k] == o && front[l] == o;
      assert s[k] == o && s[l] == o;
    }
  }

  /** A snapshot is determined by the overrides as a collection. */
  lemma SimulatedIsUnique(
    c: Context, entries: seq<Entry>, a: seq<Override>, b: seq<Override>, r: seq<Entry>, s: seq<Entry>)
    requires multiset(a) == multiset(b) && Simulated(c, entries, a, r) && Simulated(c, entries, b, s)
    ensures r == s
  {
    hide Targets;
    assert forall o :: o in a <==> o in multiset(a);
    assert forall o :: o in b <==> o in multiset(b);
    forall i | 0 <= i < |r| ensures r[i] == s[i] {
      if entries[i].observation.Some? {
        forall j | 0 <= j < |entries[i].observation.value.facts|
          ensures r[i].observation.value.facts[j] == s[i].observation.value.facts[j]
        {
          FactIsUnique(c, entries, a, b, r, s, Place(i, j));
        }
        assert r[i].observation.value.facts == s[i].observation.value.facts;
      }
    }
  }

  lemma FactIsUnique(
    c: Context, entries: seq<Entry>, a: seq<Override>, b: seq<Override>, r: seq<Entry>, s: seq<Entry>, at: Place)
    requires (forall o :: o in a <==> o in b) && Simulated(c, entries, a, r) && Simulated(c, entries, b, s)
    requires Within(entries, at)
    ensures FactAt(r, at) == FactAt(s, at)
  {
    hide Targets;
    if Touched(c, entries, a, at) {
      var o :| o in a && Targets(c, entries, o, at);
      assert FactAt(r, at) == Overridden(FactAt(entries, at), o) == FactAt(s, at);
    } else {
      assert FactAt(r, at) == FactAt(entries, at) == FactAt(s, at);
    }
  }

  /** Two orders of the same overrides give the same snapshot, or are both refused. */
  method SimulateInTwoOrders(c: Context, entries: seq<Entry>, a: seq<Override>, b: seq<Override>)
    returns (x: Option<seq<Entry>>, y: Option<seq<Entry>>)
    requires UniqueIds(entries) && multiset(a) == multiset(b)
    ensures x == y
    ensures x.Some? <==> Acceptable(c, entries, a)
  {
    hide Acceptable, Simulated;
    x := Simulate(c, entries, a);
    y := Simulate(c, entries, b);
    if x.Some? { AcceptableInAnyOrder(c, entries, a, b); }
    if y.Some? { AcceptableInAnyOrder(c, entries, b, a); }
    if x.Some? { SimulatedIsUnique(c, entries, a, b, x.value, y.value); }
  }

  predicate Percentages(f: Fact) {
    f.window.used.Some? && f.window.remaining.Some? ==> f.window.used.value + f.window.remaining.value == 100
  }

  /** A simulated snapshot differs from the observed one in exactly one window per override, and stays consistent. */
  lemma OneWindowEach(
    c: Context, entries: seq<Entry>, overrides: seq<Override>, r: seq<Entry>, i: nat)
    requires Acceptable(c, entries, overrides) && Simulated(c, entries, overrides, r) && i < |overrides|
    ensures exists at ::
              && Targets(c, entries, overrides[i], at) && Within(entries, at)
              && FactAt(r, at).window.remaining == Some(overrides[i].remaining)
              && FactAt(r, at).window.used == Some(100 - overrides[i].remaining)
              && (forall j :: 0 <= j < |overrides| && j != i ==> !Targets(c, entries, overrides[j], at))
    ensures forall at :: Within(entries, at) && Percentages(FactAt(entries, at)) ==> Percentages(FactAt(r, at))
  {
    hide Matches;
    var o := overrides[i];
    assert o in overrides;
    var at :| Targets(c, entries, o, at) && KnownAt(entries, at);
    TargetIsWithin(c, entries, o, at);
    assert FactAt(r, at) == Overridden(FactAt(entries, at), o);
    forall x: Place | Within(entries, x) && Percentages(FactAt(entries, x)) ensures Percentages(FactAt(r, x)) {
      if Touched(c, entries, overrides, x) {
        var y :| y in overrides && Targets(c, entries, y, x);
        assert FactAt(r, x) == Overridden(FactAt(entries, x), y);
      }
    }
  }

  // ---------------------------------------------------------------- which windows can be overridden at all

  /** A window whose scope is the one at `a` and which a request for the window at `a` cannot tell from it. */
  predicate Alike(a: Window, b: Window) {
    a.scope == b.scope && a.resource == b.resource && a.kind == b.kind && (a.id.None? || a.id == b.id)
  }

  /** A telemetry window of a fresh, healthy resource the caller sees, drawing from this scope of the provider. */
  predicate Offered(c: Context, entries: seq<Entry>, provider: string, at: Place)
    requires Within(entries, at)
  {
    var e, f := entries[at.entry], FactAt(entries, at);
    e.current && e.observation.value.healthy && f.telemetry
    && e.id in c.visible && (e.id, provider, f.window.scope) in c.bindings
  }

  /** A provider offers the window, and no other one like it. */
  ghost predicate OffersAlone(c: Context, entries: seq<Entry>, provider: string, at: Place)
    requires Within(entries, at)
  {
    && Offered(c, entries, provider, at)
    && forall x | Within(entries, x) && Offered(c, entries, provider, x) ::
         Alike(FactAt(entries, at).window, FactAt(entries, x).window) ==> x == at
  }

  /** Some override of a window to this percentage is accepted on its own. */
  ghost predicate CanBeOverridden(c: Context, entries: seq<Entry>, at: Place, remaining: int) {
    exists o: Override :: o.remaining == remaining && Targets(c, entries, o, at) && Acceptable(c, entries, [o])
  }

  /**
   * A window can be overridden exactly if both its percentages are known and some provider offers it and no other
   * window like it: nothing hidden, stale, unhealthy, unbound or measured by the host can ever be overridden, and
   * everything else can.
   */
  lemma CanBeOverriddenIff(c: Context, entries: seq<Entry>, at: Place, remaining: int)
    requires Within(entries, at)
    ensures CanBeOverridden(c, entries, at, remaining) <==>
              && FactAt(entries, at).window.used.Some? && FactAt(entries, at).window.remaining.Some?
              && exists provider :: OffersAlone(c, entries, provider, at)
  {
    var w := FactAt(entries, at).window;
    if CanBeOverridden(c, entries, at, remaining) {
      var o: Override :| o.remaining == remaining && Targets(c, entries, o, at) && Acceptable(c, entries, [o]);
      assert o in [o];
      var known :| Targets(c, entries, o, known) && KnownAt(entries, known);
      NothingElseMatches(c, entries, o, at);
    }
    if w.used.Some? && w.remaining.Some? && exists provider :: OffersAlone(c, entries, provider, at) {
      var provider :| OffersAlone(c, entries, provider, at);
      var o := Override(provider, w.scope, w.resource, w.kind, w.id, remaining);
      PreciseOverride(c, entries, provider, at, remaining);
      assert Targets(c, entries, o, at) && KnownAt(entries, at);
    }
  }

  lemma NothingElseMatches(c: Context, entries: seq<Entry>, o: Override, at: Place)
    requires Targets(c, entries, o, at)
    ensures Within(entries, at) && OffersAlone(c, entries, o.provider, at)
  {
    var w := FactAt(entries, at).window;
    forall x | Within(entries, x) && Offered(c, entries, o.provider, x) && Alike(w, FactAt(entries, x).window)
      ensures x == at
    {
      assert Matches(c, entries, o, x);
    }
  }

  /** The override that names everything it can of a window. */
  lemma PreciseOverride(c: Context, entries: seq<Entry>, provider: string, at: Place, remaining: int)
    requires Within(entries, at) && OffersAlone(c, entries, provider, at)
    ensures var w := FactAt(entries, at).window;
            Targets(c, entries, Override(provider, w.scope, w.resource, w.kind, w.id, remaining), at)
  {
    var w := FactAt(entries, at).window;
    var o := Override(provider, w.scope, w.resource, w.kind, w.id, remaining);
    assert Matches(c, entries, o, at);
    forall x | Matches(c, entries, o, x) ensures x == at {
      assert Within(entries, x) && Offered(c, entries, provider, x) && Alike(w, FactAt(entries, x).window);
    }
  }
}
