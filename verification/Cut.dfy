/**
 * What a worker's report puts in force, resource by resource: which models are adopted, what is registered and which
 * observations are kept, told from the configuration, the earlier state and the report alone.
 */
module Cut {
  import opened Wrappers
  import opened Publication

  // ---------------------------------------------------------------- what the inputs say

  /** An authenticated observation lists the model under the source. */
  ghost predicate Lists(inventories: seq<Inventory>, source: nat, model: nat) {
    exists i, r :: i in inventories && r in i.sources
                   && r.source == source && r.auth == Authenticated && model in r.models
  }

  /** An observation says the source is not signed in, or cannot tell. */
  ghost predicate Contradicts(inventories: seq<Inventory>, source: nat) {
    exists i, r :: i in inventories && r in i.sources && r.source == source && r.auth != Authenticated
  }

  /** A report of the source refuses it, or leaves it unverified where its kind could prove its sign-in. */
  ghost predicate Distrusts(inventories: seq<Inventory>, source: nat) {
    exists i, r :: i in inventories && r in i.sources && r.source == source
                   && (r.auth == Refused || (r.auth == Unverified && r.probeable))
  }

  predicate Has(models: map<nat, set<nat>>, source: nat, model: nat) { source in models && model in models[source] }

  /** The last thing a report tells of a resource. */
  ghost predicate Tells(resources: seq<Snapshot>, id: ResourceId, state: nat) {
    exists i :: 0 <= i < |resources| && resources[i] == Snapshot(id, state)
                && forall j :: i < j < |resources| ==> resources[j].id != id
  }

  // ---------------------------------------------------------------- adoption and rebuilding

  lemma {:induction false} AdoptedBy(models: map<nat, set<nat>>, sources: seq<SourceReport>, source: nat, model: nat)
    ensures AdoptAll(models, sources).Keys == models.Keys
    ensures Has(AdoptAll(models, sources), source, model) <==>
              && source in models
              && (model in models[source]
                  || exists r :: r in sources && r.source == source && r.auth == Authenticated && model in r.models)
  {
    if sources != [] {
      var front, last := sources[..|sources| - 1], sources[|sources| - 1];
      AdoptedBy(models, front, source, model);
      assert forall r :: r in sources <==> r in front || r == last;
    }
  }

  /** A state in which exactly what is configured or adopted is registered, and only that is remembered or observed. */
  ghost predicate Rebuilt(config: Config, t: State) {
    && t.models.Keys == config.sources.Keys
    && (forall n :: Configured(n) in t.registered <==> n in config.resources)
    && (forall s, m :: Derived(s, m) in t.registered <==> Has(t.models, s, m))
    && (forall id :: id in t.entries && id.Derived? ==> id in t.registered)
    && (forall id :: id in t.seen <==> id in t.entries && id in t.registered)
    && (forall id :: id in t.seen ==> t.seen[id] == t.entries[id])
  }

  lemma RebuildIs(config: Config, s: State)
    ensures Rebuilt(config, RebuildState(config, s))
  {
  }

  /** One inventory. */
  lemma OneInventory(config: Config, s: State, inventory: Inventory, source: nat, model: nat)
    ensures var t := InventoryState(config, s, inventory);
            Has(t.models, source, model) <==>
              source in config.sources && (Has(s.models, source, model) || Lists([inventory], source, model))
  {
    var synced := SyncModels(s.models, config.sources.Keys);
    AdoptedBy(synced, inventory.sources, source, model);
    var t := InventoryState(config, s, inventory);
    AdoptedKeys(config, s, inventory);
    if r :| r in inventory.sources && r.source == source && r.auth == Authenticated && model in r.models {
      assert inventory in [inventory];
    }
  }

  lemma AdoptedKeys(config: Config, s: State, inventory: Inventory)
    ensures var adopted := AdoptAll(SyncModels(s.models, config.sources.Keys), inventory.sources);
            adopted.Keys == config.sources.Keys && InventoryState(config, s, inventory).models == adopted
  {
    AdoptedBy(SyncModels(s.models, config.sources.Keys), inventory.sources, 0, 0);
  }

  lemma OneInventoryEntries(config: Config, s: State, inventory: Inventory, id: ResourceId)
    ensures var t := InventoryState(config, s, inventory);
            && (id in t.entries <==>
                  && id in s.entries
                  && (id.Derived? ==> Has(t.models, id.source, id.model) && !Contradicts([inventory], id.source)))
            && (id in t.entries ==> t.entries[id] == s.entries[id])
  {
    AdoptedKeys(config, s, inventory);
    if id.Derived? {
      assert id.source in Unhealthy(inventory.sources) <==> Contradicts([inventory], id.source) by {
        if id.source in Unhealthy(inventory.sources) { assert inventory in [inventory]; }
      }
    }
  }

  /** All inventories of a report. */
  lemma {:induction false} AllInventories(config: Config, s: State, inventories: seq<Inventory>, id: ResourceId)
    requires inventories != []
    ensures var t := InventoriesState(config, s, inventories);
            && Rebuilt(config, t)
            && (id.Derived? ==>
                  (Has(t.models, id.source, id.model) <==>
                     && id.source in config.sources
                     && (Has(s.models, id.source, id.model) || Lists(inventories, id.source, id.model))))
            && (id in t.entries <==> id in s.entries && (id.Derived? ==> Stays(config, s, inventories, id)))
            && (id in t.entries ==> t.entries[id] == s.entries[id])
  {
    hide Rebuilt, InventoryState, Lists, Contradicts, Has, Stays;
    var front, last := inventories[..|inventories| - 1], inventories[|inventories| - 1];
    assert inventories == front + [last];
    var before := InventoriesState(config, s, front);
    RebuiltAfter(config, before, last);
    OneInventoryEntries(config, before, last, id);
    if id.Derived? {
      OneInventory(config, before, last, id.source, id.model);
      Joined(front, last, id.source, id.model);
      StaysOn(config, s, front, last, id);
    }
    if front == [] {
      assert inventories == [last];
    } else {
      AllInventories(config, s, front, id);
    }
  }

  /** What one more inventory leaves of an observation. */
  lemma StaysOn(config: Config, s: State, front: seq<Inventory>, last: Inventory, id: ResourceId)
    requires id.Derived?
    ensures Stays(config, s, front + [last], id) <==>
              && !Contradicts([last], id.source)
              && if front == [] then
                   id.source in config.sources
                   && (Has(s.models, id.source, id.model) || Lists([last], id.source, id.model))
                 else Stays(config, s, front, id)
    ensures front != [] && Stays(config, s, front, id) ==>
              id.source in config.sources
              && (Has(s.models, id.source, id.model) || Lists(front, id.source, id.model))
  {
    hide Lists, Contradicts, Has;
    Joined(front, last, id.source, id.model);
    if front == [] { assert front + [last] == [last] && [last][..1] == [last]; }
  }

  /** An observation of a derived resource outlives the inventories. */
  ghost predicate Stays(config: Config, s: State, inventories: seq<Inventory>, id: ResourceId)
    requires inventories != [] && id.Derived?
  {
    && id.source in config.sources
    && (Has(s.models, id.source, id.model) || Lists(inventories[..1], id.source, id.model))
    && !Contradicts(inventories, id.source)
  }

  lemma RebuiltAfter(config: Config, s: State, inventory: Inventory)
    ensures Rebuilt(config, InventoryState(config, s, inventory))
  {
    AdoptedKeys(config, s, inventory);
    var models := AdoptAll(SyncModels(s.models, config.sources.Keys), inventory.sources);
    RebuildIs(config, s.(models := models, entries := Purge(s.entries, Unhealthy(inventory.sources))));
  }

  lemma Joined(front: seq<Inventory>, last: Inventory, source: nat, model: nat)
    ensures Lists(front + [last], source, model) <==> Lists(front, source, model) || Lists([last], source, model)
    ensures Contradicts(front + [last], source) <==> Contradicts(front, source) || Contradicts([last], source)
    ensures front != [] ==> (front + [last])[..1] == front[..1]
    ensures front != [] && Lists(front[..1], source, model) ==> Lists(front, source, model)
  {
    assert forall i :: i in front + [last] <==> i in front || i in [last];
    assert forall i :: i in front[..if front == [] then 0 else 1] ==> i in front;
  }

  // ---------------------------------------------------------------- observations

  lemma TellsMore(front: seq<Snapshot>, last: Snapshot, id: ResourceId, state: nat)
    ensures Tells(front + [last], id, state) <==>
            if last.id == id then last.state == state else Tells(front, id, state)
  {
    var all := front + [last];
    assert all[|front|] == last && forall i :: 0 <= i < |front| ==> all[i] == front[i];
    if last.id != id && Tells(front, id, state) {
      var i :| 0 <= i < |front| && front[i] == Snapshot(id, state) && forall j :: i < j < |front| ==> front[j].id != id;
      assert all[i] == Snapshot(id, state);
    }
    if last == Snapshot(id, state) { assert all[|front|] == Snapshot(id, state); }
  }

  lemma {:induction false} ObservedIs(seen: map<ResourceId, nat>, resources: seq<Snapshot>, id: ResourceId, state: nat)
    ensures var after := Observe(seen, resources);
            id in after && after[id] == state <==>
              || Tells(resources, id, state)
              || (id in seen && seen[id] == state && forall x :: !Tells(resources, id, x))
  {
    hide Tells;
    if resources == [] {
      NothingTold(id);
    } else {
      var front, last := resources[..|resources| - 1], resources[|resources| - 1];
      assert resources == front + [last];
      ObservedIs(seen, front, id, state);
      forall x { TellsMore(front, last, id, x); }
      if last.id == id { assert Tells(resources, id, last.state); }
    }
  }

  lemma NothingTold(id: ResourceId)
    ensures forall x :: !Tells([], id, x)
  {
  }

  /** Whether a snapshot of this resource is taken into a report, once its inventories are applied. */
  ghost predicate Taken(config: Config, s: State, inventories: seq<Inventory>, id: ResourceId) {
    id.Derived? ==>
      && id in InventoriesState(config, s, inventories).registered
      && !Distrusts(inventories, id.source)
  }

  lemma AcceptableIs(config: Config, s: State, inventories: seq<Inventory>, x: Snapshot)
    ensures Acceptable(x, Unauthenticated(inventories), InventoriesState(config, s, inventories).registered)
            <==> Taken(config, s, inventories, x.id)
  {
    hide InventoriesState;
  }

  lemma {:induction false} AcceptedTells(
    config: Config, s: State, inventories: seq<Inventory>, resources: seq<Snapshot>, id: ResourceId, state: nat)
    ensures var registered := InventoriesState(config, s, inventories).registered;
            Tells(AcceptedOf(resources, Unauthenticated(inventories), registered), id, state) <==>
            Taken(config, s, inventories, id) && Tells(resources, id, state)
  {
    hide Tells, Taken, Acceptable, InventoriesState, Unauthenticated;
    if resources == [] {
      NothingTold(id);
    } else {
      var front, last := resources[..|resources| - 1], resources[|resources| - 1];
      assert resources == front + [last];
      AcceptedTells(config, s, inventories, front, id, state);
      AcceptableIs(config, s, inventories, last);
      var registered := InventoriesState(config, s, inventories).registered;
      var accepted := AcceptedOf(front, Unauthenticated(inventories), registered);
      TellsMore(front, last, id, state);
      TellsMore(accepted, last, id, state);
      assert accepted + [] == accepted;
    }
  }

  // ---------------------------------------------------------------- the whole cut

  /** The report tells this of the resource, and the resource is trusted: configured, or adopted and not distrusted. */
  ghost predicate Told(
    config: Config, s: State, report: Report, inventories: seq<Inventory>, id: ResourceId, state: nat)
  {
    && Tells(report.resources, id, state)
    && (id.Derived? ==> Adopts(config, s, inventories, id) && !Distrusts(inventories, id.source))
  }

  /** The model of a derived resource is adopted after the inventories. */
  ghost predicate Adopts(config: Config, s: State, inventories: seq<Inventory>, id: ResourceId)
    requires id.Derived?
  {
    && id.source in config.sources
    && (Has(s.models, id.source, id.model) || Lists(inventories, id.source, id.model))
  }

  /** What was known of the resource before, and still is. */
  ghost predicate Kept(config: Config, s: State, inventories: seq<Inventory>, id: ResourceId, state: nat)
    requires inventories != []
  {
    && id in s.entries && s.entries[id] == state
    && (id.Derived? ==> Stays(config, s, inventories, id))
  }

  /**
   * After a report with inventories, resource by resource: registered is what is configured and what is adopted, and
   * observed is the last the report tells of a trusted resource, or else what was known before of a registered one.
   */
  lemma CutIs(
    config: Config, s: State, report: Report, inventories: seq<Inventory>, id: ResourceId, state: nat)
    requires inventories != []
    ensures var t := CombinedState(config, s, report, inventories);
            && (id in t.registered <==>
                  if id.Configured? then id.number in config.resources else Adopts(config, s, inventories, id))
            && (id.Derived? ==> (Has(t.models, id.source, id.model) <==> Adopts(config, s, inventories, id)))
            && (id in t.entries && t.entries[id] == state <==>
                  || Told(config, s, report, inventories, id, state)
                  || ((forall x :: !Told(config, s, report, inventories, id, x))
                      && Kept(config, s, inventories, id, state)))
            && (id in t.seen && t.seen[id] == state <==>
                  || Told(config, s, report, inventories, id, state)
                  || ((forall x :: !Told(config, s, report, inventories, id, x))
                      && Kept(config, s, inventories, id, state) && id in t.registered))
  {
    hide Tells, Lists, Contradicts, Distrusts, InventoriesState, Unauthenticated, AcceptedOf, Stays;
    var staged := InventoriesState(config, s, inventories);
    var accepted := AcceptedOf(report.resources, Unauthenticated(inventories), staged.registered);
    AllInventories(config, s, inventories, id);
    ObservedIs(staged.entries, accepted, id, state);
    ObservedIs(staged.seen, accepted, id, state);
    forall x ensures Tells(accepted, id, x) <==> Told(config, s, report, inventories, id, x) {
      AcceptedTells(config, s, inventories, report.resources, id, x);
    }
  }

  /** A report without inventories adopts nothing and forgets nothing. */
  lemma PlainCutIs(config: Config, s: State, report: Report, id: ResourceId, state: nat)
    ensures var t := CombinedState(config, s, report, []);
            && t.models == s.models && t.registered == s.registered
            && (id in t.seen && t.seen[id] == state <==>
                  if id.Derived? && id !in s.registered then id in s.seen && s.seen[id] == state
                  else
                    || Tells(report.resources, id, state)
                    || (id in s.seen && s.seen[id] == state && forall x :: !Tells(report.resources, id, x)))
  {
    hide Tells, AcceptedOf;
    var accepted := AcceptedOf(report.resources, Unauthenticated([]), s.registered);
    ObservedIs(s.seen, accepted, id, state);
    forall x ensures Tells(accepted, id, x) <==> Taken(config, s, [], id) && Tells(report.resources, id, x) {
      AcceptedTells(config, s, [], report.resources, id, x);
    }
  }

  // ---------------------------------------------------------------- which sources a report may speak of

  /** Everything the inventories say, in order. */
  function AllSources(inventories: seq<Inventory>): seq<SourceReport> {
    if inventories == [] then [] else inventories[0].sources + AllSources(inventories[1..])
  }

  /** Every source is configured as reported, new and reported once. */
  predicate Fresh(config: Config, sources: seq<SourceReport>, taken: set<nat>) {
    && (forall x :: x in sources ==> x.source in config.sources && x.fits && x.source !in taken)
    && forall i, j :: 0 <= i < j < |sources| ==> sources[i].source != sources[j].source
  }

  lemma {:induction false} SourcesOnceIs(config: Config, sources: seq<SourceReport>, taken: set<nat>)
    ensures SourcesOnce(config, sources, taken).Some? <==> Fresh(config, sources, taken)
    ensures SourcesOnce(config, sources, taken).Some? ==>
              SourcesOnce(config, sources, taken).value == taken + (set x | x in sources :: x.source)
  {
    if sources != [] {
      var first, rest := sources[0], sources[1..];
      assert sources == [first] + rest;
      SourcesOnceIs(config, rest, taken + {first.source});
      if Fresh(config, sources, taken) {
        forall x | x in rest ensures x.source != first.source {
          var i :| 0 <= i < |rest| && rest[i] == x;
          assert sources[i + 1] == x;
        }
      }
    }
  }

  /** The inventories speak of each source at most once, among all of them, and only as it is configured. */
  lemma {:induction false} AllSourcesOnceIs(config: Config, inventories: seq<Inventory>, taken: set<nat>)
    ensures AllSourcesOnce(config, inventories, taken) <==> Fresh(config, AllSources(inventories), taken)
  {
    if inventories != [] {
      var sources, rest := inventories[0].sources, AllSources(inventories[1..]);
      SourcesOnceIs(config, sources, taken);
      var more := taken + (set x | x in sources :: x.source);
      AllSourcesOnceIs(config, inventories[1..], more);
      FreshJoin(config, sources, rest, taken);
    }
  }

  lemma FreshJoin(config: Config, a: seq<SourceReport>, b: seq<SourceReport>, taken: set<nat>)
    ensures Fresh(config, a + b, taken) <==>
            Fresh(config, a, taken) && Fresh(config, b, taken + (set x | x in a :: x.source))
  {
    var all := a + b;
    if Fresh(config, all, taken) {
      assert forall i :: 0 <= i < |a| ==> all[i] == a[i];
      assert forall i :: 0 <= i < |b| ==> all[|a| + i] == b[i];
      forall i, j | 0 <= i < |a| && 0 <= j < |b| ensures a[i].source != b[j].source {
        assert all[i].source != all[|a| + j].source;
      }
    }
  }

  /** The worker that reports a resource owns it: it is configured for it, or its source is. */
  predicate OwnedBy(config: Config, worker: nat, id: ResourceId) {
    match id
    case Configured(number) => number in config.resources && config.resources[number] == worker
    case Derived(source, _) => source in config.sources && config.sources[source] == worker
  }

  /** Nothing outside fails while inventory `i` is adopted and the application rebuilt. */
  predicate Undisturbed(inventory: Inventory, f: Faults, i: nat) {
    (i in f.adoptAt ==> f.adoptAt[i] >= |inventory.sources|) && i !in f.rebuildAt
  }

  /**
   * A report with inventories is applicable exactly if it speaks of each source once, everything it speaks of is
   * configured for its worker, and nothing outside fails: the state it meets never matters. One without is also
   * refused for a configured resource that is not registered yet.
   */
  lemma ApplicableIff(config: Config, s: State, report: Report, inventories: seq<Inventory>, f: Faults)
    ensures Applicable(config, s, report, inventories, f) <==>
              && f.reportValid
              && (forall x :: x in report.resources ==> OwnedBy(config, report.worker, x.id))
              && Fresh(config, AllSources(inventories), {})
              && (forall i :: 0 <= i < |inventories| ==>
                    inventories[i].worker == report.worker && Undisturbed(inventories[i], f, i))
              && (forall x :: x in AllSources(inventories) ==>
                    x.source in config.sources && config.sources[x.source] == report.worker)
              && (inventories == [] ==>
                    forall x :: x in report.resources && x.id.Configured? ==> x.id in s.registered)
  {
    hide AllSourcesOnce, Fresh, AllSources, AcceptedOf, InventoriesState, Unauthenticated, Rebuilt, Stays, Lists, Has;
    AllSourcesOnceIs(config, inventories, {});
    forall x
      ensures x in AllSources(inventories) <==> exists i :: 0 <= i < |inventories| && x in inventories[i].sources
    {
      SourcesAre(inventories, x);
    }
    FreshFits(config, AllSources(inventories), {});
    if forall x :: x in report.resources ==> OwnedBy(config, report.worker, x.id) {
      RegisteredWhenOwned(config, s, report, inventories);
    }
  }

  lemma {:induction false} SourcesAre(inventories: seq<Inventory>, x: SourceReport)
    ensures x in AllSources(inventories) <==> exists i :: 0 <= i < |inventories| && x in inventories[i].sources
  {
    if inventories != [] {
      var rest := inventories[1..];
      SourcesAre(rest, x);
      if x in AllSources(rest) {
        var i :| 0 <= i < |rest| && x in rest[i].sources;
        assert inventories[i + 1] == rest[i];
      }
      if i :| 0 < i < |inventories| && x in inventories[i].sources { assert rest[i - 1] == inventories[i]; }
    }
  }

  lemma FreshFits(config: Config, sources: seq<SourceReport>, taken: set<nat>)
    ensures Fresh(config, sources, taken) ==> forall x :: x in sources ==> x.fits
  {
  }

  /** What is accepted of an owned report is registered, or is a configured resource not registered yet. */
  lemma RegisteredWhenOwned(config: Config, s: State, report: Report, inventories: seq<Inventory>)
    requires forall x :: x in report.resources ==> OwnedBy(config, report.worker, x.id)
    ensures var registered := InventoriesState(config, s, inventories).registered;
            (forall x :: x in AcceptedBy(config, s, report, inventories) ==> x.id in registered) <==>
            (inventories == [] ==> forall x :: x in report.resources && x.id.Configured? ==> x.id in s.registered)
  {
    hide InventoriesState, Unauthenticated, Lists, Contradicts;
    var registered := InventoriesState(config, s, inventories).registered;
    forall x ensures x in AcceptedBy(config, s, report, inventories) <==>
                     x in report.resources && Acceptable(x, Unauthenticated(inventories), registered) {
      AcceptedIs(report.resources, Unauthenticated(inventories), registered, x);
    }
    if inventories != [] { AllInventories(config, s, inventories, Configured(0)); } else { NothingApplied(config, s); }
  }

  lemma NothingApplied(config: Config, s: State)
    ensures InventoriesState(config, s, []) == s
  {
  }

  lemma {:induction false} AcceptedIs(
    resources: seq<Snapshot>, unauthenticated: set<nat>, registered: set<ResourceId>, x: Snapshot)
    ensures x in AcceptedOf(resources, unauthenticated, registered) <==>
            x in resources && Acceptable(x, unauthenticated, registered)
  {
    if resources != [] {
      var front, last := resources[..|resources| - 1], resources[|resources| - 1];
      AcceptedIs(front, unauthenticated, registered, x);
      assert resources == front + [last];
    }
  }
}
