/**
 * Failure-atomic publication of a worker's report: staged copies of shared objects, rollback, nested publication
 * and the journal events that may be written on the way.
 */
module Publication {
  import opened Wrappers
  import opened Journal

  /** A resource is configured by the administrator or derived from a model its source has adopted. */
  datatype ResourceId = Configured(number: nat) | Derived(source: nat, model: nat)

  datatype Auth = Authenticated | Unverified | Refused

  /**
   * One source's part of an inventory; `probeable` tells whether its kind can prove its sign-in state, `fits` whether
   * kind and adapter are the configured ones.
   */
  datatype SourceReport = SourceReport(source: nat, auth: Auth, probeable: bool, models: set<nat>, fits: bool)

  datatype Inventory = Inventory(worker: nat, sources: seq<SourceReport>)

  datatype Snapshot = Snapshot(id: ResourceId, state: nat)

  datatype Report = Report(worker: nat, resources: seq<Snapshot>)

  /** The administrator's configuration: the owner of each configured resource and of each source. */
  datatype Config = Config(resources: map<nat, nat>, sources: map<nat, nat>)

  function OwnerOf(config: Config, id: ResourceId): Option<nat> {
    match id
    case Configured(n) => if n in config.resources then Some(config.resources[n]) else None
    case Derived(s, _) => if s in config.sources then Some(config.sources[s]) else None
  }

  // ---------------------------------------------------------------- the shared objects

  /** What one source has adopted. What an observation adopts and retires is another module's matter. */
  class SourceCell {
    var models: set<nat>

    constructor (models: set<nat>)
      ensures this.models == models
    {
      this.models := models;
    }
  }

  function ModelsOf(cells: map<nat, SourceCell>): map<nat, set<nat>>
    reads cells.Values
  {
    map s | s in cells :: cells[s].models
  }

  function SyncModels(models: map<nat, set<nat>>, configured: set<nat>): map<nat, set<nat>> {
    map s | s in configured :: if s in models then models[s] else {}
  }

  ghost predicate Separate(cells: map<nat, SourceCell>) {
    forall s, t :: s in cells && t in cells && s != t ==> cells[s] != cells[t]
  }

  class SourceBook {
    var cells: map<nat, SourceCell>

    constructor (cells: map<nat, SourceCell>)
      ensures this.cells == cells
    {
      this.cells := cells;
    }

    /** A deep copy: a new book of new cells with the same contents. */
    method DeepCopy() returns (copy: SourceBook)
      requires Separate(cells)
      ensures fresh(copy) && (forall s :: s in copy.cells ==> fresh(copy.cells[s])) && Separate(copy.cells)
      ensures ModelsOf(copy.cells) == ModelsOf(cells)
    {
      var todo := cells.Keys;
      var made: map<nat, SourceCell> := map[];
      while todo != {}
        invariant todo <= cells.Keys && made.Keys == cells.Keys - todo
        invariant (forall s :: s in made ==> fresh(made[s])) && Separate(made)
        invariant forall s :: s in made ==> made[s].models == cells[s].models
        decreases todo
      {
        var s :| s in todo;
        todo := todo - {s};
        var cell := new SourceCell(cells[s].models);
        made := made[s := cell];
      }
      copy := new SourceBook(made);
    }

    /** Keeps the cells of the configured sources, in place, and makes new ones for the rest. */
    method SyncConfiguration(configured: set<nat>)
      requires Separate(cells)
      modifies this
      ensures Separate(cells) && ModelsOf(cells) == SyncModels(old(ModelsOf(cells)), configured)
      ensures forall s :: s in cells ==> fresh(cells[s]) || (s in old(cells) && cells[s] == old(cells)[s])
    {
      var todo := configured;
      var kept: map<nat, SourceCell> := map[];
      while todo != {}
        invariant todo <= configured && kept.Keys == configured - todo && Separate(kept)
        invariant cells == old(cells)
        invariant forall s :: s in kept ==>
                    if s in cells then kept[s] == cells[s]
                    else fresh(kept[s]) && kept[s].models == {}
        decreases todo
      {
        var s :| s in todo;
        todo := todo - {s};
        if s in cells {
          kept := kept[s := cells[s]];
        } else {
          var cell := new SourceCell({});
          kept := kept[s := cell];
        }
      }
      cells := kept;
      assert ModelsOf(cells) == SyncModels(old(ModelsOf(cells)), configured);
    }

    /** Adopts what an inventory reports, source by source and in place. It may fail half-way. */
    method ApplyInventory(inventory: Inventory, failAt: Option<nat>) returns (r: Result<(), ()>)
      requires Separate(cells)
      modifies cells.Values
      ensures r.Ok? <==> failAt.None? || failAt.value >= |inventory.sources|
      ensures r.Ok? ==> ModelsOf(cells) == AdoptAll(old(ModelsOf(cells)), inventory.sources)
    {
      hide ModelsOf;
      assert inventory.sources[..0] == [];
      for i := 0 to |inventory.sources|
        invariant cells == old(cells)
        invariant failAt.None? || failAt.value >= i
        invariant ModelsOf(cells) == AdoptAll(old(ModelsOf(cells)), inventory.sources[..i])
      {
        if failAt == Some(i) { return Err(()); }
        var report := inventory.sources[i];
        AdoptOne(old(ModelsOf(cells)), inventory.sources, i);
        ModelsKeys(cells);
        label Before:
        if report.source in cells && report.auth == Authenticated {
          var cell := cells[report.source];
          cell.models := cell.models + report.models;
          ModelsChange@Before(cells, report.source, report.models);
        }
      }
      assert inventory.sources[..|inventory.sources|] == inventory.sources;
      return Ok(());
    }
  }

  lemma ModelsKeys(cells: map<nat, SourceCell>)
    ensures ModelsOf(cells).Keys == cells.Keys
  {
  }

  twostate lemma ModelsChange(cells: map<nat, SourceCell>, new s: nat, new models: set<nat>)
    requires s in cells && Separate(cells) && cells[s].models == old(cells[s].models) + models
    requires forall t :: t in cells && t != s ==> cells[t].models == old(cells[t].models)
    ensures s in old(ModelsOf(cells)) && ModelsOf(cells) == old(ModelsOf(cells))[s := old(ModelsOf(cells))[s] + models]
  {
  }

  /** The adopted models after an inventory: an authenticated observation adds what it lists. */
  function AdoptAll(models: map<nat, set<nat>>, sources: seq<SourceReport>): map<nat, set<nat>> {
    if sources == [] then models
    else
      var before, last := AdoptAll(models, sources[..|sources| - 1]), sources[|sources| - 1];
      if last.source in before && last.auth == Authenticated
      then before[last.source := before[last.source] + last.models] else before
  }

  lemma {:induction false} AdoptOne(models: map<nat, set<nat>>, sources: seq<SourceReport>, i: nat)
    requires i < |sources|
    ensures AdoptAll(models, sources[..i + 1])
         == (var before := AdoptAll(models, sources[..i]);
             if sources[i].source in before && sources[i].auth == Authenticated
             then before[sources[i].source := before[sources[i].source] + sources[i].models] else before)
  {
    assert sources[..i + 1][..i] == sources[..i];
  }

  /** The live registry of an application: what is registered and what was last observed. */
  class ResourceRegistry {
    var registered: set<ResourceId>
    var observations: map<ResourceId, nat>
    var revision: nat

    constructor (registered: set<ResourceId>, observations: map<ResourceId, nat>, revision: nat)
      ensures this.registered == registered && this.observations == observations && this.revision == revision
    {
      this.registered, this.observations, this.revision := registered, observations, revision;
    }

    method DeepCopy() returns (copy: ResourceRegistry)
      ensures fresh(copy) && copy.registered == registered && copy.observations == observations
      ensures copy.revision == revision
    {
      copy := new ResourceRegistry(registered, observations, revision);
    }

    /** Applies a report whole or not at all, in place. */
    method ApplyWorkerReport(report: Report, valid: bool) returns (r: Result<(), ()>)
      modifies this
      ensures registered == old(registered)
      ensures r.Ok? <==> valid && forall x :: x in report.resources ==> x.id in registered
      ensures r.Ok? ==> observations == Observe(old(observations), report.resources) && revision == old(revision) + 1
      ensures r.Err? ==> observations == old(observations) && revision == old(revision)
    {
      if !valid { return Err(()); }
      for i := 0 to |report.resources|
        invariant forall j :: 0 <= j < i ==> report.resources[j].id in registered
        invariant unchanged(this)
      {
        if report.resources[i].id !in registered { return Err(()); }
      }
      observations := Observe(observations, report.resources);
      revision := revision + 1;
      return Ok(());
    }
  }

  function Observe(observations: map<ResourceId, nat>, resources: seq<Snapshot>): map<ResourceId, nat> {
    if resources == [] then observations
    else
      var last := resources[|resources| - 1];
      Observe(observations, resources[..|resources| - 1])[last.id := last.state]
  }

  class ObservationTable {
    var entries: map<ResourceId, nat>

    constructor (entries: map<ResourceId, nat>)
      ensures this.entries == entries
    {
      this.entries := entries;
    }
  }

  class Application {
    var registry: ResourceRegistry

    constructor (registry: ResourceRegistry)
      ensures this.registry == registry
    {
      this.registry := registry;
    }
  }

  class Adapters {
    const sources: SourceBook

    constructor (sources: SourceBook)
      ensures this.sources == sources
    {
      this.sources := sources;
    }
  }

  // ---------------------------------------------------------------- the state as a value

  /** What the shared objects hold together. */
  datatype State = State(
    models: map<nat, set<nat>>, entries: map<ResourceId, nat>,
    registered: set<ResourceId>, seen: map<ResourceId, nat>)

  /** What a producer document tells, apart from observation instants. */
  datatype View = View(models: map<nat, set<nat>>, registered: set<ResourceId>, seen: map<ResourceId, nat>)

  function ViewOf(s: State): View { View(s.models, s.registered, s.seen) }

  function DerivedIds(models: map<nat, set<nat>>): set<ResourceId> {
    set s, m | s in models && m in models[s] :: Derived(s, m)
  }

  /** Observations of derived resources that no longer exist are forgotten. */
  function Retained(entries: map<ResourceId, nat>, derived: set<ResourceId>): map<ResourceId, nat> {
    map id | id in entries && (id.Configured? || id in derived) :: entries[id]
  }

  function RegisteredIds(config: Config, derived: set<ResourceId>): set<ResourceId> {
    derived + (set n | n in config.resources :: Configured(n))
  }

  function Applied(entries: map<ResourceId, nat>, registered: set<ResourceId>): map<ResourceId, nat> {
    map id | id in entries && id in registered :: entries[id]
  }

  /** What a rebuild makes of the state: what is granted now is registered, with what was observed of it. */
  function RebuildState(config: Config, s: State): State {
    var models := SyncModels(s.models, config.sources.Keys);
    var derived := DerivedIds(models);
    var entries := Retained(s.entries, derived);
    var registered := RegisteredIds(config, derived);
    State(models, entries, registered, Applied(entries, registered))
  }

  function Unhealthy(sources: seq<SourceReport>): set<nat> {
    set r | r in sources && r.auth != Authenticated :: r.source
  }

  function Purge(entries: map<ResourceId, nat>, sources: set<nat>): map<ResourceId, nat> {
    map id | id in entries && !(id.Derived? && id.source in sources) :: entries[id]
  }

  /** One inventory: adopt, drop observations its state contradicts, rebuild. */
  function InventoryState(config: Config, s: State, inventory: Inventory): State {
    var models := AdoptAll(SyncModels(s.models, config.sources.Keys), inventory.sources);
    RebuildState(config, s.(models := models, entries := Purge(s.entries, Unhealthy(inventory.sources))))
  }

  function InventoriesState(config: Config, s: State, inventories: seq<Inventory>): State {
    if inventories == [] then s
    else
      var front, last := inventories[..|inventories| - 1], inventories[|inventories| - 1];
      InventoryState(config, InventoriesState(config, s, front), last)
  }

  function ReportState(s: State, resources: seq<Snapshot>): State {
    s.(entries := Observe(s.entries, resources), seen := Observe(s.seen, resources))
  }

  /** Every source of the inventory is still granted, as reported, to the worker that reports it. */
  predicate Granted(config: Config, inventory: Inventory) {
    forall x :: x in inventory.sources ==>
      x.source in config.sources && config.sources[x.source] == inventory.worker && x.fits
  }

  lemma GrantedIs(config: Config, inventory: Inventory)
    ensures Granted(config, inventory) <==>
            forall x :: x in inventory.sources ==>
              x.fits && x.source in config.sources && config.sources[x.source] == inventory.worker
  {
  }

  lemma ViewIs(s: State)
    ensures ViewOf(s) == View(s.models, s.registered, s.seen)
  {
  }

  /** Every resource of the report is owned by the worker that reports it. */
  predicate Owned(config: Config, report: Report) {
    forall x :: x in report.resources ==> OwnerOf(config, x.id) == Some(report.worker)
  }

  /** Each source is configured as it is reported, and reported once. */
  function SourcesOnce(config: Config, sources: seq<SourceReport>, taken: set<nat>): Option<set<nat>> {
    if sources == [] then Some(taken)
    else if sources[0].source in taken || sources[0].source !in config.sources || !sources[0].fits then None
    else SourcesOnce(config, sources[1..], taken + {sources[0].source})
  }

  function AllSourcesOnce(config: Config, inventories: seq<Inventory>, taken: set<nat>): bool {
    if inventories == [] then true
    else
      match SourcesOnce(config, inventories[0].sources, taken)
      case None => false
      case Some(more) => AllSourcesOnce(config, inventories[1..], more)
  }

  /** The sources whose observations are not accepted with this report. */
  function Unauthenticated(inventories: seq<Inventory>): set<nat> {
    set i, r | i in inventories && r in i.sources && r.auth != Authenticated && (r.probeable || r.auth != Unverified) ::
      r.source
  }

  predicate Acceptable(x: Snapshot, unauthenticated: set<nat>, registered: set<ResourceId>) {
    !(x.id.Derived? && (x.id.source in unauthenticated || x.id !in registered))
  }

  function AcceptedOf(resources: seq<Snapshot>, unauthenticated: set<nat>, registered: set<ResourceId>): seq<Snapshot> {
    if resources == [] then []
    else
      var last := resources[|resources| - 1];
      AcceptedOf(resources[..|resources| - 1], unauthenticated, registered)
      + (if Acceptable(last, unauthenticated, registered) then [last] else [])
  }

  /** The whole cut a report asks for. */
  function CombinedState(config: Config, s: State, report: Report, inventories: seq<Inventory>): State {
    var staged := InventoriesState(config, s, inventories);
    ReportState(staged, AcceptedOf(report.resources, Unauthenticated(inventories), staged.registered))
  }

  // ---------------------------------------------------------------- the control plane

  /** The conditions of one publication: the store's state, and the instants and size of the document. */
  datatype Conditions = Conditions(health: Health, instants: nat, bytes: nat)

  /** Where the work may fail, besides the checks the inputs themselves fail. */
  datatype Faults = Faults(
    first: Conditions, last: Conditions, adoptAt: map<nat, nat>, rebuildAt: set<nat>, reportValid: bool)

  /** Inventory `i` is adopted and the rebuild after it succeeds. */
  predicate Adopted(config: Config, inventory: Inventory, f: Faults, i: nat) {
    && Granted(config, inventory)
    && (i in f.adoptAt ==> f.adoptAt[i] >= |inventory.sources|)
    && i !in f.rebuildAt
  }

  /** Every inventory names the report's worker and is adopted. */
  predicate AllAdopted(config: Config, worker: nat, inventories: seq<Inventory>, f: Faults) {
    forall i :: 0 <= i < |inventories| ==> inventories[i].worker == worker && Adopted(config, inventories[i], f, i)
  }

  /** The resources of a report that are taken into the state its inventories leave. */
  function AcceptedBy(config: Config, s: State, report: Report, inventories: seq<Inventory>): seq<Snapshot> {
    AcceptedOf(report.resources, Unauthenticated(inventories), InventoriesState(config, s, inventories).registered)
  }

  /** The whole report can be applied to this state, were it not for the journal. */
  predicate Applicable(config: Config, s: State, report: Report, inventories: seq<Inventory>, f: Faults) {
    && AllSourcesOnce(config, inventories, {})
    && Owned(config, report)
    && AllAdopted(config, report.worker, inventories, f)
    && f.reportValid
    && forall x :: x in AcceptedBy(config, s, report, inventories) ==>
         x.id in InventoriesState(config, s, inventories).registered
  }

  /** The document of one state under the conditions of one publication. */
  function Document(s: State, conditions: Conditions): Payload<View> {
    Payload(ViewOf(s), conditions.instants, conditions.bytes)
  }

  lemma {:induction false} AcceptedIsPart(
    resources: seq<Snapshot>, unauthenticated: set<nat>, registered: set<ResourceId>)
    ensures forall x :: x in AcceptedOf(resources, unauthenticated, registered) ==> x in resources
  {
    if resources != [] { AcceptedIsPart(resources[..|resources| - 1], unauthenticated, registered); }
  }

  /** What is accepted is owned when the whole report is. */
  lemma AcceptedIsOwned(config: Config, report: Report, unauthenticated: set<nat>, registered: set<ResourceId>)
    requires Owned(config, report)
    ensures Owned(config, Report(report.worker, AcceptedOf(report.resources, unauthenticated, registered)))
  {
    hide AcceptedOf;
    AcceptedIsPart(report.resources, unauthenticated, registered);
  }

  /** At most one event was appended, and it records this content. */
  ghost predicate Extends(log: seq<Event<View>>, before: seq<Event<View>>, epoch: nat, content: View) {
    log == before
    || exists instants: nat, bytes: nat ::
         log == before + [Event(|before| + 1, epoch, Payload(content, instants, bytes))]
  }

  /** An event for the state before, where it was due, and then an event for the state after, where it was. */
  ghost predicate ExtendsTwice(log: seq<Event<View>>, before: seq<Event<View>>, epoch: nat, first: View, second: View) {
    exists middle :: Extends(middle, before, epoch, first) && Extends(log, middle, epoch, second)
  }

  lemma Twice(
    log: seq<Event<View>>, middle: seq<Event<View>>, before: seq<Event<View>>, epoch: nat, first: View, second: View)
    requires Extends(middle, before, epoch, first) && Extends(log, middle, epoch, second)
    ensures ExtendsTwice(log, before, epoch, first, second)
  {
  }

  class ControlPlane {
    const config: Config
    const producer: Producer<View>
    var sources: SourceBook
    var observations: ObservationTable
    var application: Application
    var adapters: Adapters
    var generation: nat
    var depth: nat
    var ready: bool

    ghost predicate Valid()
      reads `sources, sources, producer, producer.store
    {
      producer.Valid() && Separate(sources.cells)
    }

    function Now(): State
      reads `sources, `observations, `application
      reads sources, sources.cells.Values, observations, application, application.registry
    {
      State(ModelsOf(sources.cells), observations.entries,
            application.registry.registered, application.registry.observations)
    }

    constructor (config: Config, producer: Producer<View>, sources: SourceBook, observations: ObservationTable,
                 application: Application, adapters: Adapters)
      requires producer.Valid() && Separate(sources.cells)
      ensures Valid() && depth == 0 && ready && generation == 0
      ensures this.config == config && this.producer == producer && this.sources == sources
      ensures this.observations == observations && this.application == application && this.adapters == adapters
    {
      this.config, this.producer, this.sources, this.observations := config, producer, sources, observations;
      this.application, this.adapters, generation, depth, ready := application, adapters, 0, 0, true;
    }

    method PublishProducerChange(conditions: Conditions) returns (r: Result<(), Failure>)
      requires Valid()
      modifies producer, producer.store
      ensures Valid()
      ensures r.Ok? ==>
                && producer.content == ViewOf(Now())
                && producer.store.log == old(producer.store.log)
                                         + (if ViewOf(Now()) == old(producer.content) then []
                                            else [Event(|old(producer.store.log)| + 1, producer.epoch,
                                                        Payload(ViewOf(Now()), conditions.instants, conditions.bytes))])
                && Extends(producer.store.log, old(producer.store.log), producer.epoch, ViewOf(Now()))
      ensures r.Err? ==>
                && producer.faulted && producer.store.log == old(producer.store.log)
                && producer.content == old(producer.content)
      ensures r.Ok? <==> Publishes(old(producer.Stands()), Document(Now(), conditions), conditions.health)
      ensures producer.Stands() == Published(old(producer.Stands()), Document(Now(), conditions), conditions.health)
    {
      hide ViewOf, Publishes, Published, Producer.Stands;
      r := producer.PublishChange(Document(Now(), conditions), conditions.health);
    }

    /** Recomputes everything derived from the configuration and the sources. */
    method Rebuild(fails: bool) returns (r: Result<(), ()>)
      requires Valid()
      modifies this`application, this`adapters, this`generation, sources, observations
      ensures Valid() && (r.Ok? <==> !fails)
      ensures forall s :: s in sources.cells ==>
                fresh(sources.cells[s]) || (s in old(sources.cells) && sources.cells[s] == old(sources.cells)[s])
      ensures r.Ok? ==>
                && Now() == RebuildState(config, old(Now()))
                && fresh(application) && fresh(application.registry) && fresh(adapters) && adapters.sources == sources
                && generation == old(generation) + 1
    {
      hide ModelsOf, SyncModels, DerivedIds, Retained, RegisteredIds, Applied, Separate, Producer.Valid;
      sources.SyncConfiguration(config.sources.Keys);
      var derived := DerivedIds(ModelsOf(sources.cells));
      observations.entries := Retained(observations.entries, derived);
      if fails { return Err(()); }
      var registered := RegisteredIds(config, derived);
      var seen := Applied(observations.entries, registered);
      var registry := new ResourceRegistry(registered, seen, |registered| + |seen|);
      application := new Application(registry);
      adapters := new Adapters(sources);
      generation := generation + 1;
      return Ok(());
    }

    /** A journal fault fences the producer, never the work itself. */
    method PublishIfAvailable(conditions: Conditions)
      requires Valid()
      modifies producer, producer.store
      ensures Valid()
      ensures Now() == old(Now())
      ensures producer.Stands() == Published(old(producer.Stands()), Document(Now(), conditions), conditions.health)
    {
      hide Producer.Valid, ViewOf;
      if !producer.faulted { var r := PublishProducerChange(conditions); }
    }

    /** The work of one inventory: check it is still this worker's, adopt, drop what it contradicts, rebuild. */
    method ApplyInventory(inventory: Inventory, adoptFails: Option<nat>, rebuildFails: bool) returns (r: Result<(), ()>)
      requires Valid()
      modifies this`application, this`adapters, this`generation, sources, sources.cells.Values, observations
      ensures Valid()
      ensures forall s :: s in sources.cells ==>
                fresh(sources.cells[s]) || (s in old(sources.cells) && sources.cells[s] == old(sources.cells)[s])
      ensures r.Ok? ==>
                && Now() == InventoryState(config, old(Now()), inventory)
                && fresh(application) && fresh(application.registry) && fresh(adapters) && adapters.sources == sources
                && generation == old(generation) + 1
      ensures r.Ok? <==>
                && Granted(config, inventory) && !rebuildFails
                && (adoptFails.None? || adoptFails.value >= |inventory.sources|)
    {
      hide ModelsOf, SyncModels, DerivedIds, AdoptAll, Separate, RebuildState, Purge, Unhealthy, Granted,
           Producer.Valid;
      if !Granted(config, inventory) { return Err(()); }
      sources.SyncConfiguration(config.sources.Keys);
      var adopted := sources.ApplyInventory(inventory, adoptFails);
      if adopted.Err? { return Err(()); }
      observations.entries := Purge(observations.entries, Unhealthy(inventory.sources));
      r := Rebuild(rebuildFails);
    }

    /** The same as a producer write: only the outermost write publishes. */
    method ApplySourceInventory(
      inventory: Inventory, adoptFails: Option<nat>, rebuildFails: bool, before: Conditions, after: Conditions)
      returns (r: Result<(), ()>)
      requires Valid()
      modifies this`application, this`adapters, this`generation, this`depth,
               sources, sources.cells.Values, observations, producer, producer.store
      ensures Valid() && depth == old(depth)
      ensures old(depth) > 0 ==> unchanged(producer) && unchanged(producer.store)
      ensures forall s :: s in sources.cells ==>
                fresh(sources.cells[s]) || (s in old(sources.cells) && sources.cells[s] == old(sources.cells)[s])
      ensures r.Ok? ==>
                && Now() == InventoryState(config, old(Now()), inventory)
                && fresh(application) && fresh(application.registry) && fresh(adapters) && adapters.sources == sources
                && generation == old(generation) + 1
      ensures r.Ok? <==>
                && Granted(config, inventory) && !rebuildFails
                && (adoptFails.None? || adoptFails.value >= |inventory.sources|)
      ensures r.Ok? ==>
                forall x :: x in inventory.sources ==>
                  x.fits && x.source in config.sources && config.sources[x.source] == inventory.worker
      ensures producer.Stands()
              == if old(depth) > 0 || !ready then old(producer.Stands())
                 else Published(Published(old(producer.Stands()), Document(old(Now()), before), before.health),
                                Document(Now(), after), after.health)
    {
      hide ModelsOf, InventoryState, Separate, Granted, ViewOf, Now, Valid, Producer.Valid, Published, Document,
           Producer.Stands;
      GrantedIs(config, inventory);
      var outer := depth == 0;
      if outer && ready { PublishIfAvailable(before); }
      depth := depth + 1;
      r := ApplyInventory(inventory, adoptFails, rebuildFails);
      depth := depth - 1;
      if outer && ready { PublishIfAvailable(after); }
    }

    /** The report's observations, through the live registry and into the retained table, both in place. */
    method ApplyWorkerReport(report: Report, valid: bool) returns (r: Result<(), ()>)
      requires Valid()
      modifies application.registry, observations
      ensures Valid()
      ensures r.Ok? ==> Now() == ReportState(old(Now()), report.resources)
      ensures r.Ok? <==>
              && Owned(config, report) && valid
              && forall x :: x in report.resources ==> x.id in old(application.registry.registered)
      ensures r.Err? ==> Now() == old(Now())
    {
      hide ModelsOf, Observe, Producer.Valid;
      if !Owned(config, report) { return Err(()); }
      var applied := application.registry.ApplyWorkerReport(report, valid);
      if applied.Err? { return Err(()); }
      observations.entries := Observe(observations.entries, report.resources);
      return Ok(());
    }

    /** The inventories of one report, one after the other. */
    method StageInventories(worker: nat, inventories: seq<Inventory>, f: Faults) returns (r: Result<(), ()>)
      requires Valid() && depth > 0 && inventories != []
      modifies this`application, this`adapters, this`generation, this`depth,
               sources, sources.cells.Values, observations, producer, producer.store
      ensures Valid() && depth == old(depth) && unchanged(producer) && unchanged(producer.store)
      ensures r.Ok? ==>
                && Now() == InventoriesState(config, old(Now()), inventories)
                && fresh(application) && fresh(application.registry) && fresh(adapters) && adapters.sources == sources
                && generation == old(generation) + |inventories|
      ensures r.Ok? <==> AllAdopted(config, worker, inventories, f)
    {
      hide ModelsOf, InventoryState, Separate, Producer.Valid, Granted, Published, Producer.Stands;
      ghost var start := Now();
      assert inventories[..0] == [];
      for i := 0 to |inventories|
        invariant Valid() && depth == old(depth) && unchanged(producer) && unchanged(producer.store)
        invariant sources == old(sources) && observations == old(observations)
        invariant forall s :: s in sources.cells ==>
                    fresh(sources.cells[s]) || (s in old(sources.cells) && sources.cells[s] == old(sources.cells)[s])
        invariant Now() == InventoriesState(config, start, inventories[..i])
        invariant i > 0 ==> fresh(application) && fresh(application.registry)
        invariant i > 0 ==> fresh(adapters) && adapters.sources == sources
        invariant generation == old(generation) + i
        invariant forall j :: 0 <= j < i ==> inventories[j].worker == worker && Adopted(config, inventories[j], f, j)
      {
        if inventories[i].worker != worker { return Err(()); }
        assert inventories[..i + 1][..i] == inventories[..i];
        var applied := ApplySourceInventory(inventories[i], if i in f.adoptAt then Some(f.adoptAt[i]) else None,
                                            i in f.rebuildAt, f.first, f.last);
        if applied.Err? { return Err(()); }
      }
      assert inventories[..|inventories|] == inventories;
      return Ok(());
    }

    method Accept(resources: seq<Snapshot>, unauthenticated: set<nat>) returns (accepted: seq<Snapshot>)
      ensures accepted == AcceptedOf(resources, unauthenticated, application.registry.registered)
    {
      accepted := [];
      for i := 0 to |resources|
        invariant accepted == AcceptedOf(resources[..i], unauthenticated, application.registry.registered)
      {
        assert resources[..i + 1][..i] == resources[..i];
        if Acceptable(resources[i], unauthenticated, application.registry.registered) {
          accepted := accepted + [resources[i]];
        }
      }
      assert resources[..|resources|] == resources;
    }

    /** Without inventories the application is copied, with a deep copy of its registry. */
    method StageApplication()
      requires Valid()
      modifies this`application
      ensures Valid() && fresh(application) && fresh(application.registry) && Now() == old(Now())
    {
      hide ModelsOf, Separate, Producer.Valid;
      var registry := application.registry.DeepCopy();
      application := new Application(registry);
    }

    /** Copies of what the attempt will change in place; the originals stay for the rollback. */
    method StageObjects(copySources: bool)
      requires Valid()
      modifies this`sources, this`observations
      ensures Valid() && Now() == old(Now()) && fresh(observations)
      ensures copySources ==> fresh(sources) && forall s :: s in sources.cells ==> fresh(sources.cells[s])
      ensures !copySources ==> sources == old(sources)
    {
      hide ModelsOf, Separate, Producer.Valid;
      if copySources { sources := sources.DeepCopy(); }
      observations := new ObservationTable(observations.entries);
    }

    /** The originals were never touched, so putting the references back restores the contents too. */
    twostate lemma RolledBack()
      requires sources == old(sources) && observations == old(observations) && application == old(application)
      requires unchanged(sources) && unchanged(observations) && unchanged(application)
      requires unchanged(application.registry)
      requires forall s :: s in sources.cells ==> unchanged(sources.cells[s])
      ensures Now() == old(Now())
    {
    }

    lemma ValidIs()
      ensures Valid() <==> producer.Valid() && Separate(sources.cells)
    {
    }

    /** Everything that is tried on the staged state. */
    method Stage(report: Report, inventories: seq<Inventory>, f: Faults) returns (r: Result<Report, ()>)
      requires Valid() && depth > 0
      modifies this`application, this`adapters, this`generation, this`depth, observations,
               (if inventories == [] then {} else {sources}), (if inventories == [] then {} else sources.cells.Values),
               producer, producer.store
      ensures Valid() && depth == old(depth)
      ensures r.Err? ==> producer.store.log == old(producer.store.log) && producer.content == old(producer.content)
      ensures r.Ok? ==>
                && Now() == CombinedState(config, old(Now()), report, inventories)
                && producer.content == ViewOf(Now())
                && Extends(producer.store.log, old(producer.store.log), producer.epoch, ViewOf(Now()))
      ensures r.Ok? ==> fresh(application)
      ensures r.Ok? ==> r.value == Report(report.worker, AcceptedBy(config, old(Now()), report, inventories))
      ensures r.Ok? ==>
                && generation == old(generation) + |inventories|
                && (if inventories == [] then adapters == old(adapters) else adapters.sources == sources)
      ensures r.Ok? <==>
                && Applicable(config, old(Now()), report, inventories, f)
                && Publishes(old(producer.Stands()),
                             Document(CombinedState(config, old(Now()), report, inventories), f.last), f.last.health)
      ensures producer.Stands()
              == if !Applicable(config, old(Now()), report, inventories, f) then old(producer.Stands())
                 else Published(old(producer.Stands()),
                                Document(CombinedState(config, old(Now()), report, inventories), f.last),
                                f.last.health)
    {
      hide Valid, Now, ModelsOf, InventoryState, ReportState, AcceptedOf, Unauthenticated, Separate, ViewOf,
           AllSourcesOnce, RebuildState, Extends, Producer.Valid, Publishes, Published, Document, Producer.Stands,
           Adopted;
      if !AllSourcesOnce(config, inventories, {}) { return Err(()); }
      if !Owned(config, report) { return Err(()); }
      ghost var start := Now();
      if inventories != [] {
        var staged := StageInventories(report.worker, inventories, f);
        if staged.Err? { return Err(()); }
      } else {
        StageApplication();
      }
      assert Now() == InventoriesState(config, start, inventories);
      ghost var middle := Now();
      NowIs();
      var accepted := Accept(report.resources, Unauthenticated(inventories));
      AcceptedIsOwned(config, report, Unauthenticated(inventories), application.registry.registered);
      assert accepted == AcceptedBy(config, start, report, inventories);
      var applied := ApplyWorkerReport(Report(report.worker, accepted), f.reportValid);
      if applied.Err? { return Err(()); }
      assert Applicable(config, start, report, inventories, f);
      RegisteredStays(middle, accepted);
      NowIs();
      var published := PublishProducerChange(f.last);
      if published.Err? { return Err(()); }
      return Ok(Report(report.worker, accepted));
    }

    /** The attempt on copies: whatever it does, only the plane's own references and the journal change. */
    method Attempt(report: Report, inventories: seq<Inventory>, f: Faults) returns (r: Result<Report, ()>)
      requires Valid()
      modifies this`sources, this`observations, this`application, this`adapters, this`generation, this`depth,
               producer, producer.store
      ensures Valid() && depth == old(depth)
      ensures r.Err? ==> producer.store.log == old(producer.store.log)
      ensures r.Ok? ==>
                && Now() == CombinedState(config, old(Now()), report, inventories)
                && producer.content == ViewOf(Now())
                && Extends(producer.store.log, old(producer.store.log), producer.epoch, ViewOf(Now()))
                && fresh(observations) && fresh(application) && (inventories != [] ==> fresh(sources))
      ensures r.Ok? ==> r.value == Report(report.worker, AcceptedBy(config, old(Now()), report, inventories))
      ensures r.Ok? ==>
                && generation == old(generation) + |inventories|
                && (if inventories == [] then adapters == old(adapters) && sources == old(sources)
                    else adapters.sources == sources)
      ensures r.Ok? <==>
                && Applicable(config, old(Now()), report, inventories, f)
                && Publishes(old(producer.Stands()),
                             Document(CombinedState(config, old(Now()), report, inventories), f.last), f.last.health)
      ensures producer.Stands()
              == if !Applicable(config, old(Now()), report, inventories, f) then old(producer.Stands())
                 else Published(old(producer.Stands()),
                                Document(CombinedState(config, old(Now()), report, inventories), f.last),
                                f.last.health)
    {
      hide Valid, Now, ModelsOf, CombinedState, ViewOf, Separate, Extends, Producer.Valid, Publishes, Published,
           Document, Producer.Stands, Applicable, AcceptedBy;
      StageObjects(inventories != []);
      depth := depth + 1;
      r := Stage(report, inventories, f);
      depth := depth - 1;
    }

    lemma NowIs()
      ensures Now().registered == application.registry.registered
    {
    }

    lemma RegisteredStays(s: State, resources: seq<Snapshot>)
      ensures ReportState(s, resources).registered == s.registered
    {
    }

    /**
     * One failure-atomic cut. Either everything the report asks for is in force and journalled, or every shared
     * object and every reference to one is as before, whatever failed; then at most the state before the report was
     * journalled. It succeeds exactly if the state before can be published, the report is applicable to it, and the
     * state after can be published.
     */
    method ApplyCombined(report: Report, inventories: seq<Inventory>, f: Faults) returns (r: Result<Report, ()>)
      requires Valid()
      modifies this`sources, this`observations, this`application, this`adapters, this`generation, this`depth,
               producer, producer.store
      ensures Valid() && depth == old(depth)
      ensures r.Err? ==>
                && sources == old(sources) && observations == old(observations) && application == old(application)
                && adapters == old(adapters) && generation == old(generation) && Now() == old(Now())
                && Extends(producer.store.log, old(producer.store.log), producer.epoch, ViewOf(old(Now())))
      ensures r.Ok? ==>
                && ExtendsTwice(producer.store.log, old(producer.store.log), producer.epoch,
                                ViewOf(old(Now())), ViewOf(Now()))
                && Now() == CombinedState(config, old(Now()), report, inventories)
                && producer.content == View(Now().models, Now().registered, Now().seen)
                && observations != old(observations) && application != old(application)
                && (inventories != [] ==> sources != old(sources))
      ensures r.Ok? ==> r.value == Report(report.worker, AcceptedBy(config, old(Now()), report, inventories))
      ensures r.Ok? ==>
                && generation == old(generation) + |inventories|
                && (if inventories == [] then adapters == old(adapters) && sources == old(sources)
                    else adapters.sources == sources)
      ensures var s, first, last := old(Now()), Document(old(Now()), f.first),
                                    Document(CombinedState(config, old(Now()), report, inventories), f.last);
              var stands := old(producer.Stands());
              var begun := Published(stands, first, f.first.health);
              && (r.Ok? <==>
                    && Publishes(stands, first, f.first.health)
                    && Applicable(config, s, report, inventories, f)
                    && Publishes(begun, last, f.last.health))
              && producer.Stands()
                 == if Publishes(stands, first, f.first.health) && Applicable(config, s, report, inventories, f)
                    then Published(begun, last, f.last.health) else begun
    {
      hide Valid, Now, ModelsOf, CombinedState, ViewOf, Separate, Extends, ExtendsTwice, Producer.Valid, Publishes,
           Published, Document, Producer.Stands, Applicable, AcceptedBy;
      ValidIs();
      var published := PublishProducerChange(f.first);
      if published.Err? {
        NothingAppended(producer.store.log, producer.epoch, ViewOf(Now()));
        return Err(());
      }
      ghost var before := producer.store.log;
      var oldSources, oldObservations, oldApplication := sources, observations, application;
      var oldAdapters, oldGeneration := adapters, generation;
      r := Attempt(report, inventories, f);
      ValidIs();
      if r.Err? {
        sources, observations, application := oldSources, oldObservations, oldApplication;
        adapters, generation := oldAdapters, oldGeneration;
        ValidIs();
        RolledBack();
      } else {
        ViewIs(Now());
        Twice(producer.store.log, before, old(producer.store.log), producer.epoch, ViewOf(old(Now())), ViewOf(Now()));
      }
    }
  }

  lemma NothingAppended(log: seq<Event<View>>, epoch: nat, content: View)
    ensures Extends(log, log, epoch, content)
  {
  }
}
