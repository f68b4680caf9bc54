/** The store the template decoders share. Each method is one step under its
    locks, reading the clock once; the domain it works on is lent out as the
    object its own lock guards and put back as a record. */
module TemplateStores {
  import opened Uint
  import opened Templates
  import opened Sequences
  import opened SamplerTables
  import opened StoreModel
  import opened StoreInvariants
  import opened DomainStates

  class TemplateStore {
    var domains: Domains
    var samplerTables: TableNames
    var tables: Tables
    var perExporter: Exporters
    var budgets: Budgets
    var nextCell: Cell
    var domainsRefused: u64
    var declarationsRefused: u64
    const maxFields: nat
    const ttl: nat
    /** The latest instant read from the store's clock. */
    ghost var clock: int

    constructor (maxFields: nat, ttl: nat, ghost now: int)
      ensures Valid() && clock == now && domains == map[]
      ensures this.maxFields == maxFields && this.ttl == ttl
    {
      domains, samplerTables, tables, perExporter, budgets := map[], map[], map[], map[], map[];
      nextCell, domainsRefused, declarationsRefused := 0, 0, 0;
      this.maxFields, this.ttl := maxFields, ttl;
      clock := now;
      assert Dues(map[]) == map[];
    }

    ghost predicate Valid()
      reads this
    {
      Sound(domains, perExporter, budgets, samplerTables, tables, nextCell, clock)
    }

    /** domain: the key's state stamped as seen, opened where the budgets leave
        room for it, and refused otherwise. */
    method Domain(key: DomainKey, now: int) returns (held: bool)
      requires Valid() && clock <= now
      modifies this
      ensures Valid() && clock == now
      ensures held == Admits(old(domains), key) == (key in domains)
      ensures SeenStep(old(domains), domains, key, now)
      ensures domainsRefused == if held then old(domainsRefused) else Add64(old(domainsRefused), 1)
      ensures declarationsRefused == old(declarationsRefused)
      ensures TablesKept(old(samplerTables), old(tables), samplerTables, tables)
      ensures held ==> TableOpened(old(samplerTables), samplerTables, tables, TableOf(key))
    {
      hide Sound, WellFormed, FieldCount, Dues, TablesKept, TableOf;
      BudgetReads(domains, perExporter, budgets, samplerTables, tables, nextCell, clock, key);
      if key in domains {
        LiveDomain(domains, perExporter, budgets, samplerTables, tables, nextCell, clock, key);
        NothingChanged(samplerTables, tables);
        Touch(key, now);
        return true;
      }
      held := Open(key, now);
    }

    method Touch(key: DomainKey, now: int)
      requires Valid() && clock <= now && key in domains
      modifies `domains, `clock
      ensures Valid() && clock == now
      ensures domains == old(domains)[key := old(domains)[key].(lastSeen := now)]
    {
      hide Sound, WellFormed, FieldCount, Dues;
      LiveDomain(domains, perExporter, budgets, samplerTables, tables, nextCell, clock, key);
      var d := domains[key].(lastSeen := now);
      PutKeeps(domains, perExporter, budgets, samplerTables, tables, nextCell, clock, key, d, budgets[d.budget], now);
      assert budgets[d.budget := budgets[d.budget]] == budgets;
      domains := domains[key := d];
      clock := now;
    }

    method Open(key: DomainKey, now: int) returns (admitted: bool)
      requires Valid() && clock <= now && key !in domains
      modifies this
      ensures Valid() && clock == now
      ensures admitted == Admits(old(domains), key) == (key in domains)
      ensures SeenStep(old(domains), domains, key, now)
      ensures domainsRefused == if admitted then old(domainsRefused) else Add64(old(domainsRefused), 1)
      ensures declarationsRefused == old(declarationsRefused)
      ensures TablesKept(old(samplerTables), old(tables), samplerTables, tables)
      ensures admitted ==> TableOpened(old(samplerTables), samplerTables, tables, TableOf(key))
    {
      hide Sound, WellFormed, FieldCount, Dues, Admits, TablesKept, TableOpened, TablesNamed, DueTo, Charge, TableOf;
      BudgetReads(domains, perExporter, budgets, samplerTables, tables, nextCell, clock, key);
      var known := key.exporter in perExporter;
      if (known && budgets[perExporter[key.exporter]].domains >= MAX_DOMAINS)
         || (!known && |perExporter| >= MAX_EXPORTERS) {
        LaterClock(domains, perExporter, budgets, samplerTables, tables, nextCell, clock, now);
        clock := now;
        domainsRefused := Add64(domainsRefused, 1);
        NothingChanged(samplerTables, tables);
        return false;
      }

      Admit(key, now);
      return true;
    }

    /** Opening a domain the budgets leave room for. */
    method Admit(key: DomainKey, now: int)
      requires Valid() && clock <= now && key !in domains && Admits(domains, key)
      modifies this
      ensures Valid() && clock == now
      ensures key in domains && SeenStep(old(domains), domains, key, now)
      ensures domainsRefused == old(domainsRefused) && declarationsRefused == old(declarationsRefused)
      ensures TablesKept(old(samplerTables), old(tables), samplerTables, tables)
      ensures TableOpened(old(samplerTables), samplerTables, tables, TableOf(key))
    {
      hide Sound, Admits, TablesKept, TableOpened, TableOf, SeenStep;
      Opens(domains, perExporter, budgets, samplerTables, tables, nextCell, clock, key, now);
      var known := key.exporter in perExporter;
      var budget := if known then perExporter[key.exporter] else nextCell;
      var due := Charge(if known then budgets[budget] else Budget(0, 0), 1, 0);
      var table := if TableOf(key) in samplerTables then samplerTables[TableOf(key)] else nextCell;
      var newTables := if TableOf(key) in samplerTables then tables else tables[nextCell := EMPTY_TABLE];
      Install(key, Opened(now, budget, table), due, newTables, now);
    }

    /** The writes that open a domain. */
    method Install(key: DomainKey, d: Domain, due: Budget, newTables: Tables, now: int)
      requires Sound(domains[key := d], perExporter[key.exporter := d.budget], budgets[d.budget := due],
                     samplerTables[TableOf(key) := d.declared], newTables, nextCell + 1, now)
      modifies this
      ensures Valid() && clock == now
      ensures domains == old(domains)[key := d]
      ensures samplerTables == old(samplerTables)[TableOf(key) := d.declared] && tables == newTables
      ensures domainsRefused == old(domainsRefused) && declarationsRefused == old(declarationsRefused)
    {
      hide Sound, TableOf;
      domains := domains[key := d];
      perExporter, budgets := perExporter[key.exporter := d.budget], budgets[d.budget := due];
      samplerTables, tables := samplerTables[TableOf(key) := d.declared], newTables;
      nextCell, clock := nextCell + 1, now;
    }

    /** What the domain lock hands back: the record as its object now stands, and
        its device's charge. */
    method PutBack(key: DomainKey, d: StoreModel.Domain, fields: int)
      requires Valid() && key in domains && Stamped(key, d, clock)
      requires d.lastSeen == domains[key].lastSeen
      requires d.budget == domains[key].budget && d.declared == domains[key].declared
      requires |d.templates| <= MAX_TEMPLATES && d.budget in budgets
      requires fields == budgets[d.budget].fields + d.fields - domains[key].fields && fields <= MAX_FIELDS
      modifies `domains, `budgets
      ensures Valid()
      ensures domains == old(domains)[key := d]
    {
      hide Sound, Stamped, Dues;
      var due := budgets[d.budget].(fields := fields);
      PutKeeps(domains, perExporter, budgets, samplerTables, tables, nextCell, clock, key, d, due, clock);
      domains, budgets := domains[key := d], budgets[d.budget := due];
    }

    /** The template ids of one session this store would decode with. */
    function Known(key: DomainKey, port: u16, id: u16, now: int): Option<Template>
      reads this
    {
      if key in domains then LookUp(domains[key].templates, TemplateRef(port, id), now, ttl) else None
    }

    /** lookup. */
    method Lookup(key: DomainKey, port: u16, id: u16, now: int) returns (t: Option<Template>)
      requires Valid() && clock <= now
      modifies this
      ensures Valid() && clock == now
      ensures t == old(Known(key, port, id, now))
      ensures t.Some? ==> WellFormed(key.proto, t.value)
      ensures SeenStep(old(domains), domains, key, now)
      ensures TablesKept(old(samplerTables), old(tables), samplerTables, tables)
    {
      hide Sound, WellFormed, Dues, Admits, TablesKept, Counted;
      var held := Domain(key, now);
      if !held {
        return None;
      }
      LiveDomain(domains, perExporter, budgets, samplerTables, tables, nextCell, clock, key);
      var ref := TemplateRef(port, id);
      var ts := domains[key].templates;
      if ref !in ts || now - ts[ref].refreshedAt > ttl {
        return None;
      }
      return Some(ts[ref].layout);
    }

    /** add: the announcement is taken or refused as if the domain had been
        pruned of expired templates every time. */
    method Add(key: DomainKey, port: u16, id: u16, t: Template, now: int) returns (ok: bool)
      requires Valid() && clock <= now && WellFormed(key.proto, t)
      modifies this
      ensures Valid() && clock == now
      ensures AddStep(old(domains), domains, key, TemplateRef(port, id), t, now, ttl, ok)
      ensures TablesKept(old(samplerTables), old(tables), samplerTables, tables)
    {
      hide Sound, WellFormed, Dues, Admits, TablesKept, Counted, DueTo, Takes, StoreModel.Announced, Stamped;
      ghost var v := domains;
      var admitted := Domain(key, now);
      if !admitted {
        return false;
      }
      var d := domains[key];
      SeenOwesTheSame(v, key, d);
      LiveDomain(domains, perExporter, budgets, samplerTables, tables, nextCell, clock, key);
      DueRead(domains, key);
      ok := Announce(key, d, TemplateRef(port, id), t, now);
    }

    /** add under the lock of the domain it found. */
    method Announce(key: DomainKey, d: StoreModel.Domain, ref: TemplateRef, t: Template, now: int) returns (ok: bool)
      requires Valid() && clock == now && key in domains && d == domains[key]
      requires WellFormed(key.proto, t)
      modifies `domains, `budgets
      ensures Valid()
      ensures AnnounceStep(old(domains), domains, key, d.budget, old(budgets), ref, t, now, ttl, ok)
    {
      hide Sound, WellFormed, Dues, FieldCount, Takes, StoreModel.Announced;
      LiveDomain(domains, perExporter, budgets, samplerTables, tables, nextCell, clock, key);
      var used := budgets[d.budget].fields;
      var budget := new ExporterBudget(used);
      var state := new DomainState(d, budget);
      ok := state.AddLocked(ref, t, now, ttl);
      AnnouncedFits(d.templates, used, ref, t, now, ttl);
      AnnouncedStamped(key, d, state.Record(d), used, ref, t, now, ttl);
      PutBack(key, state.Record(d), budget.fields);
    }

    /** withdraw: no domain is opened for a device that holds none. */
    method Withdraw(key: DomainKey, port: u16, id: u16)
      requires Valid()
      modifies `domains, `budgets
      ensures Valid()
      ensures WithdrawStep(old(domains), domains, key, TemplateRef(port, id))
    {
      hide Sound, WellFormed, Dues, FieldCount;
      if key !in domains {
        return;
      }
      LiveDomain(domains, perExporter, budgets, samplerTables, tables, nextCell, clock, key);
      var d := domains[key];
      var budget := new ExporterBudget(budgets[d.budget].fields);
      var state := new DomainState(d, budget);
      var ref := TemplateRef(port, id);
      state.DropLocked(ref);
      ShelfShrinks(state.templates, d.templates);
      WithdrawnStamped(key, d, state.Record(d), state.templates, clock);
      PutBack(key, state.Record(d), budget.fields);
    }

    // ---- Sequences ---------------------------------------------------------------

    method TrackRecordSequence(key: DomainKey, port: u16, number: u32, records: u32, engine: u16, complete: bool)
      requires Valid() && key in domains
      modifies `domains, `budgets
      ensures Valid()
      ensures PositionStep(old(domains), domains, key,
                TrackRecords(old(domains)[key].positions, port, old(domains)[key].lastSeen, number, records, engine,
                    complete))
    {
      hide Sound, WellFormed, Dues, FieldCount, TrackRecords;
      LiveDomain(domains, perExporter, budgets, samplerTables, tables, nextCell, clock, key);
      var d := domains[key];
      var budget := new ExporterBudget(budgets[d.budget].fields);
      var state := new DomainState(d, budget);
      state.TrackRecordSequence(port, number, records, engine, complete);
      PutBack(key, state.Record(d), budget.fields);
    }

    method TrackSequence(key: DomainKey, port: u16, number: u32)
      requires Valid() && key in domains
      modifies `domains, `budgets
      ensures Valid()
      ensures PositionStep(old(domains), domains, key,
                TrackPacket(old(domains)[key].positions, port, old(domains)[key].lastSeen, number))
    {
      hide Sound, WellFormed, Dues, FieldCount, TrackPacket;
      LiveDomain(domains, perExporter, budgets, samplerTables, tables, nextCell, clock, key);
      var d := domains[key];
      var budget := new ExporterBudget(budgets[d.budget].fields);
      var state := new DomainState(d, budget);
      state.TrackSequence(port, number);
      PutBack(key, state.Record(d), budget.fields);
    }

    // ---- Declarations --------------------------------------------------------------

    /** declareSampler onto the domain's own table. */
    method DeclareSampler(key: DomainKey, id: u32, isNamed: bool, rate: u32) returns (ok: bool)
      requires Valid() && key in domains && rate > 0
      modifies `tables, `declarationsRefused
      ensures Valid()
      ensures DeclareStep(old(tables), tables, domains[key].declared,
                          key.odid, id, isNamed, Entry(rate, domains[key].lastSeen), ok)
      ensures declarationsRefused == if ok then old(declarationsRefused) else Add64(old(declarationsRefused), 1)
    {
      hide Sound, Owned, IsSole, Table.Valid, Dues, WellFormed, Counted;
      LiveDomain(domains, perExporter, budgets, samplerTables, tables, nextCell, clock, key);
      TableOwned(domains, perExporter, budgets, samplerTables, tables, nextCell, clock, key);
      var cell := domains[key].declared;
      var table := new SamplerTable(tables[cell]);
      var changed;
      ok, changed := table.Declare(key.odid, id, isNamed, rate, domains[key].lastSeen);
      DeclaredOwned(domains, key, tables[cell].declared, id, isNamed, Entry(rate, domains[key].lastSeen));
      TablePutKeeps(domains, perExporter, budgets, samplerTables, tables, nextCell, clock, key, table.Record());
      tables := tables[cell := table.Record()];
      if !ok {
        declarationsRefused := Add64(declarationsRefused, 1);
      }
    }

    /** declareScoped onto the domain's own table. */
    method DeclareScoped(key: DomainKey, ref: ScopedRef, rate: u32) returns (ok: bool)
      requires Valid() && key in domains && rate > 0
      modifies `tables, `declarationsRefused
      ensures Valid()
      ensures ScopedStep(old(tables), tables, domains[key].declared, ref, Entry(rate, domains[key].lastSeen), ok)
      ensures declarationsRefused == if ok then old(declarationsRefused) else Add64(old(declarationsRefused), 1)
    {
      hide Sound, Owned, IsSole, Table.Valid, Dues, WellFormed, Counted;
      LiveDomain(domains, perExporter, budgets, samplerTables, tables, nextCell, clock, key);
      TableOwned(domains, perExporter, budgets, samplerTables, tables, nextCell, clock, key);
      var cell := domains[key].declared;
      var table := new SamplerTable(tables[cell]);
      var changed;
      ok, changed := table.DeclareScoped(ref, rate, domains[key].lastSeen);
      ScopedOwned(domains, TableOf(key), tables[cell].declared, table.View());
      TablePutKeeps(domains, perExporter, budgets, samplerTables, tables, nextCell, clock, key, table.Record());
      tables := tables[cell := table.Record()];
      if !ok {
        declarationsRefused := Add64(declarationsRefused, 1);
      }
    }

    /** The rate a domain declared for itself, kept beside the table. */
    method StoreRate(key: DomainKey, rate: u32)
      requires Valid() && key in domains
      modifies `domains, `budgets
      ensures Valid()
      ensures domains == old(domains)[key := old(domains)[key].(samplingRate := rate)]
    {
      hide Sound, WellFormed, Dues, FieldCount;
      LiveDomain(domains, perExporter, budgets, samplerTables, tables, nextCell, clock, key);
      var d := domains[key].(samplingRate := rate);
      PutBack(key, d, budgets[d.budget].fields);
    }

    // ---- Sweeps --------------------------------------------------------------------

    /** The eviction loop of evictIdleDomains, over the domains in any order. */
    method DropIdleDomains(cutoff: int) returns (evicted: nat)
      requires Budgeted(domains, perExporter, budgets, nextCell, clock)
      modifies `domains, `perExporter, `budgets
      ensures Budgeted(domains, perExporter, budgets, nextCell, clock)
      ensures domains == LiveSince(old(domains), cutoff)
      ensures evicted == |old(domains)| - |domains|
    {
      hide Budgeted;
      ghost var v := domains;
      var todo := domains.Keys;
      evicted := 0;
      assert domains == LiveSoFar(v, todo, cutoff);
      while todo != {}
        invariant Budgeted(domains, perExporter, budgets, nextCell, clock)
        invariant todo <= v.Keys && domains == LiveSoFar(v, todo, cutoff)
        invariant evicted == |v| - |domains|
        decreases |todo|
      {
        var key :| key in todo;
        todo := todo - {key};
        var d := domains[key];
        if d.lastSeen >= cutoff {
          continue;
        }
        EvictKeeps(domains, perExporter, budgets, nextCell, clock, key);
        OneFewer(domains, key);
        var due := Charge(budgets[d.budget], -1, -d.fields);
        domains := domains - {key};
        budgets := budgets[d.budget := due];
        if due.domains <= 0 {
          perExporter := perExporter - {key.exporter};
        }
        evicted := evicted + 1;
      }
      assert domains == LiveSince(v, cutoff);
    }

    lemma OneFewer(v: Domains, key: DomainKey)
      requires key in v
      ensures |v - {key}| == |v| - 1
    {
      assert (v - {key}).Keys == v.Keys - {key};
      assert |(v - {key}).Keys| == |v - {key}| && |v.Keys| == |v|;
    }

    /** The expiry loop of sweepSamplerTablesLocked. */
    method ExpireTables(cutoff: int)
      requires TablesNamed(samplerTables, tables, nextCell)
      modifies `tables
      ensures TablesNamed(samplerTables, tables, nextCell)
      ensures Expired(samplerTables, old(tables), tables, cutoff)
    {
      hide Table.Valid, Declarations.Since;
      ghost var t := tables;
      var todo := samplerTables.Keys;
      while todo != {}
        invariant todo <= samplerTables.Keys
        invariant TablesNamed(samplerTables, tables, nextCell)
        invariant forall k :: k in samplerTables ==>
                    tables[samplerTables[k]] == t[samplerTables[k]] || k !in todo
        invariant forall k :: k in samplerTables && k !in todo ==>
                    tables[samplerTables[k]].declared == t[samplerTables[k]].declared.Since(cutoff)
        decreases |todo|
      {
        var k :| k in todo;
        todo := todo - {k};
        var table := new SamplerTable(tables[samplerTables[k]]);
        table.Expire(cutoff);
        TablesNamedPut(samplerTables, tables, nextCell, samplerTables[k], table.Record());
        tables := tables[samplerTables[k] := table.Record()];
      }
    }

    /** The restating loop of sweepSamplerTablesLocked. */
    method RestateRates()
      requires forall key :: key in domains ==> domains[key].declared in tables
      modifies `domains
      ensures domains == Restated(old(domains), tables)
    {
      hide Declarations.PlainRate;
      ghost var v := domains;
      var todo := domains.Keys;
      assert domains == RestatedSoFar(v, todo, tables);
      while todo != {}
        invariant todo <= v.Keys && domains == RestatedSoFar(v, todo, tables)
        decreases |todo|
      {
        var key :| key in todo;
        todo := todo - {key};
        var d := domains[key];
        domains := domains[key := d.(samplingRate := tables[d.declared].declared.PlainRate(key.odid))];
      }
      assert domains == Restated(v, tables);
    }

    /** The freeing loop of sweepSamplerTablesLocked. */
    method FreeTables()
      modifies `samplerTables
      ensures samplerTables == StillHeld(old(samplerTables), TablesOf(domains))
    {
      ghost var n := samplerTables;
      var live: set<SamplerKey> := set key | key in domains :: TableOf(key);
      var todo := samplerTables.Keys;
      while todo != {}
        invariant todo <= n.Keys
        invariant samplerTables == map k | k in n && (k in todo || k in live) :: n[k]
        decreases |todo|
      {
        var k :| k in todo;
        todo := todo - {k};
        if k !in live {
          samplerTables := samplerTables - {k};
        }
      }
    }

    /** evictIdleDomains with sweepSamplerTablesLocked, one step under the store
        lock: every idle domain goes with the declarations its device stopped
        making, and a table goes only with the last domain holding it. */
    method EvictIdleDomains(cutoff: int) returns (evicted: nat)
      requires Valid()
      modifies this
      ensures Valid() && clock == old(clock)
      ensures evicted == |old(domains)| - |domains|
      ensures EvictStep(old(domains), domains, tables, cutoff)
      ensures Expired(old(samplerTables), old(tables), tables, cutoff)
      ensures samplerTables == StillHeld(old(samplerTables), TablesOf(domains))
    {
      hide Sound, Budgeted, TablesNamed, TablesLive, TablesOwned, Expired, EvictStep, Restated, LiveSince, SameShelves;
      hide StillHeld, TablesOf;
      ghost var v, n, t := domains, samplerTables, tables;
      SoundSplits(v, perExporter, budgets, n, t, nextCell, clock);
      evicted := DropIdleDomains(cutoff);
      ExpireTables(cutoff);
      RestatedKeeps(v, tables, cutoff);
      ghost var w := Restated(LiveSince(v, cutoff), tables);
      LiveCells(v, n, tables, nextCell, cutoff);
      RestateRates();
      RestatedBudgeted(LiveSince(v, cutoff), w, perExporter, budgets, nextCell, clock);
      FreeTables();
      StillHeldKeeps(n, TablesOf(w));
      SweptOwned(v, w, n, t, samplerTables, tables, cutoff);
      SweptLive(v, w, n);
      SweptNamed(n, tables, nextCell, TablesOf(w));
      SoundSplits(domains, perExporter, budgets, samplerTables, tables, nextCell, clock);
    }

    lemma StillHeldKeeps(n: TableNames, held: set<SamplerKey>)
      ensures forall k :: k in StillHeld(n, held) ==> k in n && StillHeld(n, held)[k] == n[k]
    {
    }

    lemma LiveCells(v: Domains, n: TableNames, t: Tables, next: Cell, cutoff: int)
      requires TablesLive(v, n) && TablesNamed(n, t, next)
      ensures forall key :: key in LiveSince(v, cutoff) ==> LiveSince(v, cutoff)[key].declared in t
    {
      CellsHeld(v, LiveSince(v, cutoff), n, t, next);
    }

    /** One surviving domain's own idle state freed, under its lock alone. */
    method PruneDomain(key: DomainKey, cutoff: int, now: int)
      requires Valid() && clock == now && key in domains
      modifies `domains, `budgets
      ensures Valid()
      ensures key in domains && domains == old(domains)[key := domains[key]]
      ensures Pruned(old(domains)[key], domains[key], cutoff, now, ttl)
    {
      hide Sound, WellFormed, Dues, FieldCount;
      LiveDomain(domains, perExporter, budgets, samplerTables, tables, nextCell, clock, key);
      var d := domains[key];
      var budget := new ExporterBudget(budgets[d.budget].fields);
      var state := new DomainState(d, budget);
      state.PruneIdleSessionsLocked(cutoff);
      state.PruneExpiredLocked(now, ttl);
      ShelfShrinks(state.templates, d.templates);
      WithdrawnStamped(key, d, state.Record(d), state.templates, now);
      PutBack(key, state.Record(d), budget.fields);
    }

    /** sweepDomains: what a device no longer speaks to goes whole, and what the
        rest no longer use goes with it. */
    method SweepDomains(cutoff: int, now: int) returns (evicted: nat)
      requires Valid() && clock <= now
      modifies this
      ensures Valid() && clock == now
      ensures evicted == |old(domains)| - |domains|
      ensures SweepStep(old(domains), domains, tables, cutoff, now, ttl)
      ensures Expired(old(samplerTables), old(tables), tables, cutoff)
      ensures samplerTables == StillHeld(old(samplerTables), TablesOf(domains))
    {
      hide Sound, EvictStep, Expired, StillHeld, TablesOf, Pruned;
      ghost var before := domains;
      evicted := EvictIdleDomains(cutoff);
      LaterClock(domains, perExporter, budgets, samplerTables, tables, nextCell, clock, now);
      clock := now;
      ghost var v, t := domains, tables;
      var todo := domains.Keys;
      while todo != {}
        invariant Valid() && clock == now && todo <= domains.Keys
        invariant tables == t && samplerTables == StillHeld(old(samplerTables), TablesOf(v))
        invariant domains.Keys == v.Keys
        invariant forall key :: key in v ==>
                    if key in todo then domains[key] == v[key] else Pruned(v[key], domains[key], cutoff, now, ttl)
        decreases |todo|
      {
        var key :| key in todo;
        todo := todo - {key};
        PruneDomain(key, cutoff, now);
      }
      assert |domains| == |domains.Keys| && |v| == |v.Keys|;
      SameTables(v, domains);
      assert EvictStep(before, v, tables, cutoff);
    }
  }
}
