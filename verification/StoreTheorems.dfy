/** What a sound store means for one device and one domain, read off the
    invariant every step keeps. */
module StoreTheorems {
  import opened Uint
  import opened Templates
  import opened Net
  import opened SamplerTables
  import opened StoreModel
  import opened StoreInvariants

  /** A device is budgeted exactly while it has a live domain; the budget reads
      those domains and the specifiers all their templates hold; and no bound is
      passed. */
  ghost predicate Budgeted(v: Domains, e: Exporters, b: Budgets, a: Addr) {
    && (a in e <==> exists key :: key in v && key.exporter == a)
    && (a in e ==>
         && e[a] in b
         && b[e[a]] == Budget(|DomainsOf(v, a)|, DeviceFields(v, a))
         && 1 <= |DomainsOf(v, a)| <= 256
         && DeviceFields(v, a) <= 65536)
    && (forall key :: key in v && key.exporter == a ==>
         a in e && v[key].budget == e[a] && |v[key].templates| <= 8192)
  }

  lemma DeviceBudget(v: Domains, e: Exporters, b: Budgets, n: TableNames, t: Tables, next: Cell, clock: int, a: Addr)
    requires Sound(v, e, b, n, t, next, clock)
    ensures Budgeted(v, e, b, a) && |e| <= 65536
  {
    hide AllStamped, TablesNamed, TablesLive, TablesOwned, FieldCount, DeviceFields, Dues, DomainsOf;
    DuesKeys(v);
    assert |e| == |e.Keys| && |Dues(v)| == |Dues(v).Keys|;
    if a in e {
      DueOf(v, a);
    }
  }

  lemma DueOf(v: Domains, a: Addr)
    requires a in Dues(v)
    ensures Dues(v)[a] == Budget(|DomainsOf(v, a)|, DeviceFields(v, a)) && |DomainsOf(v, a)| >= 1
  {
    hide FieldCount, DeviceFields;
    var key :| key in v && key.exporter == a;
    AtLeastOne(v, key);
  }

  /** Live domains share a sampler table exactly when they are of one device and
      one protocol. */
  lemma SiblingsShareOneTable(
    v: Domains, e: Exporters, b: Budgets, n: TableNames, t: Tables, next: Cell, clock: int, k1: DomainKey,
        k2: DomainKey)
    requires Sound(v, e, b, n, t, next, clock) && k1 in v && k2 in v
    ensures v[k1].declared == v[k2].declared <==> k1.exporter == k2.exporter && k1.proto == k2.proto
  {
    hide Bounded, AllStamped, BudgetsPay, TablesOwned;
  }

  /** No declaration outlives its domain: a domain not live has none under its
      number, so one that is opened again starts with none and with no rate. */
  lemma AbsentDeclaresNothing(
    v: Domains, e: Exporters, b: Budgets, n: TableNames, t: Tables, next: Cell, clock: int, key: DomainKey, id: u32)
    requires Sound(v, e, b, n, t, next, clock) && key !in v
    ensures TableOf(key) in n ==>
              && n[TableOf(key)] in t
              && SamplerRef(key.odid, id) !in t[n[TableOf(key)]].declared.named
              && key.odid !in t[n[TableOf(key)]].declared.plain
              && t[n[TableOf(key)]].declared.PlainRate(key.odid) == 0
    ensures TableOf(key) !in n ==> forall k :: k in v ==> TableOf(k) != TableOf(key)
  {
    hide Bounded, AllStamped, BudgetsPay;
    assert DomainKey(TableOf(key).exporter, key.odid, TableOf(key).proto) == key;
  }

  /** After a sweep the rate a domain keeps for itself is its plain entry, or
      nothing where that expired. */
  lemma SweepRestatesRates(v: Domains, v': Domains, t': Tables, cutoff: int, now: int, ttl: int, key: DomainKey)
    requires SweepStep(v, v', t', cutoff, now, ttl)
    ensures key in v' <==> key in v && v[key].lastSeen >= cutoff
    ensures key in v' ==> v'[key].samplingRate == RateOf(key, v'[key], t')
    ensures key in v' ==> v'[key].templates == Live(v[key].templates, now, ttl) && v'[key].lastSeen == v[key].lastSeen
  {
    var w :| EvictStep(v, w, t', cutoff) && v'.Keys == w.Keys
             && forall k :: k in w ==> Pruned(w[k], v'[k], cutoff, now, ttl);
    if key in v' {
      assert Pruned(w[key], v'[key], cutoff, now, ttl);
    }
  }

  // ---- What the bounds let in ------------------------------------------------------------

  /** A domain holding these with its device charged for so much is inside its
      bounds. */
  ghost predicate Inside(ts: Shelf, charge: int) {
    |ts| <= 8192 && charge <= 65536
  }

  /** An announcement fits exactly where holding it leaves the bounds unbroken, the
      fields its id already holds credited. */
  lemma FitsExactly(ts: Shelf, used: int, ref: TemplateRef, t: Template, at: int)
    requires |ts| <= 8192
    ensures var after := ts[ref := Held(t, at)];
            Fits(ts, used, ref, t) <==> Inside(after, used - FieldCount(ts) + FieldCount(after))
  {
    hide FieldCount;
    FieldsPut(ts, ref, Held(t, at));
    ShelfGrows(ts, ref, Held(t, at));
  }

  /** And it is taken exactly where it fits beside the unexpired templates, so no
      refusal was avoidable. */
  lemma TakenExactly(ts: Shelf, used: int, ref: TemplateRef, t: Template, now: int, ttl: int)
    requires |ts| <= 8192
    ensures var after := Live(ts, now, ttl)[ref := Held(t, now)];
            Takes(ts, used, ref, t, now, ttl) <==> Inside(after, used - FieldCount(ts) + FieldCount(after))
  {
    hide FieldCount;
    var live := Live(ts, now, ttl);
    ShelfShrinks(live, ts);
    FitsExactly(live, used - FieldCount(ts) + FieldCount(live), ref, t, now);
    if ref in ts && ref !in live {
      FieldsDrop(ts, ref);
      ShelfShrinks(live, ts - {ref});
      OneFewer(ts, ref);
    }
  }

  lemma OneFewer(ts: Shelf, ref: TemplateRef)
    requires ref in ts
    ensures |ts - {ref}| == |ts| - 1
  {
    assert (ts - {ref}).Keys == ts.Keys - {ref};
    assert |(ts - {ref}).Keys| == |ts - {ref}| && |ts.Keys| == |ts|;
  }

  /** A device that repeats a layout it holds, or announces a shorter one under its
      id, is never refused, however full its bounds are. */
  lemma RefreshIsTaken(v: Domains, e: Exporters, b: Budgets, n: TableNames, t: Tables, next: Cell, clock: int,
                       key: DomainKey, ref: TemplateRef, u: Template, now: int, ttl: nat)
    requires Sound(v, e, b, n, t, next, clock) && key in v
    requires ref in v[key].templates && |u.fields| <= |v[key].templates[ref].layout.fields|
    ensures Takes(ShelfOf(v, key), Used(v, key.exporter), ref, u, now, ttl)
    ensures LookUp(StoreModel.Announced(ShelfOf(v, key), Used(v, key.exporter), ref, u, now, ttl), ref, now, ttl) ==
            Some(u)
  {
    hide FieldCount, Sound, Dues;
    LiveDomain(v, e, b, n, t, next, clock, key);
    DueRead(v, key);
  }

  /** A domain is admitted exactly where opening it leaves every bound unbroken. */
  lemma AdmitsExactly(v: Domains, key: DomainKey, d: Domain)
    requires Bounded(v) && key !in v && d.templates == map[]
    ensures Admits(v, key) <==> Bounded(v[key := d])
  {
    hide FieldCount, Dues;
    var due := Charge(DueTo(Dues(v), key.exporter), 1, 0);
    OpenDues(v, key, d, due);
    if Admits(v, key) {
      AdmittedWithinBounds(v, key);
      BoundedPut(v, key, d, due);
    } else {
      PutSize(Dues(v), key.exporter, due);
      assert Dues(v[key := d])[key.exporter] == due;
    }
  }

  lemma PutSize(dues: map<Addr, Budget>, a: Addr, due: Budget)
    ensures |dues[a := due]| == |dues| + if a in dues then 0 else 1
  {
    assert dues[a := due].Keys == dues.Keys + {a};
    assert |dues[a := due]| == |dues[a := due].Keys| && |dues| == |dues.Keys|;
  }
}
