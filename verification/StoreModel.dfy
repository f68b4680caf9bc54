/** The template store as values: what every domain holds, with every budget a
    sum over what is held rather than a counter beside it. */
module StoreModel {
  import opened Uint
  import opened MapSums
  import opened Templates
  import opened Net
  import opened Sequences
  import opened SamplerTables

  const MAX_TEMPLATES: nat := 8192
  const MAX_FIELDS: int := 65536
  const MAX_DOMAINS: nat := 256
  const MAX_EXPORTERS: nat := 65536

  datatype DomainKey = DomainKey(exporter: Addr, odid: u32, proto: Protocol)
  datatype TemplateRef = TemplateRef(port: u16, id: u16)

  function TableOf(key: DomainKey): SamplerKey {
    SamplerKey(key.exporter, key.proto)
  }

  datatype Held = Held(layout: Template, refreshedAt: int)

  type Shelf = map<TemplateRef, Held>

  /** Names one shared object: a device's budget or a sampler table. */
  type Cell = nat

  datatype Budget = Budget(domains: int, fields: int)

  /** One domain's record: its templates with the count and the lower bound kept
      beside them, and the cells it shares with its siblings. */
  datatype Domain = Domain(
    templates: Shelf,
    fields: int,
    templatesOldest: Option<int>,
    lastSeen: int,
    samplingRate: u32,
    positions: Positions,
    budget: Cell,
    declared: Cell)

  type Domains = map<DomainKey, Domain>

  // ---- Budgets as sums ------------------------------------------------------

  ghost function FieldSizes(ts: Shelf): map<TemplateRef, int> {
    map ref | ref in ts :: |ts[ref].layout.fields|
  }

  ghost function FieldCount(ts: Shelf): int {
    Sum(FieldSizes(ts))
  }

  function HeldFields(ts: Shelf, ref: TemplateRef): nat {
    if ref in ts then |ts[ref].layout.fields| else 0
  }

  ghost function DomainFields(v: Domains, a: Addr): map<DomainKey, int> {
    map key | key in v && key.exporter == a :: FieldCount(v[key].templates)
  }

  /** Field specifiers held for a device, summed over its domains. */
  ghost function DeviceFields(v: Domains, a: Addr): int {
    Sum(DomainFields(v, a))
  }

  ghost function DomainsOf(v: Domains, a: Addr): set<DomainKey> {
    set key | key in v && key.exporter == a
  }

  ghost function Devices(v: Domains): set<Addr> {
    set key | key in v :: key.exporter
  }

  /** What every device's budget should read: its live domains, and the fields
      their templates hold. */
  ghost function Dues(v: Domains): map<Addr, Budget> {
    map a | a in Devices(v) :: Budget(|DomainsOf(v, a)|, DeviceFields(v, a))
  }

  ghost predicate WithinBounds(dues: map<Addr, Budget>) {
    && |dues| <= MAX_EXPORTERS
    && forall a :: a in dues ==> dues[a].domains <= MAX_DOMAINS && dues[a].fields <= MAX_FIELDS
  }

  /** What no run of the store exceeds. */
  ghost predicate Bounded(v: Domains) {
    WithinBounds(Dues(v)) && forall key :: key in v ==> |v[key].templates| <= MAX_TEMPLATES
  }

  lemma FieldsDrop(ts: Shelf, ref: TemplateRef)
    ensures FieldCount(ts - {ref}) == FieldCount(ts) - HeldFields(ts, ref)
  {
    assert FieldSizes(ts - {ref}) == FieldSizes(ts) - {ref};
    if ref in ts {
      SumRemove(FieldSizes(ts), ref);
    } else {
      assert ts - {ref} == ts;
    }
  }

  lemma FieldsPut(ts: Shelf, ref: TemplateRef, h: Held)
    ensures FieldCount(ts[ref := h]) == FieldCount(ts) - HeldFields(ts, ref) + |h.layout.fields|
  {
    assert FieldSizes(ts[ref := h]) == FieldSizes(ts)[ref := |h.layout.fields|];
    SumUpdate(FieldSizes(ts), ref, |h.layout.fields|);
  }

  lemma DeviceFieldsPut(v: Domains, key: DomainKey, d: Domain, a: Addr)
    ensures DeviceFields(v[key := d], a) ==
            if a != key.exporter then DeviceFields(v, a)
            else DeviceFields(v, a) - (if key in v then FieldCount(v[key].templates) else 0) + FieldCount(d.templates)
  {
    if a == key.exporter {
      assert DomainFields(v[key := d], a) == DomainFields(v, a)[key := FieldCount(d.templates)];
      SumUpdate(DomainFields(v, a), key, FieldCount(d.templates));
    } else {
      assert DomainFields(v[key := d], a) == DomainFields(v, a);
    }
  }

  lemma DeviceFieldsDrop(v: Domains, key: DomainKey, a: Addr)
    requires key in v
    ensures DeviceFields(v - {key}, a) ==
            if a != key.exporter then DeviceFields(v, a)
            else DeviceFields(v, a) - FieldCount(v[key].templates)
  {
    if a == key.exporter {
      assert DomainFields(v - {key}, a) == DomainFields(v, a) - {key};
      SumRemove(DomainFields(v, a), key);
    } else {
      assert DomainFields(v - {key}, a) == DomainFields(v, a);
    }
  }

  lemma FieldCountPositive(ts: Shelf)
    ensures FieldCount(ts) >= 0
  {
    SumNonNegative(FieldSizes(ts));
  }

  // ---- How a step moves what the devices owe -----------------------------------

  lemma InDevices(v: Domains, key: DomainKey)
    requires key in v
    ensures key.exporter in Devices(v) && key in DomainsOf(v, key.exporter)
  {
  }

  lemma NoDevice(v: Domains, a: Addr)
    requires a !in Devices(v)
    ensures DomainsOf(v, a) == {} && DeviceFields(v, a) == 0
  {
    assert DomainFields(v, a) == map[];
  }

  lemma DevicesPut(v: Domains, key: DomainKey, d: Domain)
    ensures Devices(v[key := d]) == Devices(v) + {key.exporter}
  {
    var w := v[key := d];
    forall a
      ensures a in Devices(w) <==> a in Devices(v) + {key.exporter}
    {
      if a in Devices(v) {
        var k :| k in v && k.exporter == a;
        assert k in w;
      }
      if a == key.exporter {
        assert key in w;
      }
    }
  }

  lemma DomainsOfPut(v: Domains, key: DomainKey, d: Domain, a: Addr)
    ensures DomainsOf(v[key := d], a) == DomainsOf(v, a) + if a == key.exporter then {key} else {}
  {
  }

  lemma DomainCountPut(v: Domains, key: DomainKey, d: Domain, a: Addr)
    ensures |DomainsOf(v[key := d], a)| ==
            |DomainsOf(v, a)| + if a == key.exporter && key !in v then 1 else 0
  {
    DomainsOfPut(v, key, d, a);
    if a == key.exporter && key in v {
      assert DomainsOf(v, a) + {key} == DomainsOf(v, a);
    }
  }

  function DueTo(dues: map<Addr, Budget>, a: Addr): Budget {
    if a in dues then dues[a] else Budget(0, 0)
  }

  lemma DuesAt(v: Domains, a: Addr)
    ensures DueTo(Dues(v), a) == Budget(|DomainsOf(v, a)|, DeviceFields(v, a))
  {
    if a !in Devices(v) {
      NoDevice(v, a);
    }
  }

  function Charge(due: Budget, domains: int, fields: int): Budget {
    Budget(due.domains + domains, due.fields + fields)
  }

  ghost function Holds(v: Domains, key: DomainKey): int {
    if key in v then FieldCount(v[key].templates) else 0
  }

  lemma DuePut(v: Domains, key: DomainKey, d: Domain, a: Addr)
    ensures DueTo(Dues(v[key := d]), a) ==
            if a != key.exporter then DueTo(Dues(v), a)
            else Charge(DueTo(Dues(v), a), if key in v then 0 else 1, FieldCount(d.templates) - Holds(v, key))
  {
    DuesAt(v, a);
    DuesAt(v[key := d], a);
    DomainCountPut(v, key, d, a);
    DeviceFieldsPut(v, key, d, a);
  }

  lemma SameDues(m1: map<Addr, Budget>, m2: map<Addr, Budget>)
    requires m1.Keys == m2.Keys
    requires forall a :: DueTo(m1, a) == DueTo(m2, a)
    ensures m1 == m2
  {
    forall a | a in m1
      ensures m1[a] == m2[a]
    {
      assert DueTo(m1, a) == DueTo(m2, a);
    }
  }

  lemma DuesKeys(v: Domains)
    ensures Dues(v).Keys == Devices(v)
  {
  }

  /** Writing one domain moves its own device's due alone. */
  lemma DuesPut(v: Domains, key: DomainKey, d: Domain, due: Budget)
    requires due ==
             Charge(DueTo(Dues(v), key.exporter), if key in v then 0 else 1, FieldCount(d.templates) - Holds(v, key))
    ensures Dues(v[key := d]) == Dues(v)[key.exporter := due]
  {
    hide Dues, FieldCount, Holds;
    var dues, left := Dues(v), Dues(v[key := d]);
    DuesKeysPut(v, key, d);
    forall a
      ensures DueTo(left, a) == DueTo(dues[key.exporter := due], a)
    {
      DuePut(v, key, d, a);
    }
    SameDues(left, dues[key.exporter := due]);
  }

  lemma DuesKeysPut(v: Domains, key: DomainKey, d: Domain)
    ensures Dues(v[key := d]).Keys == Dues(v).Keys + {key.exporter}
  {
    DuesKeys(v);
    DuesKeys(v[key := d]);
    DevicesPut(v, key, d);
  }

  lemma DueDrop(v: Domains, key: DomainKey, a: Addr)
    requires key in v
    ensures DueTo(Dues(v - {key}), a) ==
            if a != key.exporter then DueTo(Dues(v), a)
            else Charge(DueTo(Dues(v), a), -1, -Holds(v, key))
    ensures a in Devices(v - {key}) <==>
            a in Devices(v) && (a == key.exporter ==> DueTo(Dues(v), a).domains != 1)
  {
    hide Dues, DueTo, DeviceFields, FieldCount;
    DuesAt(v, a);
    DuesAt(v - {key}, a);
    DomainsOfDrop(v, key, a);
    DeviceFieldsDrop(v, key, a);
    DevicesDrop(v, key, a);
    if a in Devices(v) {
      var k :| k in v && k.exporter == a;
      assert k in DomainsOf(v, a);
    } else {
      NoDevice(v, a);
    }
  }

  lemma DevicesDrop(v: Domains, key: DomainKey, a: Addr)
    ensures a in Devices(v - {key}) <==> DomainsOf(v, a) - {key} != {}
  {
    var w := v - {key};
    if a in Devices(w) {
      var k :| k in w && k.exporter == a;
      assert k in DomainsOf(v, a) - {key};
    }
    if DomainsOf(v, a) - {key} != {} {
      var k :| k in DomainsOf(v, a) - {key};
      assert k in w && k.exporter == a;
    }
  }

  /** What a device owes once one of its domains is evicted. */
  ghost function DuesWithout(dues: map<Addr, Budget>, a: Addr, fields: int): map<Addr, Budget>
    requires a in dues
  {
    if dues[a].domains == 1 then dues - {a} else dues[a := Charge(dues[a], -1, -fields)]
  }

  lemma WithoutPoint(dues: map<Addr, Budget>, a: Addr, fields: int, i: Addr)
    requires a in dues && dues[a].domains == 1 ==> dues[a].fields == fields
    requires a in dues
    ensures DueTo(DuesWithout(dues, a, fields), i) == if i == a then Charge(dues[a], -1, -fields) else DueTo(dues, i)
    ensures i in DuesWithout(dues, a, fields) <==> i in dues && (i == a ==> dues[a].domains != 1)
  {
  }

  lemma LastHolds(v: Domains, key: DomainKey)
    requires key in v
    ensures key.exporter in Dues(v) && Dues(v)[key.exporter] == DueTo(Dues(v), key.exporter)
    ensures Dues(v)[key.exporter].domains == 1 ==> Dues(v)[key.exporter].fields == Holds(v, key)
  {
    var a := key.exporter;
    InDevices(v, key);
    if |DomainsOf(v, a)| == 1 {
      DomainsOfDrop(v, key, a);
      DeviceFieldsDrop(v, key, a);
      DevicesDrop(v, key, a);
      NoDevice(v - {key}, a);
    }
  }

  /** Evicting one domain gives its device back what it was charged, and leaves
      a device with no domain owing nothing. */
  lemma DuesDrop(v: Domains, key: DomainKey)
    requires key in v
    ensures key.exporter in Dues(v)
    ensures Dues(v - {key}) == DuesWithout(Dues(v), key.exporter, Holds(v, key))
  {
    LastHolds(v, key);
    var a, held := key.exporter, Holds(v, key);
    var dues, left := Dues(v), Dues(v - {key});
    forall i
      ensures i in left <==> i in DuesWithout(dues, a, held)
      ensures DueTo(left, i) == DueTo(DuesWithout(dues, a, held), i)
    {
      DuePointDrop(v, key, i);
    }
    SameDues(left, DuesWithout(dues, a, held));
  }

  lemma DuePointDrop(v: Domains, key: DomainKey, i: Addr)
    requires key in v && key.exporter in Dues(v)
    ensures i in Dues(v - {key}) <==> i in DuesWithout(Dues(v), key.exporter, Holds(v, key))
    ensures DueTo(Dues(v - {key}), i) == DueTo(DuesWithout(Dues(v), key.exporter, Holds(v, key)), i)
  {
    LastHolds(v, key);
    DueDrop(v, key, i);
    DuesKeys(v);
    DuesKeys(v - {key});
    WithoutPoint(Dues(v), key.exporter, Holds(v, key), i);
  }

  lemma DomainsOfDrop(v: Domains, key: DomainKey, a: Addr)
    requires key in v
    ensures DomainsOf(v - {key}, a) == DomainsOf(v, a) - {key}
    ensures |DomainsOf(v - {key}, a)| == |DomainsOf(v, a)| - if a == key.exporter then 1 else 0
    ensures a == key.exporter ==> (DomainsOf(v, a) - {key} == {} <==> |DomainsOf(v, a)| == 1)
    ensures a != key.exporter ==> DomainsOf(v, a) - {key} == DomainsOf(v, a)
  {
    if a == key.exporter {
      assert key in DomainsOf(v, a);
    }
  }

  // ---- Steps ----------------------------------------------------------------

  /** The budgets leave room for a domain under this key. */
  ghost predicate Admits(v: Domains, key: DomainKey) {
    || key in v
    || (if key.exporter in Dues(v) then Dues(v)[key.exporter].domains < MAX_DOMAINS
        else |Dues(v)| < MAX_EXPORTERS)
  }

  /** The count beside the map is the map's own, and the lower bound is one. */
  ghost predicate Counted(d: Domain) {
    && d.fields == FieldCount(d.templates)
    && (d.templatesOldest.Some? ==>
         forall ref :: ref in d.templates ==> d.templatesOldest.value <= d.templates[ref].refreshedAt)
  }

  /** The templates still inside the TTL. */
  ghost function Live(ts: Shelf, now: int, ttl: int): Shelf {
    map ref | ref in ts && now - ts[ref].refreshedAt <= ttl :: ts[ref]
  }

  /** A domain holding ts, on a device whose templates hold used specifiers in
      all, can take t under ref. */
  predicate Fits(ts: Shelf, used: int, ref: TemplateRef, t: Template) {
    && (ref in ts || |ts| < MAX_TEMPLATES)
    && used + |t.fields| - HeldFields(ts, ref) <= MAX_FIELDS
  }

  /** What an announcement leaves a domain holding, always pruning before it
      refuses: taken as it stands, taken once the expired templates are gone,
      or refused with the layout its id held withdrawn. */
  ghost function Announced(ts: Shelf, used: int, ref: TemplateRef, t: Template, now: int, ttl: int): Shelf {
    var live := Live(ts, now, ttl);
    if Fits(ts, used, ref, t) then ts[ref := Held(t, now)]
    else if Fits(live, used - FieldCount(ts) + FieldCount(live), ref, t) then live[ref := Held(t, now)]
    else live - {ref}
  }

  ghost predicate Takes(ts: Shelf, used: int, ref: TemplateRef, t: Template, now: int, ttl: int) {
    var live := Live(ts, now, ttl);
    Fits(ts, used, ref, t) || Fits(live, used - FieldCount(ts) + FieldCount(live), ref, t)
  }

  /** lookup: one template by its session and id, expired ones being absent. */
  function LookUp(ts: Shelf, ref: TemplateRef, now: int, ttl: int): Option<Template> {
    if ref in ts && now - ts[ref].refreshedAt <= ttl then Some(ts[ref].layout) else None
  }

  /** Whichever way an announcement goes, its id then holds what was announced
      or nothing, and every other id what it held or nothing. */
  lemma AnnouncedLookups(ts: Shelf, used: int, ref: TemplateRef, t: Template, now: int, ttl: int, other: TemplateRef)
    requires ttl >= 0
    ensures var after := Announced(ts, used, ref, t, now, ttl);
            && LookUp(after, other, now, ttl) ==
               (if other != ref then LookUp(ts, other, now, ttl)
                else if Takes(ts, used, ref, t, now, ttl) then Some(t) else None)
  {
  }

  // ---- What an announcement keeps ------------------------------------------------

  ghost predicate Within(kept: Shelf, ts: Shelf) {
    forall ref :: ref in kept ==> ref in ts && kept[ref] == ts[ref]
  }

  lemma ShelfShrinks(kept: Shelf, ts: Shelf)
    requires Within(kept, ts)
    ensures FieldCount(kept) <= FieldCount(ts) && |kept| <= |ts|
  {
    SumShrinks(FieldSizes(kept), FieldSizes(ts));
    assert kept.Keys <= ts.Keys;
    SubsetSize(kept.Keys, ts.Keys);
    assert |kept.Keys| == |kept| && |ts.Keys| == |ts|;
  }

  lemma ShelfGrows(ts: Shelf, ref: TemplateRef, h: Held)
    ensures |ts[ref := h]| == |ts| + if ref in ts then 0 else 1
  {
    assert ts[ref := h].Keys == ts.Keys + {ref};
    assert |ts[ref := h].Keys| == |ts[ref := h]| && |ts.Keys| == |ts|;
  }

  /** However an announcement ends, the domain and its device stay within their
      bounds. */
  lemma AnnouncedFits(ts: Shelf, used: int, ref: TemplateRef, t: Template, now: int, ttl: int)
    requires |ts| <= MAX_TEMPLATES && used <= MAX_FIELDS
    ensures var after := Announced(ts, used, ref, t, now, ttl);
            |after| <= MAX_TEMPLATES && used - FieldCount(ts) + FieldCount(after) <= MAX_FIELDS
  {
    hide FieldCount;
    var live, h := Live(ts, now, ttl), Held(t, now);
    ShelfShrinks(live, ts);
    if Fits(ts, used, ref, t) {
      FieldsPut(ts, ref, h);
      ShelfGrows(ts, ref, h);
    } else if Fits(live, used - FieldCount(ts) + FieldCount(live), ref, t) {
      FieldsPut(live, ref, h);
      ShelfGrows(live, ref, h);
    } else {
      ShelfShrinks(live - {ref}, ts);
    }
  }

  /** Everything held afterwards was held before or is what was announced. */
  lemma AnnouncedFrom(ts: Shelf, used: int, ref: TemplateRef, t: Template, now: int, ttl: int, r: TemplateRef)
    requires r in Announced(ts, used, ref, t, now, ttl)
    ensures var h := Announced(ts, used, ref, t, now, ttl)[r];
            (r in ts && h == ts[r]) || (r == ref && h == Held(t, now))
  {
  }

  // ---- Steps on all domains ------------------------------------------------------

  ghost predicate Fresh(d: Domain, now: int) {
    && d.templates == map[] && d.lastSeen == now
    && d.samplingRate == 0 && d.positions == Positions(map[], 0)
  }

  /** domain: the key's state stamped as seen, opened where the budgets leave
      room for it, and nothing at all otherwise. */
  ghost predicate SeenStep(v: Domains, v': Domains, key: DomainKey, now: int) {
    if !Admits(v, key) then v' == v
    else
      && key in v' && v' == v[key := v'[key]]
      && (if key in v then v'[key] == v[key].(lastSeen := now) else Fresh(v'[key], now))
  }

  /** d' is d with other templates. */
  ghost predicate OnlyTemplates(d: Domain, d': Domain) {
    && d'.lastSeen == d.lastSeen && d'.samplingRate == d.samplingRate && d'.positions == d.positions
    && d'.budget == d.budget && d'.declared == d.declared
  }

  ghost function ShelfOf(v: Domains, key: DomainKey): Shelf {
    if key in v then v[key].templates else map[]
  }

  /** The specifiers a device is charged for, over all its domains. */
  ghost function Used(v: Domains, a: Addr): int {
    DueTo(Dues(v), a).fields
  }

  /** add: the domain seen, then holding what an announcement leaves it. */
  ghost predicate AddStep(v: Domains, v': Domains, key: DomainKey, ref: TemplateRef, t: Template,
                          now: int, ttl: int, ok: bool) {
    if !Admits(v, key) then v' == v && !ok
    else
      && key in v' && v' == v[key := v'[key]]
      && v'[key].templates == Announced(ShelfOf(v, key), Used(v, key.exporter), ref, t, now, ttl)
      && ok == Takes(ShelfOf(v, key), Used(v, key.exporter), ref, t, now, ttl)
      && (if key in v then OnlyTemplates(v[key].(lastSeen := now), v'[key])
          else Fresh(v'[key].(templates := map[]), now))
  }

  /** withdraw: one id drops its layout, and no domain is opened for it. */
  ghost predicate WithdrawStep(v: Domains, v': Domains, key: DomainKey, ref: TemplateRef) {
    if key !in v then v' == v
    else
      && key in v' && v' == v[key := v'[key]]
      && v'[key].templates == v[key].templates - {ref}
      && OnlyTemplates(v[key], v'[key])
  }

  /** One domain's sequence positions move and nothing else does. */
  ghost predicate PositionStep(v: Domains, v': Domains, key: DomainKey, p: Positions) {
    key in v && v' == v[key := v[key].(positions := p)]
  }

  /** One announcement onto the table in a cell: taken where the declaration is
      held or there is room, and leaving the table as it stood otherwise. */
  ghost predicate DeclareStep(t: map<Cell, Table>, t': map<Cell, Table>, cell: Cell,
                              odid: u32, id: u32, isNamed: bool, e: Entry, ok: bool)
  {
    && cell in t && cell in t' && t' == t[cell := t'[cell]]
    && (ok <==> t[cell].declared.Holds(odid, id, isNamed) || t[cell].declared.Size() < MAX_DECLARATIONS)
    && t'[cell].declared == (if ok then t[cell].declared.With(odid, id, isNamed, e) else t[cell].declared)
    && (!ok ==> t'[cell] == t[cell])
  }

  ghost predicate ScopedStep(t: map<Cell, Table>, t': map<Cell, Table>, cell: Cell, ref: ScopedRef, e: Entry,
                             ok: bool)
  {
    && cell in t && cell in t' && t' == t[cell := t'[cell]]
    && (ok <==> ref in t[cell].declared.scoped || t[cell].declared.Size() < MAX_DECLARATIONS)
    && t'[cell].declared ==
       (if ok then t[cell].declared.(scoped := t[cell].declared.scoped[ref := e]) else t[cell].declared)
    && (!ok ==> t'[cell] == t[cell])
  }

  // ---- Sweeps ----------------------------------------------------------------------

  ghost function LiveSince(v: Domains, cutoff: int): Domains {
    map key | key in v && v[key].lastSeen >= cutoff :: v[key]
  }

  /** The domains left when only those outside todo have been judged. */
  ghost function LiveSoFar(v: Domains, todo: set<DomainKey>, cutoff: int): Domains {
    map key | key in v && (key in todo || v[key].lastSeen >= cutoff) :: v[key]
  }

  ghost function RateOf(key: DomainKey, d: Domain, t: map<Cell, Table>): u32 {
    if d.declared in t then t[d.declared].declared.PlainRate(key.odid) else 0
  }

  /** Every domain restating what it declared for itself. */
  ghost function Restated(v: Domains, t: map<Cell, Table>): Domains {
    map key | key in v :: v[key].(samplingRate := RateOf(key, v[key], t))
  }

  ghost function RestatedSoFar(v: Domains, todo: set<DomainKey>, t: map<Cell, Table>): Domains {
    map key | key in v :: if key in todo then v[key] else v[key].(samplingRate := RateOf(key, v[key], t))
  }

  /** Every declaration announced before the cutoff gone, in the tables named. */
  ghost predicate Expired(n: map<SamplerKey, Cell>, t: map<Cell, Table>, t': map<Cell, Table>, cutoff: int) {
    forall k :: k in n && n[k] in t ==> n[k] in t' && t'[n[k]].declared == t[n[k]].declared.Since(cutoff)
  }

  /** One domain left by a sweep with its own idle state freed. */
  ghost predicate Pruned(d: Domain, d': Domain, cutoff: int, now: int, ttl: int) {
    && d'.templates == Live(d.templates, now, ttl)
    && d'.positions == Positions(SessionsSince(d.positions.sessions, cutoff), d.positions.missed)
    && d'.lastSeen == d.lastSeen && d'.samplingRate == d.samplingRate && d'.declared == d.declared
  }

  // ---- One announcement against what a session can look up ---------------------------

  /** A step after which ref is looked up as found, and every other template as
      before. */
  ghost predicate RegisterStep(v: Domains, v': Domains, key: DomainKey, ref: TemplateRef, found: Option<Template>,
                               now: int, ttl: int)
  {
    && key in v && key in v' && v' == v[key := v'[key]] && OnlyTemplates(v[key], v'[key])
    && forall r :: LookUp(v'[key].templates, r, now, ttl) ==
                   if r == ref then found else LookUp(v[key].templates, r, now, ttl)
  }

  lemma AddRegisters(v: Domains, v': Domains, key: DomainKey, ref: TemplateRef, t: Template, now: int, ttl: nat,
                     ok: bool)
    requires key in v && v[key].lastSeen == now && AddStep(v, v', key, ref, t, now, ttl, ok)
    ensures RegisterStep(v, v', key, ref, if ok then Some(t) else None, now, ttl)
  {
    hide Dues, FieldCount, Announced, Takes, LookUp, DueTo;
    forall r
      ensures LookUp(v'[key].templates, r, now, ttl) ==
              if r == ref then if ok then Some(t) else None else LookUp(v[key].templates, r, now, ttl)
    {
      AnnouncedLookups(v[key].templates, Used(v, key.exporter), ref, t, now, ttl, r);
    }
  }

  lemma WithdrawRegisters(v: Domains, v': Domains, key: DomainKey, ref: TemplateRef, now: int, ttl: int)
    requires key in v && WithdrawStep(v, v', key, ref)
    ensures RegisterStep(v, v', key, ref, None, now, ttl)
  {
  }

  /** A domain seen again at the same instant is unchanged. */
  lemma SeenAgain(v: Domains, v': Domains, key: DomainKey, now: int)
    requires key in v && v[key].lastSeen == now && SeenStep(v, v', key, now)
    ensures v' == v
  {
    hide Dues;
    assert v[key].(lastSeen := now) == v[key];
    assert v[key := v[key]] == v;
  }
}
