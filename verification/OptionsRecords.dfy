/** Options records: the sampling rate one declares, and what it is tied to. */
module OptionsRecords {
  import opened Uint
  import opened Wire
  import opened Templates
  import opened SamplerTables
  import opened StoreModel
  import opened StoreInvariants
  import opened TemplateStores
  import opened Corrections

  /** One options record's values, as optionsState accumulates them. */
  datatype Options = Options(
    samplerID: Option<u32>, selectorID: Option<u32>,
    plainInterval: u32, randomInterval: u32,
    packetInterval: u32, packetSpace: u32, hasSpace: bool,
    samplingSize: u32, population: u32,
    appID: u32, appName: Bytes, appCategory: Bytes,
    scopeTemplate: Option<u16>, scopeInterface: Option<u32>, scopeDomain: Option<u32>)

  const BLANK: Options := Options(None, None, 0, 0, 0, 0, false, 0, 0, 0, [], [], None, None, None)

  /** beUint32: any width of one to eight bytes holding a 32-bit value. */
  function BeUint32(value: Bytes): Option<u32> {
    if 1 <= |value| <= 8 && BigEndian(value) < TWO_32 then Some(BigEndian(value)) else None
  }

  function BeUint16(value: Bytes): Option<u16> {
    if 1 <= |value| <= 8 && BigEndian(value) < TWO_16 then Some(BigEndian(value)) else None
  }

  function OrZero(v: Option<u32>): u32 {
    if v.Some? then v.value else 0
  }

  const CISCO: u32 := 9
  const SELECTOR_RANGE: int := 0x100_0000

  /** applicationID: an engine in the first byte and a selector in the rest, of
      any width that holds no more than 24 bits. */
  function ApplicationID(value: Bytes): Option<u32> {
    if |value| < 2 || |value| > 9 || BigEndian(value[1..]) >= SELECTOR_RANGE then None
    else Some(value[0] * SELECTOR_RANGE + BigEndian(value[1..]))
  }

  /** apply. */
  function Apply(o: Options, f: TemplateField, value: Bytes): Options {
    if f.enterprise == CISCO && f.fieldType == 12232 then o.(appCategory := value)
    else if f.enterprise != 0 then o
    else
      match f.fieldType
      case 48 => o.(samplerID := BeUint32(value))
      case 302 => o.(selectorID := BeUint32(value))
      case 34 => o.(plainInterval := OrZero(BeUint32(value)))
      case 50 => o.(randomInterval := OrZero(BeUint32(value)))
      case 305 => o.(packetInterval := OrZero(BeUint32(value)))
      case 306 => o.(packetSpace := OrZero(BeUint32(value)), hasSpace := true)
      case 309 => o.(samplingSize := OrZero(BeUint32(value)))
      case 310 => o.(population := OrZero(BeUint32(value)))
      case 95 => o.(appID := OrZero(ApplicationID(value)))
      case 96 => o.(appName := value)
      case _ => o
  }

  /** applyV9Scope and applyIPFIXScope. */
  function ApplyScope(proto: Protocol, o: Options, f: TemplateField, value: Bytes): Options {
    if proto == NetFlowV9 then
      match f.fieldType
      case 5 => o.(scopeTemplate := BeUint16(value))
      case 2 => o.(scopeInterface := BeUint32(value))
      case _ => o
    else if f.enterprise != 0 then o
    else
      match f.fieldType
      case 145 => o.(scopeTemplate := BeUint16(value))
      case 10 => o.(scopeInterface := BeUint32(value))
      case 149 => o.(scopeDomain := BeUint32(value))
      case _ => o
  }

  function ReadField(proto: Protocol, o: Options, f: TemplateField, value: Bytes, scope: bool): Options {
    Apply(if scope then ApplyScope(proto, o, f, value) else o, f, value)
  }

  /** The first n fields of a record, its leading scopes read as scopes too. */
  function ReadUpTo(proto: Protocol, t: Template, values: seq<Bytes>, n: nat): Options
    requires n <= |t.fields| == |values|
  {
    if n == 0 then BLANK
    else ReadField(proto, ReadUpTo(proto, t, values, n - 1), t.fields[n - 1], values[n - 1], n - 1 < t.scopeCount)
  }

  method ReadOptions(proto: Protocol, t: Template, values: seq<Bytes>) returns (o: Options)
    requires |t.fields| == |values|
    ensures o == ReadUpTo(proto, t, values, |values|)
  {
    o := BLANK;
    for i := 0 to |values|
      invariant o == ReadUpTo(proto, t, values, i)
    {
      if i < t.scopeCount {
        o := ApplyScope(proto, o, t.fields[i], values[i]);
      }
      o := Apply(o, t.fields[i], values[i]);
    }
  }

  /** samplingRate, its sum taken in 32 bits as the source takes it. */
  function SamplingRate(o: Options): u32 {
    if o.hasSpace && o.packetInterval > 0 then
      DivideAtMost(Add32(o.packetInterval, o.packetSpace), o.packetInterval);
      Add32(o.packetInterval, o.packetSpace) / o.packetInterval
    else if o.samplingSize > 0 && o.population > 0 then
      DivideAtMost(o.population, o.samplingSize);
      o.population / o.samplingSize
    else if o.randomInterval > 0 then o.randomInterval
    else o.plainInterval
  }

  lemma DivideAtMost(x: nat, d: nat)
    requires d >= 1
    ensures 0 <= x / d <= x
  {
    var q, r := x / d, x % d;
    assert x == d * q + r;
    ProductAtLeast(d, q);
  }

  lemma {:induction false} ProductAtLeast(d: nat, q: int)
    requires d >= 1
    ensures q >= 0 ==> d * q >= q
    ensures q < 0 ==> d * q <= q
    decreases d
  {
    if d > 1 {
      ProductAtLeast(d - 1, q);
      assert d * q == (d - 1) * q + q;
    }
  }

  /** A stretch of packets selected every interval + space of them is the rate
      declared, exactly where that sum still fits the 32 bits it is taken in. */
  lemma PacketRateExact(o: Options)
    requires o.hasSpace && o.packetInterval > 0
    ensures SamplingRate(o) == (o.packetInterval + o.packetSpace) / o.packetInterval <==>
            o.packetInterval + o.packetSpace < TWO_32
  {
    var n, sum: int := o.packetInterval, o.packetInterval + o.packetSpace;
    if sum >= TWO_32 {
      var q, r := sum / n, sum % n;
      var q', r' := (sum - TWO_32) / n, (sum - TWO_32) % n;
      assert sum == n * q + r && sum - TWO_32 == n * q' + r';
      assert r - r' < TWO_32;
      assert q == q' ==> r - r' == TWO_32;
    }
  }

  /** The largest space there is behind an interval of one wraps the sum to
      nothing, and the declaration is dropped. */
  lemma WrappedRateIsDropped(s: Sampling, key: DomainKey, port: u16, at: int)
    ensures var o := BLANK.(packetInterval := 1, packetSpace := 0xFFFF_FFFF, hasSpace := true);
            && (o.packetInterval + o.packetSpace) / o.packetInterval == TWO_32
            && SamplingRate(o) == 0
            && Committed(s, o, key, port, at) == s
  {
  }

  /** What a declaration is tied to: the sampler it names, the first scope it
      carries, or its own domain. */
  datatype Target = Named(id: u32) | Scoped(ref: ScopedRef) | Plain

  function TargetOf(o: Options, key: DomainKey, port: u16): Target {
    if o.samplerID.Some? then Named(o.samplerID.value)
    else if o.selectorID.Some? then Named(o.selectorID.value)
    else if o.scopeTemplate.Some? then Scoped(TemplateScope(key.odid, TemplateRef(port, o.scopeTemplate.value)))
    else if o.scopeInterface.Some? then Scoped(InterfaceScope(key.odid, o.scopeInterface.value))
    else if o.scopeDomain.Some? && o.scopeDomain.value != key.odid then Scoped(DomainScope(o.scopeDomain.value))
    else Plain
  }

  /** The table after one record, and the domains. */
  ghost predicate CommitStep(v: Domains, t: Tables, v': Domains, t': Tables, key: DomainKey, port: u16, o: Options,
                             ok: bool)
  {
    && key in v && key in v'
    && var rate, target := SamplingRate(o), TargetOf(o, key, port);
       var e := Entry(rate, v[key].lastSeen);
       if rate == 0 then v' == v && t' == t && ok
       else
         match target
         case Named(id) => v' == v && DeclareStep(t, t', v[key].declared, key.odid, id, true, e, ok)
         case Scoped(ref) => v' == v && ScopedStep(t, t', v[key].declared, ref, e, ok)
         case Plain =>
           && v' == v[key := v[key].(samplingRate := rate)]
           && DeclareStep(t, t', v[key].declared, key.odid, 0, false, e, ok)
  }

  // ---- What options records leave declared -------------------------------------------

  /** What one domain declares: its device's table and the rate it keeps. */
  datatype Sampling = Sampling(declared: Declarations, rate: u32)

  ghost function SamplingOf(v: Domains, t: Tables, key: DomainKey): Sampling {
    if key in v && v[key].declared in t then Sampling(t[v[key].declared].declared, v[key].samplingRate)
    else Sampling(EMPTY_TABLE.declared, 0)
  }

  /** One record's declaration, refused by a full table unless it is held. */
  function Committed(s: Sampling, o: Options, key: DomainKey, port: u16, at: int): Sampling {
    var rate, d := SamplingRate(o), s.declared;
    var e := Entry(rate, at);
    if rate == 0 then s
    else
      match TargetOf(o, key, port)
      case Named(id) =>
        if d.Holds(key.odid, id, true) || d.Size() < MAX_DECLARATIONS then s.(declared := d.With(key.odid, id, true,
            e)) else s
      case Scoped(ref) =>
        if ref in d.scoped || d.Size() < MAX_DECLARATIONS then s.(declared := d.(scoped := d.scoped[ref := e])) else s
      case Plain =>
        Sampling(if d.Holds(key.odid, 0, false) || d.Size() < MAX_DECLARATIONS then d.With(key.odid, 0, false,
            e) else d, rate)
  }

  /** What a domain declares as a datagram of it arrives: one not live is opened
      on its device's table as that stands, or on an empty one. */
  ghost function SamplingBefore(v: Domains, n: TableNames, t: Tables, key: DomainKey): Sampling {
    if key in v then SamplingOf(v, t, key)
    else if TableOf(key) in n && n[TableOf(key)] in t then Sampling(t[n[TableOf(key)]].declared, 0)
    else Sampling(EMPTY_TABLE.declared, 0)
  }

  /** An application string handed on to its device's table. */
  datatype AppString = AppName(id: u32, text: Bytes) | AppCategory(id: u32, text: Bytes)

  function AppStrings(o: Options): seq<AppString> {
    if o.appID == 0 then []
    else
      (if o.appName != [] then [AppName(o.appID, o.appName)] else [])
      + (if o.appCategory != [] then [AppCategory(o.appID, o.appCategory)] else [])
  }

  /** Every table named before is named still, and only one of them reads
      otherwise. */
  ghost predicate OnlyTable(n: TableNames, t: Tables, n': TableNames, t': Tables, k: SamplerKey) {
    forall j :: j in n && n[j] in t ==>
      j in n' && n'[j] == n[j] && n[j] in t' && (j != k ==> t'[n[j]] == t[n[j]])
  }

  lemma CommitSamples(v: Domains, n: TableNames, t: Tables, v': Domains, t': Tables, next: Cell,
                      key: DomainKey, port: u16, o: Options, ok: bool)
    requires CommitStep(v, t, v', t', key, port, o, ok)
    requires TablesNamed(n, t, next) && TableOf(key) in n && v[key].declared == n[TableOf(key)]
    ensures SamplingOf(v', t', key) == Committed(SamplingOf(v, t, key), o, key, port, v[key].lastSeen)
    ensures OnlyTable(n, t, n, t', TableOf(key))
  {
    hide SamplingRate, TargetOf, Table.Valid;
  }

  lemma OnlyTableOn(n1: TableNames, t1: Tables, n2: TableNames, t2: Tables, n3: TableNames, t3: Tables, k: SamplerKey)
    requires OnlyTable(n1, t1, n2, t2, k) && OnlyTable(n2, t2, n3, t3, k)
    ensures OnlyTable(n1, t1, n3, t3, k)
  {
  }

  lemma KeptIsOnly(n: TableNames, t: Tables, n': TableNames, t': Tables, k: SamplerKey)
    requires TablesKept(n, t, n', t')
    ensures OnlyTable(n, t, n', t', k)
  {
  }

  /** commit. The domain's own rate is stored before the table can refuse the
      declaration. */
  method Commit(store: TemplateStore, key: DomainKey, port: u16, o: Options)
    returns (ok: bool, handed: seq<AppString>)
    requires store.Valid() && key in store.domains
    modifies store
    ensures store.Valid() && store.clock == old(store.clock)
    ensures CommitStep(old(store.domains), old(store.tables), store.domains, store.tables, key, port, o, ok)
    ensures store.samplerTables == old(store.samplerTables)
    ensures SamplingOf(store.domains, store.tables, key) ==
            Committed(SamplingOf(old(store.domains), old(store.tables), key), o, key, port,
                old(store.domains)[key].lastSeen)
    ensures OnlyTable(old(store.samplerTables), old(store.tables), store.samplerTables, store.tables, TableOf(key))
    ensures handed == AppStrings(o)
  {
    hide Sound, DeclareStep, ScopedStep, CommitStep, Committed, SamplingOf, OnlyTable;
    ghost var v, t := store.domains, store.tables;
    CommitReady(store, key);
    ok := CommitNow(store, key, port, o);
    CommitSamples(v, store.samplerTables, t, store.domains, store.tables, store.nextCell, key, port, o, ok);
    handed := [];
    if o.appID != 0 {
      if |o.appName| > 0 {
        handed := handed + [AppName(o.appID, o.appName)];
      }
      if |o.appCategory| > 0 {
        handed := handed + [AppCategory(o.appID, o.appCategory)];
      }
    }
  }

  lemma CommitReady(store: TemplateStore, key: DomainKey)
    requires store.Valid() && key in store.domains
    ensures TablesNamed(store.samplerTables, store.tables, store.nextCell)
    ensures TableOf(key) in store.samplerTables && store.domains[key].declared == store.samplerTables[TableOf(key)]
  {
    hide Sound;
    LiveDomain(store.domains, store.perExporter, store.budgets, store.samplerTables, store.tables, store.nextCell,
        store.clock, key);
    SoundTables(store.domains, store.perExporter, store.budgets, store.samplerTables, store.tables, store.nextCell,
        store.clock);
  }

  method CommitNow(store: TemplateStore, key: DomainKey, port: u16, o: Options) returns (ok: bool)
    requires store.Valid() && key in store.domains
    modifies store
    ensures store.Valid() && store.clock == old(store.clock)
    ensures CommitStep(old(store.domains), old(store.tables), store.domains, store.tables, key, port, o, ok)
    ensures store.samplerTables == old(store.samplerTables) && store.nextCell == old(store.nextCell)
  {
    hide Sound, DeclareStep, ScopedStep;
    var rate := SamplingRate(o);
    if rate == 0 {
      return true;
    }
    match TargetOf(o, key, port) {
      case Named(id) =>
        ok := store.DeclareSampler(key, id, true, rate);
      case Scoped(ref) =>
        ok := store.DeclareScoped(key, ref, rate);
      case Plain =>
        store.StoreRate(key, rate);
        ok := store.DeclareSampler(key, 0, false, rate);
    }
  }

  /** After a plain declaration the domain's rate is the one its table holds,
      exactly where the table took it or already held that rate. */
  lemma PlainRateAgrees(v: Domains, t: Tables, v': Domains, t': Tables, key: DomainKey, port: u16, o: Options, ok: bool)
    requires CommitStep(v, t, v', t', key, port, o, ok)
    requires SamplingRate(o) > 0 && TargetOf(o, key, port).Plain?
    ensures v'[key].samplingRate == SamplingRate(o)
    ensures RateOf(key, v'[key], t') == v'[key].samplingRate <==>
              || key.odid in t[v[key].declared].declared.plain
              || t[v[key].declared].declared.Size() < MAX_DECLARATIONS
  {
  }

  /** As many declarations as a table takes, none of them plain. */
  function Numbered(n: nat): (named: map<SamplerRef, Entry>)
    requires n < TWO_32
    ensures |named| == n && forall ref :: ref in named ==> ref.id < n
  {
    if n == 0 then map[]
    else
      GrowsByOne(Numbered(n - 1), SamplerRef(0, n - 1), Entry(1, 0));
      Numbered(n - 1)[SamplerRef(0, n - 1) := Entry(1, 0)]
  }

  /** A full table refuses a plain declaration the domain's own rate has already
      taken. */
  lemma FullTableDisagrees(key: DomainKey, port: u16, at: int)
    ensures var full := Declarations(Numbered(MAX_DECLARATIONS), map[], map[]);
            var after := Committed(Sampling(full, 0), BLANK.(plainInterval := 100), key, port, at);
            after.rate == 100 && after.declared.PlainRate(key.odid) == 0
  {
    hide Numbered;
  }
}
