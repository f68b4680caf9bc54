/** What every step of the store keeps, stated on its values. Budgets and
    sampler tables are cells: a device or a table key names one, and the domains
    sharing it name the same one. */
module StoreInvariants {
  import opened Uint
  import opened Templates
  import opened Net
  import opened SamplerTables
  import opened Sequences
  import opened StoreModel

  type Exporters = map<Addr, Cell>
  type Budgets = map<Cell, Budget>
  type TableNames = map<SamplerKey, Cell>
  type Tables = map<Cell, Table>

  // ---- Budgets -----------------------------------------------------------------

  /** Every device named has a budget of its own. */
  ghost predicate BudgetsNamed(e: Exporters, b: Budgets, next: Cell) {
    && (forall a :: a in e ==> e[a] in b)
    && (forall a1, a2 :: a1 in e && a2 in e && a1 != a2 ==> e[a1] != e[a2])
    && (forall c :: c in b ==> c < next)
  }

  /** A budget exists exactly while its device has a live domain, and reads
      what the device owes. */
  ghost predicate BudgetsPay(e: Exporters, b: Budgets, dues: map<Addr, Budget>) {
    e.Keys == dues.Keys && forall a :: a in e ==> e[a] in b && b[e[a]] == dues[a]
  }

  /** Every live domain holds the budget of its device. */
  ghost predicate BudgetsLive(v: Domains, e: Exporters) {
    forall key :: key in v ==> key.exporter in e && v[key].budget == e[key.exporter]
  }

  // ---- Sampler tables ------------------------------------------------------------

  ghost predicate TablesNamed(n: TableNames, t: Tables, next: Cell) {
    && (forall k :: k in n ==> n[k] in t && t[n[k]].Valid())
    && (forall k1, k2 :: k1 in n && k2 in n && k1 != k2 ==> n[k1] != n[k2])
    && (forall c :: c in t ==> c < next)
  }

  ghost function TablesOf(v: Domains): set<SamplerKey> {
    set key | key in v :: TableOf(key)
  }

  /** All live domains of one device and protocol share one table, which exists
      exactly while there is one of them. */
  ghost predicate TablesLive(v: Domains, n: TableNames) {
    && n.Keys == TablesOf(v)
    && (forall key :: key in v ==> TableOf(key) in n && v[key].declared == n[TableOf(key)])
  }

  /** A declaration naming a domain belongs to a live one and is no newer than
      the last datagram it sent. */
  ghost predicate Owned(k: SamplerKey, d: Declarations, v: Domains) {
    && (forall ref :: ref in d.named ==>
         DomainKey(k.exporter, ref.odid, k.proto) in v
         && d.named[ref].lastSeen <= v[DomainKey(k.exporter, ref.odid, k.proto)].lastSeen)
    && (forall odid :: odid in d.plain ==>
         DomainKey(k.exporter, odid, k.proto) in v
         && d.plain[odid].lastSeen <= v[DomainKey(k.exporter, odid, k.proto)].lastSeen)
  }

  ghost predicate TablesOwned(v: Domains, n: TableNames, t: Tables) {
    forall k :: k in n ==> n[k] in t && Owned(k, t[n[k]].declared, v)
  }

  // ---- Domains -------------------------------------------------------------------

  ghost predicate Stamped(key: DomainKey, d: Domain, clock: int) {
    && Counted(d)
    && d.lastSeen <= clock
    && (d.templatesOldest.Some? ==> d.templatesOldest.value <= clock)
    && forall ref :: ref in d.templates ==>
         d.templates[ref].refreshedAt <= clock && WellFormed(key.proto, d.templates[ref].layout)
  }

  ghost predicate AllStamped(v: Domains, clock: int) {
    forall key :: key in v ==> Stamped(key, v[key], clock)
  }

  // ---- Rewriting one live domain -----------------------------------------------

  lemma BoundedPut(v: Domains, key: DomainKey, d: Domain, due: Budget)
    requires Bounded(v) && |d.templates| <= MAX_TEMPLATES
    requires Dues(v[key := d]) == Dues(v)[key.exporter := due]
    requires key.exporter in Dues(v) || |Dues(v)| < MAX_EXPORTERS
    requires due.domains <= MAX_DOMAINS && due.fields <= MAX_FIELDS
    ensures Bounded(v[key := d])
  {
    hide Dues;
    var dues, a := Dues(v), key.exporter;
    assert dues[a := due].Keys == dues.Keys + {a};
    assert |dues[a := due]| == |dues[a := due].Keys| && |dues| == |dues.Keys|;
  }

  lemma AdmittedWithinBounds(v: Domains, key: DomainKey)
    requires Bounded(v) && Admits(v, key) && key !in v
    ensures var due := Charge(DueTo(Dues(v), key.exporter), 1, 0);
            due.domains <= MAX_DOMAINS && due.fields <= MAX_FIELDS
    ensures key.exporter in Dues(v) || |Dues(v)| < MAX_EXPORTERS
  {
    hide Dues;
  }

  lemma StampedPut(v: Domains, key: DomainKey, d: Domain, clock: int, now: int)
    requires AllStamped(v, clock) && clock <= now && Stamped(key, d, now)
    ensures AllStamped(v[key := d], now)
  {
    var w := v[key := d];
    forall k | k in w
      ensures Stamped(k, w[k], now)
    {
      if k != key {
        assert Stamped(k, v[k], clock);
      }
    }
  }

  lemma BudgetsPayPut(e: Exporters, b: Budgets, dues: map<Addr, Budget>, next: Cell, a: Addr, cell: Cell, x: Budget)
    requires BudgetsNamed(e, b, next) && BudgetsPay(e, b, dues)
    requires if a in e then e[a] == cell else cell !in b
    ensures BudgetsPay(e[a := cell], b[cell := x], dues[a := x])
  {
    var e', b', dues' := e[a := cell], b[cell := x], dues[a := x];
    assert e'.Keys == e.Keys + {a} && dues'.Keys == dues.Keys + {a};
    forall i | i in e'
      ensures e'[i] in b' && b'[e'[i]] == dues'[i]
    {
      if i != a {
        assert e[i] in b && e[i] != cell;
      }
    }
  }

  lemma BudgetsNamedPut(e: Exporters, b: Budgets, next: Cell, a: Addr, cell: Cell, x: Budget, next': Cell)
    requires BudgetsNamed(e, b, next) && next <= next' && cell < next'
    requires if a in e then e[a] == cell else cell !in b
    ensures BudgetsNamed(e[a := cell], b[cell := x], next')
  {
    var e', b' := e[a := cell], b[cell := x];
    forall i, j | i in e' && j in e' && i != j
      ensures e'[i] != e'[j]
    {
      if i != a {
        assert e[i] in b;
      }
      if j != a {
        assert e[j] in b;
      }
    }
  }

  lemma BudgetsLivePut(v: Domains, e: Exporters, key: DomainKey, d: Domain)
    requires BudgetsLive(v, e) && (key.exporter in e ==> e[key.exporter] == d.budget)
    ensures BudgetsLive(v[key := d], e[key.exporter := d.budget])
  {
  }

  lemma TablesOfPut(v: Domains, key: DomainKey, d: Domain)
    ensures TablesOf(v[key := d]) == TablesOf(v) + {TableOf(key)}
  {
    var w := v[key := d];
    assert w.Keys == v.Keys + {key};
    forall t
      ensures t in TablesOf(w) <==> t in TablesOf(v) + {TableOf(key)}
    {
      if t in TablesOf(v) {
        var k :| k in v && TableOf(k) == t;
        assert k in w;
      }
      if t == TableOf(key) {
        assert key in w;
      }
    }
  }

  lemma TablesLivePut(v: Domains, n: TableNames, key: DomainKey, d: Domain)
    requires TablesLive(v, n) && key in v && d.declared == v[key].declared
    ensures TablesLive(v[key := d], n)
  {
    TablesOfPut(v, key, d);
    assert TableOf(key) in TablesOf(v);
  }

  lemma OwnedPut(k: SamplerKey, decl: Declarations, v: Domains, key: DomainKey, d: Domain)
    requires Owned(k, decl, v) && (key in v ==> v[key].lastSeen <= d.lastSeen)
    ensures Owned(k, decl, v[key := d])
  {
  }

  lemma TablesOwnedPut(v: Domains, n: TableNames, t: Tables, key: DomainKey, d: Domain)
    requires TablesOwned(v, n, t) && (key in v ==> v[key].lastSeen <= d.lastSeen)
    ensures TablesOwned(v[key := d], n, t)
  {
    forall k | k in n
      ensures n[k] in t && Owned(k, t[n[k]].declared, v[key := d])
    {
      OwnedPut(k, t[n[k]].declared, v, key, d);
    }
  }

  // ---- All of it, over the store's fields -----------------------------------------

  ghost predicate Sound(v: Domains, e: Exporters, b: Budgets, n: TableNames, t: Tables, next: Cell, clock: int) {
    && Bounded(v) && AllStamped(v, clock)
    && BudgetsNamed(e, b, next) && BudgetsLive(v, e) && BudgetsPay(e, b, Dues(v))
    && TablesNamed(n, t, next) && TablesLive(v, n) && TablesOwned(v, n, t)
  }

  /** What a live domain shares, and where it stands against its bounds. */
  lemma LiveDomain(v: Domains, e: Exporters, b: Budgets, n: TableNames, t: Tables, next: Cell, clock: int,
                   key: DomainKey)
    requires Sound(v, e, b, n, t, next, clock) && key in v
    ensures Stamped(key, v[key], clock)
    ensures |v[key].templates| <= MAX_TEMPLATES
    ensures key.exporter in e && v[key].budget == e[key.exporter] && v[key].budget in b
    ensures key.exporter in Dues(v) && b[v[key].budget] == Dues(v)[key.exporter]
    ensures b[v[key].budget].domains <= MAX_DOMAINS && b[v[key].budget].fields <= MAX_FIELDS
    ensures TableOf(key) in n && v[key].declared == n[TableOf(key)] && v[key].declared in t
    ensures t[v[key].declared].Valid()
  {
    hide TablesOwned, WellFormed, Counted;
    InDevices(v, key);
  }

  lemma PutDues(v: Domains, key: DomainKey, d: Domain, due: Budget)
    requires key in v && key.exporter in Dues(v) && Counted(v[key]) && Counted(d)
    requires due == Charge(Dues(v)[key.exporter], 0, d.fields - v[key].fields)
    ensures Dues(v[key := d]) == Dues(v)[key.exporter := due]
  {
    assert DueTo(Dues(v), key.exporter) == Dues(v)[key.exporter];
    assert Holds(v, key) == v[key].fields;
    DuesPut(v, key, d, due);
  }

  lemma PutBudgets(v: Domains, e: Exporters, b: Budgets, next: Cell, key: DomainKey, d: Domain, due: Budget)
    requires BudgetsNamed(e, b, next) && BudgetsLive(v, e) && BudgetsPay(e, b, Dues(v))
    requires key in v && d.budget == v[key].budget
    requires Dues(v[key := d]) == Dues(v)[key.exporter := due]
    ensures var b' := b[d.budget := due];
            BudgetsNamed(e, b', next) && BudgetsLive(v[key := d], e) && BudgetsPay(e, b', Dues(v[key := d]))
  {
    var a, cell := key.exporter, d.budget;
    SameUpdate(e, a, cell);
    BudgetsPayPut(e, b, Dues(v), next, a, cell, due);
    BudgetsNamedPut(e, b, next, a, cell, due, next);
    BudgetsLivePut(v, e, key, d);
  }

  lemma PutTables(v: Domains, n: TableNames, t: Tables, key: DomainKey, d: Domain)
    requires TablesLive(v, n) && TablesOwned(v, n, t)
    requires key in v && d.declared == v[key].declared && v[key].lastSeen <= d.lastSeen
    ensures TablesLive(v[key := d], n) && TablesOwned(v[key := d], n, t)
  {
    TablesLivePut(v, n, key, d);
    TablesOwnedPut(v, n, t, key, d);
  }

  /** What the budgets say of a device is what it owes. */
  lemma BudgetReads(v: Domains, e: Exporters, b: Budgets, n: TableNames, t: Tables, next: Cell, clock: int,
                    key: DomainKey)
    requires Sound(v, e, b, n, t, next, clock)
    ensures key.exporter in e ==> e[key.exporter] in b
    ensures DueTo(Dues(v), key.exporter) == if key.exporter in e then b[e[key.exporter]] else Budget(0, 0)
    ensures key !in v ==>
              (Admits(v, key) <==> if key.exporter in e then b[e[key.exporter]].domains < MAX_DOMAINS
                                   else |e| < MAX_EXPORTERS)
    ensures TableOf(key) in n ==> n[TableOf(key)] in t
  {
    hide Bounded, AllStamped, BudgetsNamed, BudgetsLive, TablesLive, TablesOwned, Dues;
    assert |e| == |e.Keys| && |Dues(v)| == |Dues(v).Keys|;
  }

  /** Rewriting one live domain, its device charged the difference, keeps the
      store sound. */
  lemma PutKeeps(v: Domains, e: Exporters, b: Budgets, n: TableNames, t: Tables, next: Cell, clock: int,
                 key: DomainKey, d: Domain, due: Budget, now: int)
    requires Sound(v, e, b, n, t, next, clock) && clock <= now && key in v
    requires Stamped(key, d, now) && v[key].lastSeen <= d.lastSeen
    requires d.budget == v[key].budget && d.declared == v[key].declared
    requires |d.templates| <= MAX_TEMPLATES && d.budget in b
    requires due == Charge(b[d.budget], 0, d.fields - v[key].fields) && due.fields <= MAX_FIELDS
    ensures Sound(v[key := d], e, b[d.budget := due], n, t, next, now)
  {
    hide Bounded, WithinBounds, AllStamped, BudgetsNamed, BudgetsLive, BudgetsPay, TablesNamed, TablesLive, TablesOwned;
    hide Dues, Counted, WellFormed, DueTo;
    LiveDomain(v, e, b, n, t, next, clock, key);
    PutDues(v, key, d, due);
    PutBudgets(v, e, b, next, key, d, due);
    BoundedPut(v, key, d, due);
    StampedPut(v, key, d, clock, now);
    PutTables(v, n, t, key, d);
  }

  lemma SameUpdate(e: Exporters, a: Addr, cell: Cell)
    requires a in e && e[a] == cell
    ensures e[a := cell] == e
  {
  }

  // ---- Opening a domain ------------------------------------------------------------

  lemma TablesNamedOpen(n: TableNames, t: Tables, next: Cell, k: SamplerKey, cell: Cell, next': Cell)
    requires TablesNamed(n, t, next) && next <= next' && cell < next'
    requires k !in n && cell !in t
    ensures TablesNamed(n[k := cell], t[cell := EMPTY_TABLE], next')
  {
    var n', t' := n[k := cell], t[cell := EMPTY_TABLE];
    EmptyTableValid();
    forall i | i in n'
      ensures n'[i] in t' && t'[n'[i]].Valid()
    {
      if i != k {
        assert n[i] in t;
      }
    }
    forall i, j | i in n' && j in n' && i != j
      ensures n'[i] != n'[j]
    {
      if i != k {
        assert n[i] in t;
      }
      if j != k {
        assert n[j] in t;
      }
    }
  }

  lemma TablesNamedLater(n: TableNames, t: Tables, next: Cell, next': Cell)
    requires TablesNamed(n, t, next) && next <= next'
    ensures TablesNamed(n, t, next')
  {
  }

  lemma NextUnused(n: TableNames, t: Tables, next: Cell)
    requires TablesNamed(n, t, next)
    ensures next !in t
  {
  }

  lemma EmptyTableValid()
    ensures EMPTY_TABLE.Valid()
  {
    assert RatesOf(EMPTY_TABLE.declared.named) == {} && RatesOf(EMPTY_TABLE.declared.plain) == {};
    assert forall r: u32 :: r in {r};
  }

  lemma TablesLiveOpen(v: Domains, n: TableNames, key: DomainKey, d: Domain)
    requires TablesLive(v, n)
    requires TableOf(key) in n ==> n[TableOf(key)] == d.declared
    ensures TablesLive(v[key := d], n[TableOf(key) := d.declared])
  {
    TablesOfPut(v, key, d);
    var n' := n[TableOf(key) := d.declared];
    assert n'.Keys == n.Keys + {TableOf(key)};
    forall k | k in v[key := d]
      ensures TableOf(k) in n' && v[key := d][k].declared == n'[TableOf(k)]
    {
    }
  }

  lemma TablesOwnedNew(v: Domains, n: TableNames, t: Tables, k: SamplerKey, cell: Cell)
    requires TablesOwned(v, n, t) && k !in n && cell !in t
    ensures TablesOwned(v, n[k := cell], t[cell := EMPTY_TABLE])
  {
    var n', t' := n[k := cell], t[cell := EMPTY_TABLE];
    forall j | j in n'
      ensures n'[j] in t' && Owned(j, t'[n'[j]].declared, v)
    {
      if j != k {
        assert n[j] in t;
      }
    }
  }

  lemma OpenDues(v: Domains, key: DomainKey, d: Domain, due: Budget)
    requires key !in v && d.templates == map[]
    requires due == Charge(DueTo(Dues(v), key.exporter), 1, 0)
    ensures Dues(v[key := d]) == Dues(v)[key.exporter := due]
  {
    assert FieldSizes(map[]) == map[];
    DuesPut(v, key, d, due);
  }

  lemma OpenBudgets(v: Domains, e: Exporters, b: Budgets, next: Cell, key: DomainKey, d: Domain, due: Budget)
    requires BudgetsNamed(e, b, next) && BudgetsLive(v, e) && BudgetsPay(e, b, Dues(v))
    requires d.budget == if key.exporter in e then e[key.exporter] else next
    requires Dues(v[key := d]) == Dues(v)[key.exporter := due]
    ensures var e', b' := e[key.exporter := d.budget], b[d.budget := due];
            BudgetsNamed(e', b', next + 1) && BudgetsLive(v[key := d], e') && BudgetsPay(e', b', Dues(v[key := d]))
  {
    var a, cell := key.exporter, d.budget;
    BudgetsPayPut(e, b, Dues(v), next, a, cell, due);
    BudgetsNamedPut(e, b, next, a, cell, due, next + 1);
    BudgetsLivePut(v, e, key, d);
  }

  lemma OpenTables(v: Domains, n: TableNames, t: Tables, next: Cell, key: DomainKey, d: Domain)
    requires TablesNamed(n, t, next) && TablesLive(v, n) && TablesOwned(v, n, t) && key !in v
    requires d.declared == if TableOf(key) in n then n[TableOf(key)] else next
    ensures var n' := n[TableOf(key) := d.declared];
            var t' := if TableOf(key) in n then t else t[next := EMPTY_TABLE];
            TablesNamed(n', t', next + 1) && TablesLive(v[key := d], n') && TablesOwned(v[key := d], n', t')
  {
    hide TablesNamed, TablesOwned, TablesLive;
    NextUnused(n, t, next);
    TablesLiveOpen(v, n, key, d);
    TablesOwnedPut(v, n, t, key, d);
    if TableOf(key) in n {
      assert n[TableOf(key) := d.declared] == n;
      TablesNamedLater(n, t, next, next + 1);
    } else {
      TablesNamedOpen(n, t, next, TableOf(key), next, next + 1);
      TablesOwnedNew(v[key := d], n, t, TableOf(key), next);
    }
  }

  lemma OpenStamped(key: DomainKey, d: Domain, now: int)
    requires d.templates == map[] && d.fields == 0 && d.templatesOldest == None && d.lastSeen == now
    ensures Stamped(key, d, now)
  {
    assert FieldSizes(map[]) == map[];
  }

  /** Opening a domain the budgets admit keeps the store sound. */
  lemma OpenKeeps(v: Domains, e: Exporters, b: Budgets, n: TableNames, t: Tables, next: Cell, clock: int,
                  key: DomainKey, d: Domain, due: Budget, now: int)
    requires Sound(v, e, b, n, t, next, clock) && clock <= now && key !in v && Admits(v, key)
    requires d.templates == map[] && d.fields == 0 && d.templatesOldest == None && d.lastSeen == now
    requires d.budget == if key.exporter in e then e[key.exporter] else next
    requires d.declared == if TableOf(key) in n then n[TableOf(key)] else next
    requires due == Charge(DueTo(Dues(v), key.exporter), 1, 0)
    ensures Sound(v[key := d], e[key.exporter := d.budget], b[d.budget := due],
                  n[TableOf(key) := d.declared], if TableOf(key) in n then t else t[next := EMPTY_TABLE],
                  next + 1, now)
  {
    hide Bounded, WithinBounds, AllStamped, BudgetsNamed, BudgetsLive, BudgetsPay, TablesNamed, TablesLive, TablesOwned;
    hide Dues, Counted, WellFormed;
    OpenDues(v, key, d, due);
    OpenBudgets(v, e, b, next, key, d, due);
    AdmittedWithinBounds(v, key);
    BoundedPut(v, key, d, due);
    OpenStamped(key, d, now);
    StampedPut(v, key, d, clock, now);
    OpenTables(v, n, t, next, key, d);
  }

  /** Every table named before is named still, by the same cell, and reads the
      same. */
  ghost predicate TablesKept(n: TableNames, t: Tables, n': TableNames, t': Tables) {
    forall k :: k in n && n[k] in t ==> k in n' && n'[k] == n[k] && n[k] in t' && t'[n[k]] == t[n[k]]
  }

  /** The table is named, and empty where it was not named before. */
  ghost predicate TableOpened(n: TableNames, n': TableNames, t': Tables, k: SamplerKey) {
    k in n' && (k !in n ==> n'[k] in t' && t'[n'[k]] == EMPTY_TABLE)
  }

  lemma NothingChanged(n: TableNames, t: Tables)
    ensures TablesKept(n, t, n, t)
  {
  }

  lemma OpeningKeepsTables(n: TableNames, t: Tables, next: Cell, k: SamplerKey, cell: Cell)
    requires TablesNamed(n, t, next)
    requires cell == if k in n then n[k] else next
    ensures TablesKept(n, t, n[k := cell], if k in n then t else t[next := EMPTY_TABLE])
    ensures TableOpened(n, n[k := cell], if k in n then t else t[next := EMPTY_TABLE], k)
  {
    NextUnused(n, t, next);
  }

  /** A domain as it is opened. */
  function Opened(now: int, budget: Cell, table: Cell): Domain {
    Domain(map[], 0, None, now, 0, Positions(map[], 0), budget, table)
  }

  /** What opening a domain writes, all of it sound. */
  lemma Opens(v: Domains, e: Exporters, b: Budgets, n: TableNames, t: Tables, next: Cell, clock: int,
              key: DomainKey, now: int)
    requires Sound(v, e, b, n, t, next, clock) && clock <= now && key !in v && Admits(v, key)
    ensures key.exporter in e ==> e[key.exporter] in b
    ensures var known := key.exporter in e;
            var budget := if known then e[key.exporter] else next;
            var due := Charge(if known then b[budget] else Budget(0, 0), 1, 0);
            var table := if TableOf(key) in n then n[TableOf(key)] else next;
            var newTables := if TableOf(key) in n then t else t[next := EMPTY_TABLE];
            var d := Opened(now, budget, table);
            && Sound(v[key := d], e[key.exporter := d.budget], b[d.budget := due], n[TableOf(key) := d.declared],
                     newTables, next + 1, now)
            && SeenStep(v, v[key := d], key, now)
            && TablesKept(n, t, n[TableOf(key) := d.declared], newTables)
            && TableOpened(n, n[TableOf(key) := d.declared], newTables, TableOf(key))
  {
    hide Sound, FieldCount, Dues, Admits, TablesKept, TableOpened, TablesNamed, DueTo, Charge, TableOf;
    BudgetReads(v, e, b, n, t, next, clock, key);
    var known := key.exporter in e;
    var budget := if known then e[key.exporter] else next;
    var due := Charge(if known then b[budget] else Budget(0, 0), 1, 0);
    var table := if TableOf(key) in n then n[TableOf(key)] else next;
    OpenKeeps(v, e, b, n, t, next, clock, key, Opened(now, budget, table), due, now);
    SoundTables(v, e, b, n, t, next, clock);
    OpeningKeepsTables(n, t, next, TableOf(key), table);
  }

  lemma SoundTables(v: Domains, e: Exporters, b: Budgets, n: TableNames, t: Tables, next: Cell, clock: int)
    requires Sound(v, e, b, n, t, next, clock)
    ensures TablesNamed(n, t, next)
  {
  }

  lemma LaterClock(v: Domains, e: Exporters, b: Budgets, n: TableNames, t: Tables, next: Cell, clock: int, now: int)
    requires Sound(v, e, b, n, t, next, clock) && clock <= now
    ensures Sound(v, e, b, n, t, next, now)
  {
    hide Bounded, AllStamped, BudgetsNamed, BudgetsLive, BudgetsPay, TablesNamed, TablesLive, TablesOwned, Dues;
    AllStampedLater(v, clock, now);
  }

  lemma AllStampedLater(v: Domains, clock: int, now: int)
    requires AllStamped(v, clock) && clock <= now
    ensures AllStamped(v, now)
  {
    forall key | key in v
      ensures Stamped(key, v[key], now)
    {
      assert Stamped(key, v[key], clock);
    }
  }

  // ---- Announcements -----------------------------------------------------------------

  /** The fields a device owes are what its domains' templates hold, whether a
      domain is merely seen or newly opened. */
  lemma SeenOwesTheSame(v: Domains, key: DomainKey, d: Domain)
    requires d.templates == if key in v then v[key].templates else map[]
    ensures DueTo(Dues(v[key := d]), key.exporter).fields == DueTo(Dues(v), key.exporter).fields
  {
    hide Dues;
    assert FieldSizes(map[]) == map[];
    var due := Charge(DueTo(Dues(v), key.exporter), if key in v then 0 else 1, FieldCount(d.templates) - Holds(v, key));
    DuesPut(v, key, d, due);
  }

  lemma AnnouncedStamped(key: DomainKey, d: Domain, d': Domain, used: int, ref: TemplateRef, t: Template, now: int,
                         ttl: int)
    requires Stamped(key, d, now) && WellFormed(key.proto, t)
    requires Counted(d') && d'.lastSeen == d.lastSeen
    requires d'.templatesOldest.Some? ==> d'.templatesOldest.value <= now
    requires d'.templates == Announced(d.templates, used, ref, t, now, ttl)
    ensures Stamped(key, d', now)
  {
    hide WellFormed, Counted, Announced;
    forall r | r in d'.templates
      ensures d'.templates[r].refreshedAt <= now && WellFormed(key.proto, d'.templates[r].layout)
    {
      AnnouncedFrom(d.templates, used, ref, t, now, ttl, r);
    }
  }

  lemma WithdrawnStamped(key: DomainKey, d: Domain, d': Domain, kept: Shelf, clock: int)
    requires Stamped(key, d, clock) && Within(kept, d.templates)
    requires Counted(d') && d'.lastSeen == d.lastSeen && d'.templates == kept
    requires d'.templatesOldest.Some? ==> d'.templatesOldest.value <= clock
    ensures Stamped(key, d', clock)
  {
    hide WellFormed, Counted;
  }

  lemma DueRead(v: Domains, key: DomainKey)
    requires key.exporter in Dues(v)
    ensures Dues(v)[key.exporter] == DueTo(Dues(v), key.exporter)
  {
  }

  /** add's step on a domain already found, its device's charge read off the
      budget it holds. */
  ghost predicate AnnounceStep(v: Domains, v': Domains, key: DomainKey, cell: Cell, b: Budgets,
                               ref: TemplateRef, t: Template, now: int, ttl: int, ok: bool) {
    && key in v && cell in b && key in v' && v' == v[key := v'[key]]
    && v'[key].templates == Announced(v[key].templates, b[cell].fields, ref, t, now, ttl)
    && ok == Takes(v[key].templates, b[cell].fields, ref, t, now, ttl)
    && OnlyTemplates(v[key], v'[key])
  }

  // ---- Declarations --------------------------------------------------------------------

  lemma TablesNamedPut(n: TableNames, t: Tables, next: Cell, cell: Cell, x: Table)
    requires TablesNamed(n, t, next) && cell in t && x.Valid()
    ensures TablesNamed(n, t[cell := x], next)
  {
  }

  /** Only the key naming a cell sees it rewritten. */
  lemma TablesOwnedRewrite(v: Domains, n: TableNames, t: Tables, next: Cell, k: SamplerKey, x: Table)
    requires TablesNamed(n, t, next) && TablesOwned(v, n, t) && k in n && Owned(k, x.declared, v)
    ensures TablesOwned(v, n, t[n[k] := x])
  {
    hide Owned, Table.Valid;
    var t' := t[n[k] := x];
    forall j | j in n
      ensures n[j] in t' && Owned(j, t'[n[j]].declared, v)
    {
      assert n[j] in t && Owned(j, t[n[j]].declared, v);
      if j != k {
        assert n[j] != n[k];
      }
    }
  }

  /** Rewriting the table a live domain holds keeps the store sound. */
  lemma TablePutKeeps(v: Domains, e: Exporters, b: Budgets, n: TableNames, t: Tables, next: Cell, clock: int,
                      key: DomainKey, x: Table)
    requires Sound(v, e, b, n, t, next, clock) && key in v
    requires x.Valid() && Owned(TableOf(key), x.declared, v)
    ensures v[key].declared in t && Sound(v, e, b, n, t[v[key].declared := x], next, clock)
  {
    hide Bounded, AllStamped, BudgetsNamed, BudgetsLive, BudgetsPay, TablesNamed, TablesLive, TablesOwned, Dues, Owned;
    LiveDomain(v, e, b, n, t, next, clock, key);
    TablesNamedPut(n, t, next, v[key].declared, x);
    TablesOwnedRewrite(v, n, t, next, TableOf(key), x);
  }

  /** A domain's own declaration is stamped with what it was last seen at. */
  lemma DeclaredOwned(v: Domains, key: DomainKey, d: Declarations, id: u32, isNamed: bool, e: Entry)
    requires key in v && Owned(TableOf(key), d, v) && e.lastSeen <= v[key].lastSeen
    ensures Owned(TableOf(key), d.With(key.odid, id, isNamed, e), v)
  {
  }

  lemma ScopedOwned(v: Domains, k: SamplerKey, d: Declarations, d': Declarations)
    requires Owned(k, d, v) && d'.named == d.named && d'.plain == d.plain
    ensures Owned(k, d', v)
  {
  }

  lemma TableOwned(v: Domains, e: Exporters, b: Budgets, n: TableNames, t: Tables, next: Cell, clock: int,
                   key: DomainKey)
    requires Sound(v, e, b, n, t, next, clock) && key in v
    ensures v[key].declared in t && Owned(TableOf(key), t[v[key].declared].declared, v)
  {
    hide Owned, Bounded, AllStamped, WellFormed, BudgetsPay;
    LiveDomain(v, e, b, n, t, next, clock, key);
  }

  // ---- Eviction --------------------------------------------------------------------------

  /** The part of soundness an eviction keeps at every step. */
  ghost predicate Budgeted(v: Domains, e: Exporters, b: Budgets, next: Cell, clock: int) {
    Bounded(v) && AllStamped(v, clock) && BudgetsNamed(e, b, next) && BudgetsLive(v, e) && BudgetsPay(e, b, Dues(v))
  }

  lemma BoundedDrop(v: Domains, key: DomainKey)
    requires Bounded(v) && key in v
    requires key.exporter in Dues(v)
    requires Dues(v - {key}) == DuesWithout(Dues(v), key.exporter, Holds(v, key)) && Holds(v, key) >= 0
    ensures Bounded(v - {key})
  {
    hide Dues, Holds;
    var dues, left := Dues(v), Dues(v - {key});
    assert left.Keys <= dues.Keys;
    SubsetSize(left.Keys, dues.Keys);
    assert |left.Keys| == |left| && |dues.Keys| == |dues|;
  }

  lemma BudgetsPayDrop(e: Exporters, b: Budgets, dues: map<Addr, Budget>, next: Cell, a: Addr, fields: int)
    requires BudgetsNamed(e, b, next) && BudgetsPay(e, b, dues) && a in e && dues[a].domains >= 1
    ensures var due := Charge(b[e[a]], -1, -fields);
            var e', b' := if due.domains <= 0 then e - {a} else e, b[e[a] := due];
            BudgetsPay(e', b', DuesWithout(dues, a, fields)) && BudgetsNamed(e', b', next)
  {
    var due := Charge(b[e[a]], -1, -fields);
    var e', b' := if due.domains <= 0 then e - {a} else e, b[e[a] := due];
    var dues' := DuesWithout(dues, a, fields);
    forall i | i in e'
      ensures e'[i] in b' && i in dues' && b'[e'[i]] == dues'[i]
    {
      if i != a {
        assert e[i] != e[a];
      }
    }
  }

  lemma BudgetsLiveDrop(v: Domains, e: Exporters, b: Budgets, key: DomainKey, e': Exporters)
    requires BudgetsLive(v, e) && key in v
    requires e' == e || (e' == e - {key.exporter} && key.exporter !in Dues(v - {key}))
    ensures BudgetsLive(v - {key}, e')
  {
    var w := v - {key};
    forall k | k in w
      ensures k.exporter in e' && w[k].budget == e'[k.exporter]
    {
      InDevices(w, k);
    }
  }

  /** Evicting one domain returns its slot and its fields, and frees its
      device's budget with the last of them. */
  lemma EvictKeeps(v: Domains, e: Exporters, b: Budgets, next: Cell, clock: int, key: DomainKey)
    requires Budgeted(v, e, b, next, clock) && key in v
    ensures key.exporter in e && v[key].budget == e[key.exporter] && v[key].budget in b
    ensures var due := Charge(b[v[key].budget], -1, -v[key].fields);
            Budgeted(v - {key}, if due.domains <= 0 then e - {key.exporter} else e, b[v[key].budget := due], next,
                clock)
  {
    hide Bounded, Dues, WellFormed, FieldCount;
    DuesDrop(v, key);
    LastHolds(v, key);
    AtLeastOne(v, key);
    assert Stamped(key, v[key], clock);
    assert Holds(v, key) == v[key].fields;
    FieldCountPositive(v[key].templates);
    BoundedDrop(v, key);
    BudgetsPayDrop(e, b, Dues(v), next, key.exporter, v[key].fields);
    var due := Charge(b[v[key].budget], -1, -v[key].fields);
    BudgetsLiveDrop(v, e, b, key, if due.domains <= 0 then e - {key.exporter} else e);
    AllStampedDrop(v, clock, key);
  }

  lemma AtLeastOne(v: Domains, key: DomainKey)
    requires key in v
    ensures key.exporter in Dues(v) && Dues(v)[key.exporter].domains >= 1
  {
    InDevices(v, key);
    var s := DomainsOf(v, key.exporter);
    assert key in s;
  }

  lemma AllStampedDrop(v: Domains, clock: int, key: DomainKey)
    requires AllStamped(v, clock)
    ensures AllStamped(v - {key}, clock)
  {
    forall k | k in v - {key}
      ensures Stamped(k, (v - {key})[k], clock)
    {
      assert Stamped(k, v[k], clock);
    }
  }

  /** Restating rates leaves every device owing what it did. */
  ghost predicate SameShelves(v: Domains, w: Domains) {
    v.Keys == w.Keys && forall key :: key in v ==>
      OnlyTemplates(v[key].(samplingRate := 0), w[key].(samplingRate := 0))
      && w[key].templates == v[key].templates && w[key].fields == v[key].fields
      && w[key].templatesOldest == v[key].templatesOldest
  }

  lemma SameDevices(v: Domains, w: Domains, a: Addr)
    requires SameShelves(v, w)
    ensures DomainsOf(v, a) == DomainsOf(w, a) && DeviceFields(v, a) == DeviceFields(w, a)
  {
    hide FieldCount;
    assert DomainFields(v, a) == DomainFields(w, a);
  }

  lemma SameDues(v: Domains, w: Domains)
    requires SameShelves(v, w)
    ensures Dues(v) == Dues(w)
  {
    hide DeviceFields, FieldCount;
    forall a
      ensures a in Devices(v) <==> a in Devices(w)
    {
      if a in Devices(v) {
        var k :| k in v && k.exporter == a;
        assert k in w;
      }
      if a in Devices(w) {
        var k :| k in w && k.exporter == a;
        assert k in v;
      }
    }
    forall a | a in Devices(v)
      ensures Dues(v)[a] == Dues(w)[a]
    {
      SameDevices(v, w, a);
    }
  }

  lemma RestatedBudgeted(v: Domains, w: Domains, e: Exporters, b: Budgets, next: Cell, clock: int)
    requires Budgeted(v, e, b, next, clock) && SameShelves(v, w)
    ensures Budgeted(w, e, b, next, clock)
  {
    hide Dues, WellFormed, FieldCount;
    SameDues(v, w);
    forall key | key in w
      ensures Stamped(key, w[key], clock)
    {
      assert Stamped(key, v[key], clock);
    }
  }

  /** Every declaration outliving the cutoff belongs to a domain that does. */
  lemma SweptOwned(v: Domains, w: Domains, n: TableNames, t: Tables, n': TableNames, t': Tables, cutoff: int)
    requires TablesOwned(v, n, t) && Expired(n, t, t', cutoff)
    requires forall key :: key in v && v[key].lastSeen >= cutoff ==> key in w && w[key].lastSeen == v[key].lastSeen
    requires forall k :: k in n' ==> k in n && n'[k] == n[k]
    ensures TablesOwned(w, n', t')
  {
    forall k | k in n'
      ensures n'[k] in t' && Owned(k, t'[n'[k]].declared, w)
    {
      assert n[k] in t && Owned(k, t[n[k]].declared, v);
      SweptTable(k, t[n[k]].declared, v, w, cutoff);
    }
  }

  lemma SweptTable(k: SamplerKey, d: Declarations, v: Domains, w: Domains, cutoff: int)
    requires Owned(k, d, v)
    requires forall key :: key in v && v[key].lastSeen >= cutoff ==> key in w && w[key].lastSeen == v[key].lastSeen
    ensures Owned(k, d.Since(cutoff), w)
  {
  }

  /** The tables a sweep leaves: those some live domain still holds. */
  function StillHeld(n: TableNames, held: set<SamplerKey>): TableNames {
    map k | k in n && k in held :: n[k]
  }

  lemma SweptLive(v: Domains, w: Domains, n: TableNames)
    requires TablesLive(v, n)
    requires forall key :: key in w ==> key in v && w[key].declared == v[key].declared
    ensures TablesLive(w, StillHeld(n, TablesOf(w)))
  {
    var n' := StillHeld(n, TablesOf(w));
    forall k
      ensures k in n' <==> k in TablesOf(w)
    {
      if k in TablesOf(w) {
        var key :| key in w && TableOf(key) == k;
        assert key in v;
      }
    }
    forall key | key in w
      ensures TableOf(key) in n' && w[key].declared == n'[TableOf(key)]
    {
      assert key in v && TableOf(key) in TablesOf(w);
    }
  }

  lemma SweptNamed(n: TableNames, t: Tables, next: Cell, held: set<SamplerKey>)
    requires TablesNamed(n, t, next)
    ensures TablesNamed(StillHeld(n, held), t, next)
  {
    hide Table.Valid;
  }

  lemma SoundSplits(v: Domains, e: Exporters, b: Budgets, n: TableNames, t: Tables, next: Cell, clock: int)
    ensures Sound(v, e, b, n, t, next, clock) <==>
              Budgeted(v, e, b, next, clock) && TablesNamed(n, t, next) && TablesLive(v, n) && TablesOwned(v, n, t)
  {
  }

  lemma CellsHeld(v: Domains, w: Domains, n: TableNames, t: Tables, next: Cell)
    requires TablesLive(v, n) && TablesNamed(n, t, next)
    requires forall key :: key in w ==> key in v && w[key].declared == v[key].declared
    ensures forall key :: key in w ==> w[key].declared in t
  {
  }

  /** What one sweep does to the domains: the idle ones gone, the others reading
      what they last declared and the table still holds. */
  ghost predicate EvictStep(v: Domains, v': Domains, t': Tables, cutoff: int) {
    && v' == Restated(LiveSince(v, cutoff), t')
    && forall key :: key in v' ==> v'[key].samplingRate == RateOf(key, v'[key], t')
  }

  lemma RestatedKeeps(v: Domains, t: Tables, cutoff: int)
    ensures var w := Restated(LiveSince(v, cutoff), t);
            && SameShelves(LiveSince(v, cutoff), w)
            && EvictStep(v, w, t, cutoff)
            && (forall key :: key in w ==> key in v && w[key].declared == v[key].declared)
            && (forall key :: key in v && v[key].lastSeen >= cutoff ==> key in w && w[key].lastSeen == v[key].lastSeen)
            && |w| == |LiveSince(v, cutoff)|
  {
    var kept := LiveSince(v, cutoff);
    var w := Restated(kept, t);
    assert w.Keys == kept.Keys;
    assert |w| == |w.Keys| && |kept| == |kept.Keys|;
  }

  /** sweepDomains over all domains: evicted, restated, then pruned one by one. */
  ghost predicate SweepStep(v: Domains, v': Domains, t': Tables, cutoff: int, now: int, ttl: int) {
    exists w: Domains ::
      && EvictStep(v, w, t', cutoff) && v'.Keys == w.Keys
      && forall key :: key in w ==> Pruned(w[key], v'[key], cutoff, now, ttl)
  }

  lemma SameTables(v: Domains, w: Domains)
    requires v.Keys == w.Keys
    ensures TablesOf(v) == TablesOf(w)
  {
  }

  lemma TablesKeptOn(n1: TableNames, t1: Tables, n2: TableNames, t2: Tables, n3: TableNames, t3: Tables)
    requires TablesKept(n1, t1, n2, t2) && TablesKept(n2, t2, n3, t3)
    ensures TablesKept(n1, t1, n3, t3)
  {
  }
}
