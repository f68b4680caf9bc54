/** What a device declared of its sampling under one protocol, and which rate
    that gives a record. */
module SamplerTables {
  import opened Uint
  import opened Templates
  import opened Net

  const MAX_DECLARATIONS: nat := 256
  /** Names an unsampled cache, unless the device declares a rate for it. */
  const UNSAMPLED: u32 := 0

  datatype SamplerKey = SamplerKey(exporter: Addr, proto: Protocol)
  datatype SamplerRef = SamplerRef(odid: u32, id: u32)
  datatype ScopeKind = ScopeTemplate | ScopeInterface | ScopeDomain
  datatype ScopedRef = ScopedRef(kind: ScopeKind, odid: u32, port: u16, value: u32)
  datatype Entry = Entry(rate: u32, lastSeen: int)

  /** The declarations a table holds. */
  datatype Declarations = Declarations(
    named: map<SamplerRef, Entry>,
    plain: map<u32, Entry>,
    scoped: map<ScopedRef, Entry>)
  {
    function Size(): nat {
      |named| + |plain| + |scoped|
    }

    /** The rates a record no declaration names may be lent: scoped ones are
        lent to nobody. */
    ghost function Rates(): set<u32> {
      RatesOf(named) + RatesOf(plain)
    }

    /** The rates declared for one identifier in any domain of the device. */
    ghost function RatesNamed(id: u32): set<u32> {
      set ref | ref in named && ref.id == id :: named[ref].rate
    }

    ghost predicate Positive() {
      && (forall ref :: ref in named ==> named[ref].rate > 0)
      && (forall odid :: odid in plain ==> plain[odid].rate > 0)
      && (forall ref :: ref in scoped ==> scoped[ref].rate > 0)
    }

    function PlainRate(odid: u32): u32 {
      if odid in plain then plain[odid].rate else 0
    }

    function Holds(odid: u32, id: u32, isNamed: bool): bool {
      if isNamed then SamplerRef(odid, id) in named else odid in plain
    }

    function Held(odid: u32, id: u32, isNamed: bool): u32 {
      if !Holds(odid, id, isNamed) then 0
      else if isNamed then named[SamplerRef(odid, id)].rate
      else plain[odid].rate
    }

    function With(odid: u32, id: u32, isNamed: bool, e: Entry): Declarations {
      if isNamed then Declarations(named[SamplerRef(odid, id) := e], plain, scoped)
      else Declarations(named, plain[odid := e], scoped)
    }

    ghost function Since(cutoff: int): Declarations {
      Declarations(Surviving(named, cutoff), Surviving(plain, cutoff), Surviving(scoped, cutoff))
    }
  }

  ghost function RatesOf<K>(m: map<K, Entry>): set<u32> {
    set k | k in m :: m[k].rate
  }

  function NonZero(rate: u32): set<u32> {
    if rate == 0 then {} else {rate}
  }

  ghost function Surviving<K>(m: map<K, Entry>, cutoff: int): map<K, Entry> {
    map k | k in m && m[k].lastSeen >= cutoff :: m[k]
  }

  /** rate is the one value in rates, or 0 where there is none or more than one. */
  ghost predicate IsSole(rate: u32, rates: set<u32>) {
    if rate != 0 then rates == {rate} else forall r :: rates != {r}
  }

  lemma SoleIsUnique(a: u32, b: u32, rates: set<u32>)
    requires IsSole(a, rates) && IsSole(b, rates)
    ensures a == b
  {
    if a != 0 {
      assert a in rates;
    }
    if b != 0 {
      assert b in rates;
    }
  }

  lemma WithKeeps(d: Declarations, odid: u32, id: u32, isNamed: bool, e: Entry)
    requires d.Positive() && e.rate > 0
    ensures var d' := d.With(odid, id, isNamed, e);
            && d'.Positive()
            && d'.Size() == d.Size() + if d.Holds(odid, id, isNamed) then 0 else 1
  {
    GrowsByOne(d.named, SamplerRef(odid, id), e);
    GrowsByOne(d.plain, odid, e);
  }

  lemma GrowsByOne<K>(m: map<K, Entry>, k: K, e: Entry)
    ensures |m[k := e]| == |m| + if k in m then 0 else 1
  {
    assert m[k := e].Keys == m.Keys + {k};
    assert |m[k := e].Keys| == |m[k := e]| && |m.Keys| == |m|;
  }

  /** A table takes a declaration exactly where holding it leaves the bound
      unbroken. */
  lemma DeclaredExactly(d: Declarations, odid: u32, id: u32, isNamed: bool, e: Entry)
    requires d.Size() <= MAX_DECLARATIONS
    ensures d.Holds(odid, id, isNamed) || d.Size() < MAX_DECLARATIONS <==>
            d.With(odid, id, isNamed, e).Size() <= MAX_DECLARATIONS
  {
    GrowsByOne(d.named, SamplerRef(odid, id), e);
    GrowsByOne(d.plain, odid, e);
  }

  lemma SinceKeeps(d: Declarations, cutoff: int)
    requires d.Positive()
    ensures d.Since(cutoff).Positive() && d.Since(cutoff).Size() <= d.Size()
  {
    SurvivingSize(d.named, cutoff);
    SurvivingSize(d.plain, cutoff);
    SurvivingSize(d.scoped, cutoff);
  }

  lemma SurvivingSize<K>(m: map<K, Entry>, cutoff: int)
    ensures |Surviving(m, cutoff)| <= |m|
  {
    var kept := Surviving(m, cutoff);
    SubsetSize(kept.Keys, m.Keys);
    assert |kept.Keys| == |kept| && |m.Keys| == |m|;
  }

  /** A table as a value: its declarations and what is derived or latched
      beside them. */
  datatype Table = Table(declared: Declarations, hasScoped: bool, inherited: u32, sampled: bool, declaredZero: bool)
  {
    /** The derived fields agree with the declarations, whatever order a map
        walk took. */
    ghost predicate Valid() {
      && declared.Positive()
      && declared.Size() <= MAX_DECLARATIONS
      && IsSole(inherited, declared.Rates())
      && (hasScoped <==> declared.scoped != map[])
    }
  }

  const EMPTY_TABLE: Table := Table(Declarations(map[], map[], map[]), false, 0, false, false)

  class SamplerTable {
    var named: map<SamplerRef, Entry>
    var plain: map<u32, Entry>
    var scoped: map<ScopedRef, Entry>
    var hasScoped: bool
    var inherited: u32
    var sampled: bool
    var declaredZero: bool

    function View(): Declarations
      reads this
    {
      Declarations(named, plain, scoped)
    }

    ghost predicate Valid()
      reads this
    {
      Record().Valid()
    }

    constructor (t: Table)
      ensures Record() == t
    {
      named, plain, scoped := t.declared.named, t.declared.plain, t.declared.scoped;
      hasScoped, inherited, sampled, declaredZero := t.hasScoped, t.inherited, t.sampled, t.declaredZero;
    }

    function Record(): Table
      reads this
    {
      Table(View(), hasScoped, inherited, sampled, declaredZero)
    }

    /** declare: the new entry is in, or nothing at all changed. */
    method Declare(odid: u32, id: u32, isNamed: bool, rate: u32, at: int) returns (ok: bool, changed: bool)
      requires Valid() && rate > 0
      modifies this
      ensures Valid()
      ensures ok <==> old(View()).Holds(odid, id, isNamed) || old(View()).Size() < MAX_DECLARATIONS
      ensures changed <==>
                if isNamed then SamplerRef(odid, id) in old(named) && old(named)[SamplerRef(odid, id)].rate != rate
                else odid in old(plain) && old(plain)[odid].rate != rate
      ensures View() == if ok then old(View()).With(odid, id, isNamed, Entry(rate, at)) else old(View())
      ensures hasScoped == old(hasScoped)
      ensures sampled == (old(sampled) || ok)
      ensures declaredZero == (old(declaredZero) || (ok && isNamed && id == UNSAMPLED))
      ensures !ok ==> inherited == old(inherited)
    {
      hide RatesOf, IsSole;
      ghost var was := View();
      var held := View().Holds(odid, id, isNamed);
      var previous := View().Held(odid, id, isNamed);
      if !held && |named| + |plain| + |scoped| >= MAX_DECLARATIONS {
        return false, false;
      }
      var entry := Entry(rate, at);
      WithKeeps(View(), odid, id, isNamed, entry);
      if isNamed {
        named := named[SamplerRef(odid, id) := entry];
      } else {
        plain := plain[odid := entry];
      }
      assert View() == was.With(odid, id, isNamed, entry);
      inherited := SoleRate(named, plain);
      sampled := true;
      if isNamed && id == UNSAMPLED {
        declaredZero := true;
      }
      return true, held && previous != rate;
    }

    /** declareScoped. */
    method DeclareScoped(ref: ScopedRef, rate: u32, at: int) returns (ok: bool, changed: bool)
      requires Valid() && rate > 0
      modifies this
      ensures Valid()
      ensures ok <==> ref in old(scoped) || old(View()).Size() < MAX_DECLARATIONS
      ensures changed <==> ref in old(scoped) && old(scoped)[ref].rate != rate
      ensures named == old(named) && plain == old(plain) && inherited == old(inherited)
      ensures declaredZero == old(declaredZero)
      ensures !ok ==> Record() == old(Record())
      ensures ok ==> scoped == old(scoped)[ref := Entry(rate, at)] && sampled
    {
      hide RatesOf, IsSole;
      var held := ref in scoped;
      var previous := if held then scoped[ref].rate else 0;
      if !held && |named| + |plain| + |scoped| >= MAX_DECLARATIONS {
        return false, false;
      }
      GrowsByOne(scoped, ref, Entry(rate, at));
      scoped := scoped[ref := Entry(rate, at)];
      hasScoped, sampled := true, true;
      assert ref in scoped;
      return true, held && previous != rate;
    }

    /** expire: exactly the declarations announced since the cutoff stay. */
    method Expire(cutoff: int)
      requires Valid()
      modifies this
      ensures Valid()
      ensures View() == old(View()).Since(cutoff)
      ensures sampled == old(sampled) && declaredZero == old(declaredZero)
    {
      hide RatesOf, IsSole, Surviving;
      SinceKeeps(View(), cutoff);
      ghost var left := View().Since(cutoff);
      var scopedLeft := DropStale(scoped, cutoff);
      var namedLeft := DropStale(named, cutoff);
      var plainLeft := DropStale(plain, cutoff);
      assert left == Declarations(namedLeft, plainLeft, scopedLeft);
      var sole := SoleRate(namedLeft, plainLeft);
      scoped, hasScoped := scopedLeft, scopedLeft != map[];
      named, plain, inherited := namedLeft, plainLeft, sole;
      assert View() == left;
    }

    /** scopedRate. */
    method ScopedRate(ref: ScopedRef) returns (rate: u32, held: bool)
      requires Valid()
      ensures (rate, held) == if ref in scoped then (scoped[ref].rate, true) else (0, false)
    {
      if !hasScoped {
        return 0, false;
      }
      if ref !in scoped {
        return 0, false;
      }
      return scoped[ref].rate, true;
    }

    /** declaredRate: the record's own domain answers; then, for an identifier
        that is the device's, the one rate its domains agree on. */
    method DeclaredRate(odid: u32, id: u32, deviceWide: bool) returns (rate: u32, decided: bool)
      requires Valid()
      ensures var own := SamplerRef(odid, id);
              if own in named then (rate, decided) == (named[own].rate, true)
              else if !deviceWide || View().RatesNamed(id) == {} then (rate, decided) == (0, false)
              else decided && IsSole(rate, View().RatesNamed(id))
    {
      var own := SamplerRef(odid, id);
      if own in named {
        return named[own].rate, true;
      }
      if !deviceWide {
        return 0, false;
      }
      rate, decided := SoleNamed(named, id);
    }
  }

  /** declaredRate's loop over the identifiers of every domain, stopping at the
      first rate that differs from the one already held. */
  method SoleNamed(named: map<SamplerRef, Entry>, id: u32) returns (sole: u32, found: bool)
    requires forall k :: k in named ==> named[k].rate > 0
    ensures var rates := Declarations(named, map[], map[]).RatesNamed(id);
            IsSole(sole, rates) && (found <==> rates != {})
  {
    ghost var rates := Declarations(named, map[], map[]).RatesNamed(id);
    sole := 0;
    var todo := named.Keys;
    while todo != {}
      invariant todo <= named.Keys
      invariant forall k :: k in named && k !in todo && k.id == id ==> named[k].rate == sole
      invariant sole != 0 ==> sole in rates
      decreases |todo|
    {
      var k :| k in todo;
      todo := todo - {k};
      if k.id != id {
        continue;
      }
      assert named[k].rate in rates;
      if sole != 0 && named[k].rate != sole {
        Disagree(sole, named[k].rate, rates);
        return 0, true;
      }
      sole := named[k].rate;
    }
    return sole, sole != 0;
  }

  lemma Disagree(a: u32, b: u32, rates: set<u32>)
    requires a != b && a in rates && b in rates
    ensures IsSole(0, rates)
  {
  }

  /** soleRateLocked: one walk over each map, in any order. */
  method SoleRate(named: map<SamplerRef, Entry>, plain: map<u32, Entry>) returns (sole: u32)
    requires forall k :: k in named ==> named[k].rate > 0
    requires forall k :: k in plain ==> plain[k].rate > 0
    ensures IsSole(sole, RatesOf(named) + RatesOf(plain))
  {
    var agreed: bool;
    sole, agreed := SoleOver(named, 0);
    if agreed {
      sole, agreed := SoleOver(plain, sole);
    }
    if !agreed {
      return 0;
    }
    assert NonZero(sole) == RatesOf(named) + RatesOf(plain);
  }

  /** One of soleRateLocked's two loops, stopping at the first rate that
      differs from the one already held. */
  method SoleOver<K>(m: map<K, Entry>, start: u32) returns (sole: u32, agreed: bool)
    requires forall k :: k in m ==> m[k].rate > 0
    ensures agreed ==> NonZero(sole) == NonZero(start) + RatesOf(m)
    ensures !agreed ==> exists a, b :: a != b && a in NonZero(start) + RatesOf(m) && b in NonZero(start) + RatesOf(m)
  {
    sole := start;
    var todo := m.Keys;
    while todo != {}
      invariant todo <= m.Keys
      invariant forall k :: k in m && k !in todo ==> m[k].rate == sole
      invariant start != 0 ==> sole == start
      invariant sole != 0 ==> sole in NonZero(start) + RatesOf(m)
      invariant sole == 0 ==> todo == m.Keys
      decreases |todo|
    {
      var k :| k in todo;
      assert m[k].rate in RatesOf(m);
      if sole != 0 && m[k].rate != sole {
        return sole, false;
      }
      sole, todo := m[k].rate, todo - {k};
    }
    return sole, true;
  }

  /** The deletion loop expire runs over each of its maps. */
  method DropStale<K>(m: map<K, Entry>, cutoff: int) returns (kept: map<K, Entry>)
    ensures kept == Surviving(m, cutoff)
  {
    kept := m;
    var todo := m.Keys;
    while todo != {}
      invariant todo <= m.Keys
      invariant forall k :: k in kept <==> k in m && (k in todo || m[k].lastSeen >= cutoff)
      invariant forall k :: k in kept ==> kept[k] == m[k]
      decreases |todo|
    {
      var k :| k in todo;
      if m[k].lastSeen < cutoff {
        kept := kept - {k};
      }
      todo := todo - {k};
    }
  }

  lemma {:induction false} SubsetSize<T>(a: set<T>, b: set<T>)
    requires a <= b
    ensures |a| <= |b|
    decreases |a|
  {
    if a != {} {
      var x :| x in a;
      SubsetSize(a - {x}, b - {x});
    }
  }
}
