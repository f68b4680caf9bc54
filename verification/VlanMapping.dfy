/** Filling a device's VLAN table from the operator's file, whose maps are
    walked in no fixed order. */
module VlanMapping {
  import opened Uint
  import opened Templates
  import opened Net
  import opened VlanTables

  const VLAN_ID_MAX: nat := 4094

  // ---- Spellings -------------------------------------------------------------------

  predicate IsDigit(c: char) {
    '0' <= c <= '9'
  }

  function Digit(c: char): nat
    requires IsDigit(c)
  {
    c as int - '0' as int
  }

  /** mappingNumber: decimal digits, the first of them not a zero. */
  predicate IsNumber(spelling: string) {
    spelling != "" && spelling[0] != '0' && forall i :: 0 <= i < |spelling| ==> IsDigit(spelling[i])
  }

  function Value(spelling: string): nat
    requires forall i :: 0 <= i < |spelling| ==> IsDigit(spelling[i])
  {
    if spelling == "" then 0
    else Value(spelling[..|spelling| - 1]) * 10 + Digit(spelling[|spelling| - 1])
  }

  /** mappingVLANID. */
  function VlanID(spelling: string): (id: Option<u16>)
    ensures id.Some? ==> 1 <= id.value <= VLAN_ID_MAX
  {
    if !IsNumber(spelling) then None
    else
      NumberIsPositive(spelling);
      if Value(spelling) > VLAN_ID_MAX then None else Some(Value(spelling))
  }

  lemma {:induction false} NumberIsPositive(spelling: string)
    requires IsNumber(spelling)
    ensures Value(spelling) >= 1
  {
    if |spelling| > 1 {
      NumberIsPositive(spelling[..|spelling| - 1]);
    }
  }

  /** No two spellings name one number, so the file's own duplicate check on its
      keys is one on VLANs. */
  lemma {:induction false} SpellingIsUnique(a: string, b: string)
    requires IsNumber(a) && IsNumber(b) && Value(a) == Value(b)
    ensures a == b
    decreases |a|
  {
    var m, n := |a| - 1, |b| - 1;
    OneSplit(Value(a[..m]), Digit(a[m]), Value(b[..n]), Digit(b[n]));
    if m > 0 && n > 0 {
      SpellingIsUnique(a[..m], b[..n]);
    } else if m > 0 {
      NumberIsPositive(a[..m]);
    } else if n > 0 {
      NumberIsPositive(b[..n]);
    }
    assert a == a[..m] + [a[m]] && b == b[..n] + [b[n]];
  }

  lemma OneSplit(x: nat, d: nat, y: nat, e: nat)
    requires d < 10 && e < 10 && x * 10 + d == y * 10 + e
    ensures x == y && d == e
  {
  }

  function Decimal(n: nat): string {
    (if n < 10 then "" else Decimal(n / 10)) + [(n % 10 + '0' as int) as char]
  }

  lemma {:induction false} DecimalReads(n: nat)
    requires n >= 1
    ensures IsNumber(Decimal(n)) && Value(Decimal(n)) == n
  {
    var front, last := if n < 10 then "" else Decimal(n / 10), (n % 10 + '0' as int) as char;
    if n >= 10 {
      DecimalReads(n / 10);
    }
    assert Decimal(n) == front + [last];
    assert Decimal(n)[..|front|] == front;
  }

  /** The keys that name a VLAN are the decimal spellings of 1 to 4094. */
  lemma VlanIDExactly(spelling: string, n: u16)
    ensures VlanID(spelling) == Some(n) <==> 1 <= n <= 4094 && spelling == Decimal(n)
  {
    if n >= 1 {
      DecimalReads(n);
      if VlanID(spelling) == Some(n) {
        SpellingIsUnique(spelling, Decimal(n));
      }
    }
  }

  lemma IDIsUnique(a: string, b: string)
    requires VlanID(a).Some?
    ensures VlanID(a) == VlanID(b) ==> a == b
  {
    if VlanID(a) == VlanID(b) {
      SpellingIsUnique(a, b);
    }
  }

  predicate Is4In6(a: Addr) {
    a.family == IPv6 && |a.bits| == 128 && a.bits[..96] == Zeros(80) + seq(16, _ => true)
  }

  /** mappingPrefix, on what the spelling reads as, if it reads as a prefix. */
  function MappingPrefix(read: Option<Prefix>): (p: Option<Prefix>) {
    if read.None? || !Whole(read.value.addr) || read.value.bits > Width(read.value.addr.family) then None
    else if Is4In6(read.value.addr) then None
    else if read.value != Masked(read.value) then None
    else if read.value.bits == 0 then None
    else read
  }

  /** What is accepted is in the form the table is keyed by, and covers no
      address of the other family and not every address of its own. */
  lemma AcceptedPrefixesServe(read: Option<Prefix>)
    requires MappingPrefix(read).Some?
    ensures Proper(read.value) && MappingPrefix(read) == read
    ensures exists a: Addr :: Whole(a) && a.family == read.value.addr.family && !Covers(read.value, a)
  {
    var p := read.value;
    var flipped := Addr(p.addr.family, [!p.addr.bits[0]] + p.addr.bits[1..]);
    assert flipped.bits[..p.bits][0] != p.addr.bits[..p.bits][0];
    assert Whole(flipped) && !Covers(p, flipped);
  }

  /** Some IPv4 address takes this as its 16-byte form. */
  ghost predicate MapsIPv4(a: Addr) {
    exists b: Addr :: b.family == IPv4 && Whole(b) && a == Addr(IPv6, As16(b))
  }

  lemma MappedIsRecognised(a: Addr)
    ensures Is4In6(a) <==> MapsIPv4(a)
  {
    if Is4In6(a) {
      var b := Addr(IPv4, a.bits[96..]);
      assert a.bits == a.bits[..96] + b.bits == As16(b);
      assert Whole(b);
    }
    if MapsIPv4(a) {
      var b: Addr :| b.family == IPv4 && Whole(b) && a == Addr(IPv6, As16(b));
      assert As16(b)[..96] == Zeros(80) + seq(16, _ => true);
    }
  }

  /** Nothing else is turned away: a spelling is accepted exactly where it reads
      as a prefix in the table's form, of positive length, that maps no IPv4. */
  lemma MappingPrefixExactly(read: Option<Prefix>, p: Prefix)
    ensures MappingPrefix(read) == Some(p) <==>
            read == Some(p) && Proper(p) && p.bits > 0 && !MapsIPv4(p.addr)
  {
    if read.Some? {
      MappedIsRecognised(read.value.addr);
    }
  }

  // ---- One VLAN's prefixes -----------------------------------------------------------

  datatype VlanEntry = VlanEntry(name: string, prefixes: seq<Option<Prefix>>)

  ghost predicate Names(written: seq<Option<Prefix>>, p: Prefix) {
    exists i :: 0 <= i < |written| && MappingPrefix(written[i]) == Some(p)
  }

  /** Every spelling is accepted and none is taken, by this list or before it. */
  ghost predicate AllFree(written: seq<Option<Prefix>>, taken: map<Prefix, u16>) {
    && (forall i :: 0 <= i < |written| ==>
         MappingPrefix(written[i]).Some? && MappingPrefix(written[i]).value !in taken)
    && (forall i, j :: 0 <= i < j < |written| ==> MappingPrefix(written[i]) != MappingPrefix(written[j]))
  }

  /** after is before with every prefix written put on one VLAN. */
  ghost predicate PutOn(before: map<Prefix, u16>, after: map<Prefix, u16>, written: seq<Option<Prefix>>, id: u16) {
    forall p :: (p in after <==> p in before || Names(written, p))
                && (p in after ==> after[p] == if Names(written, p) then id else before[p])
  }

  /** addVLANPrefixes. */
  method AddVlanPrefixes(table: VlanTable, id: u16, written: seq<Option<Prefix>>) returns (ok: bool)
    requires table.Valid()
    modifies table
    ensures table.Valid()
    ensures ok <==> written != [] && AllFree(written, old(table.prefixes))
    ensures ok ==> PutOn(old(table.prefixes), table.prefixes, written, id)
  {
    hide Lengths, MappingPrefix, PutOn, AllFree;
    ghost var was := table.prefixes;
    if written == [] {
      return false;
    }
    assert written[..0] == [];
    NothingWritten(was, id);
    for i := 0 to |written|
      invariant table.Valid()
      invariant AllFree(written[..i], was) && PutOn(was, table.prefixes, written[..i], id)
    {
      var read := MappingPrefix(written[i]);
      OneMoreWritten(written, was, i);
      OnePut(was, table.prefixes, written, i, id);
      if read.None? {
        return false;
      }
      AcceptedPrefixesServe(written[i]);
      var added := table.Add(read.value, id);
      if !added {
        return false;
      }
    }
    assert written[..|written|] == written;
    return true;
  }

  lemma NothingWritten(prefixes: map<Prefix, u16>, id: u16)
    ensures AllFree([], prefixes) && PutOn(prefixes, prefixes, [], id)
  {
  }

  lemma OneMoreWritten(written: seq<Option<Prefix>>, taken: map<Prefix, u16>, i: nat)
    requires i < |written| && AllFree(written[..i], taken)
    ensures var p := MappingPrefix(written[i]);
            && (p.None? ==> !AllFree(written, taken))
            && (p.Some? && (p.value in taken || Names(written[..i], p.value)) ==> !AllFree(written, taken))
            && (p.Some? && p.value !in taken && !Names(written[..i], p.value) ==> AllFree(written[..i + 1], taken))
  {
    hide MappingPrefix;
    var p := MappingPrefix(written[i]);
    var more := written[..i + 1];
    assert forall j :: 0 <= j < i ==> more[j] == written[..i][j] == written[j];
    assert more[i] == written[i];
  }

  lemma OnePut(before: map<Prefix, u16>, after: map<Prefix, u16>, written: seq<Option<Prefix>>, i: nat, id: u16)
    requires i < |written| && PutOn(before, after, written[..i], id)
    ensures var p := MappingPrefix(written[i]);
            p.Some? ==>
              && (p.value in after <==> p.value in before || Names(written[..i], p.value))
              && PutOn(before, after[p.value := id], written[..i + 1], id)
  {
    hide MappingPrefix;
    var p := MappingPrefix(written[i]);
    if p.Some? {
      forall q
        ensures Names(written[..i + 1], q) <==> q == p.value || Names(written[..i], q)
      {
        NamesOneMore(written, i, q);
      }
    }
  }

  lemma NamesOneMore(written: seq<Option<Prefix>>, i: nat, q: Prefix)
    requires i < |written|
    ensures Names(written[..i + 1], q) <==> MappingPrefix(written[i]) == Some(q) || Names(written[..i], q)
  {
    hide MappingPrefix;
    var more := written[..i + 1];
    assert more[i] == written[i];
    assert forall j :: 0 <= j < i ==> more[j] == written[..i][j];
  }

  // ---- One device's VLANs --------------------------------------------------------------

  /** The entry stands on its own. */
  ghost predicate Stands(spelling: string, v: VlanEntry, serves: string -> bool) {
    && VlanID(spelling).Some?
    && v.prefixes != [] && AllFree(v.prefixes, map[])
    && (v.name == "" || serves(v.name))
  }

  /** A device's VLANs with no contradiction between them, which no walking
      order has a part in. */
  ghost predicate Consistent(vlans: map<string, VlanEntry>, serves: string -> bool) {
    && (forall k :: k in vlans ==> Stands(k, vlans[k], serves))
    && (forall k, l, p ::
         k in vlans && l in vlans && Names(vlans[k].prefixes, p) && Names(vlans[l].prefixes, p) ==> k == l)
  }

  /** The table says of every prefix what the file says, and no more. */
  ghost predicate Assigns(prefixes: map<Prefix, u16>, vlans: map<string, VlanEntry>) {
    && (forall k, p :: k in vlans && Names(vlans[k].prefixes, p) ==> p in prefixes && VlanID(k) == Some(prefixes[p]))
    && (forall p :: p in prefixes ==> exists k :: k in vlans && Names(vlans[k].prefixes, p))
  }

  /** The names are those the file gives, under the VLANs its keys spell. */
  ghost predicate NamesGiven(names: map<u16, string>, vlans: map<string, VlanEntry>) {
    && (forall k :: k in vlans && vlans[k].name != "" ==>
         VlanID(k).Some? && VlanID(k).value in names && names[VlanID(k).value] == vlans[k].name)
    && (forall id :: id in names ==> exists k :: k in vlans && VlanID(k) == Some(id) && vlans[k].name != "")
  }

  ghost function Seen(vlans: map<string, VlanEntry>, todo: set<string>): map<string, VlanEntry> {
    map k | k in vlans && k !in todo :: vlans[k]
  }

  /** addVLANs. serves is the file's own rule for a name. */
  method AddVlans(vlans: map<string, VlanEntry>, serves: string -> bool)
    returns (ok: bool, table: VlanTable, names: map<u16, string>)
    ensures fresh(table) && table.Valid()
    ensures ok <==> Consistent(vlans, serves)
    ensures ok ==> Assigns(table.prefixes, vlans) && NamesGiven(names, vlans)
  {
    hide Lengths, MappingPrefix, PutOn, AllFree, VlanID, Consistent, Assigns, NamesGiven, Stands;
    table := new VlanTable();
    names := map[];
    var todo := vlans.Keys;
    assert Seen(vlans, todo) == map[];
    NothingAssigned(serves);
    while todo != {}
      invariant table.Valid() && fresh(table) && todo <= vlans.Keys
      invariant Consistent(Seen(vlans, todo), serves)
      invariant Assigns(table.prefixes, Seen(vlans, todo)) && NamesGiven(names, Seen(vlans, todo))
      decreases |todo|
    {
      var spelling :| spelling in todo;
      var v := vlans[spelling];
      ghost var seen, was := Seen(vlans, todo), table.prefixes;
      assert Seen(vlans, todo - {spelling}) == seen[spelling := v];
      OneMoreEntry(vlans, seen, was, spelling, serves);
      var id := VlanID(spelling);
      if id.None? {
        return false, table, names;
      }
      var added := AddVlanPrefixes(table, id.value, v.prefixes);
      if !added {
        return false, table, names;
      }
      OneMoreAssigned(seen, was, table.prefixes, spelling, v);
      OneMoreName(seen, names, spelling, v, serves);
      todo := todo - {spelling};
      if v.name == "" {
        continue;
      }
      if !serves(v.name) {
        return false, table, names;
      }
      names := names[id.value := v.name];
    }
    assert Seen(vlans, todo) == vlans;
    return true, table, names;
  }

  lemma NothingAssigned(serves: string -> bool)
    ensures Consistent(map[], serves) && Assigns(map[], map[]) && NamesGiven(map[], map[])
  {
  }

  /** Whether one more entry keeps the whole consistent is what the walk tests,
      against the table as it stands. */
  lemma OneMoreEntry(vlans: map<string, VlanEntry>, seen: map<string, VlanEntry>, prefixes: map<Prefix, u16>,
                     k: string, serves: string -> bool)
    requires k in vlans && k !in seen && forall l :: l in seen ==> l in vlans && vlans[l] == seen[l]
    requires Consistent(seen, serves) && Assigns(prefixes, seen)
    ensures var v := vlans[k];
            if VlanID(k).Some? && v.prefixes != [] && AllFree(v.prefixes, prefixes) && (v.name == "" || serves(v.name))
            then Consistent(seen[k := v], serves)
            else !Consistent(vlans, serves)
  {
    hide VlanID, AllFree;
    var v := vlans[k];
    FreeOfTaken(v.prefixes, prefixes);
    if Consistent(vlans, serves) {
      EntryMustPass(vlans, seen, prefixes, k, serves);
    }
  }

  lemma EntryMustPass(vlans: map<string, VlanEntry>, seen: map<string, VlanEntry>, prefixes: map<Prefix, u16>,
                      k: string, serves: string -> bool)
    requires k in vlans && k !in seen && forall l :: l in seen ==> l in vlans && vlans[l] == seen[l]
    requires Consistent(vlans, serves) && Assigns(prefixes, seen)
    ensures Stands(k, vlans[k], serves) && AllFree(vlans[k].prefixes, prefixes)
  {
    hide VlanID, AllFree;
    var v := vlans[k];
    FreeOfTaken(v.prefixes, prefixes);
    forall p | Names(v.prefixes, p)
      ensures p !in prefixes
    {
      forall l | l in seen
        ensures !Names(seen[l].prefixes, p)
      {
        assert vlans[l] == seen[l] && l != k;
      }
    }
  }

  lemma FreeOfTaken(written: seq<Option<Prefix>>, taken: map<Prefix, u16>)
    ensures AllFree(written, taken) <==> AllFree(written, map[]) && forall p :: Names(written, p) ==> p !in taken
  {
    hide MappingPrefix;
    if AllFree(written, map[]) && forall p :: Names(written, p) ==> p !in taken {
      forall i | 0 <= i < |written|
        ensures MappingPrefix(written[i]).value !in taken
      {
        assert Names(written, MappingPrefix(written[i]).value);
      }
    }
  }

  lemma OneMoreAssigned(seen: map<string, VlanEntry>, before: map<Prefix, u16>, after: map<Prefix, u16>,
                        k: string, v: VlanEntry)
    requires Assigns(before, seen) && k !in seen && VlanID(k).Some?
    requires AllFree(v.prefixes, before) && PutOn(before, after, v.prefixes, VlanID(k).value)
    ensures Assigns(after, seen[k := v])
  {
    hide VlanID, AllFree;
    FreeOfTaken(v.prefixes, before);
    var more := seen[k := v];
    forall l, p | l in more && Names(more[l].prefixes, p)
      ensures p in after && VlanID(l) == Some(after[p])
    {
      if l != k {
        assert p in before;
      }
    }
    forall p | p in after
      ensures exists l :: l in more && Names(more[l].prefixes, p)
    {
      if Names(v.prefixes, p) {
        assert more[k] == v;
      } else {
        var l :| l in seen && Names(seen[l].prefixes, p);
        assert more[l] == seen[l];
      }
    }
  }

  lemma OneMoreName(seen: map<string, VlanEntry>, names: map<u16, string>, k: string, v: VlanEntry,
                    serves: string -> bool)
    requires NamesGiven(names, seen) && k !in seen && VlanID(k).Some? && Consistent(seen, serves)
    ensures NamesGiven(if v.name == "" then names else names[VlanID(k).value := v.name], seen[k := v])
  {
    hide VlanID, Names;
    var more := seen[k := v];
    forall l | l in seen
      ensures VlanID(l).Some? && VlanID(l) != VlanID(k)
    {
      assert Stands(l, seen[l], serves);
      IDIsUnique(l, k);
    }
    var after := if v.name == "" then names else names[VlanID(k).value := v.name];
    forall id | id in after
      ensures exists l :: l in more && VlanID(l) == Some(id) && more[l].name != ""
    {
      if id in names {
        var l :| l in seen && VlanID(l) == Some(id) && seen[l].name != "";
        assert more[l] == seen[l];
      } else {
        assert more[k] == v;
      }
    }
  }

  /** Whatever order two readings of one file walked it in, every address is put
      on the same VLAN. */
  lemma FileDecidesTheAnswer(vlans: map<string, VlanEntry>, a: map<Prefix, u16>, b: map<Prefix, u16>)
    requires Assigns(a, vlans) && Assigns(b, vlans)
    ensures a == b
  {
    hide VlanID, Names;
    forall p | p in a
      ensures p in b && a[p] == b[p]
    {
      var k :| k in vlans && Names(vlans[k].prefixes, p);
    }
    assert forall p :: p in b ==> p in a;
  }

  /** What a lookup in a filled table says of the file itself: the VLAN of the
      longest prefix any entry lists for the address, and none only where no
      entry lists one. */
  lemma LookupReadsTheFile(vlans: map<string, VlanEntry>, prefixes: map<Prefix, u16>, a: Addr, id: u16, found: bool)
    requires Assigns(prefixes, vlans) && Answers(prefixes, a, id, found)
    ensures found <==> exists k, p :: k in vlans && Names(vlans[k].prefixes, p) && Covers(p, a)
    ensures found ==>
      exists k, p :: k in vlans && Names(vlans[k].prefixes, p) && Covers(p, a) && VlanID(k) == Some(id)
                     && forall l, q :: l in vlans && Names(vlans[l].prefixes, q) && Covers(q, a) ==> q.bits <= p.bits
  {
    hide VlanID, Covers;
    if found {
      var p :| p in prefixes && LongestCover(prefixes, a, p) && prefixes[p] == id;
      var k :| k in vlans && Names(vlans[k].prefixes, p);
      assert VlanID(k) == Some(id);
    }
  }
}
