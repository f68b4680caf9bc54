/** The longest-prefix index that puts an address on a VLAN. */
module VlanTables {
  import opened Uint
  import opened Net

  function Inserted(x: nat, sorted: seq<nat>): seq<nat> {
    if sorted == [] || x <= sorted[0] then [x] + sorted else [sorted[0]] + Inserted(x, sorted[1..])
  }

  function Sorted(xs: seq<nat>): seq<nat> {
    if xs == [] then [] else Inserted(xs[0], Sorted(xs[1..]))
  }

  function Reversed(xs: seq<nat>): seq<nat> {
    if xs == [] then [] else Reversed(xs[1..]) + [xs[0]]
  }

  predicate Distinct(xs: seq<nat>) {
    forall i, j :: 0 <= i < j < |xs| ==> xs[i] != xs[j]
  }

  predicate Ascending(xs: seq<nat>) {
    forall i, j :: 0 <= i < j < |xs| ==> xs[i] < xs[j]
  }

  predicate Descending(xs: seq<nat>) {
    forall i, j :: 0 <= i < j < |xs| ==> xs[i] > xs[j]
  }

  lemma {:induction false} InsertedMembers(x: nat, sorted: seq<nat>, y: nat)
    ensures y in Inserted(x, sorted) <==> y == x || y in sorted
  {
    if sorted != [] && x > sorted[0] {
      InsertedMembers(x, sorted[1..], y);
      assert y in sorted <==> y == sorted[0] || y in sorted[1..];
    }
  }

  lemma {:induction false} InsertedAscends(x: nat, sorted: seq<nat>)
    requires Ascending(sorted) && x !in sorted
    ensures Ascending(Inserted(x, sorted))
  {
    if sorted != [] && x > sorted[0] {
      InsertedAscends(x, sorted[1..]);
      forall i | 0 <= i < |Inserted(x, sorted[1..])|
        ensures sorted[0] < Inserted(x, sorted[1..])[i]
      {
        InsertedMembers(x, sorted[1..], Inserted(x, sorted[1..])[i]);
      }
    }
  }

  lemma {:induction false} SortedMembers(xs: seq<nat>, y: nat)
    ensures y in Sorted(xs) <==> y in xs
  {
    if xs != [] {
      SortedMembers(xs[1..], y);
      InsertedMembers(xs[0], Sorted(xs[1..]), y);
      assert y in xs <==> y == xs[0] || y in xs[1..];
    }
  }

  lemma {:induction false} SortedAscends(xs: seq<nat>)
    requires Distinct(xs)
    ensures Ascending(Sorted(xs))
  {
    if xs != [] {
      SortedAscends(xs[1..]);
      SortedMembers(xs[1..], xs[0]);
      InsertedAscends(xs[0], Sorted(xs[1..]));
    }
  }

  lemma {:induction false} ReversedAt(xs: seq<nat>)
    ensures |Reversed(xs)| == |xs| && forall k :: 0 <= k < |xs| ==> Reversed(xs)[k] == xs[|xs| - 1 - k]
  {
    if xs != [] {
      ReversedAt(xs[1..]);
    }
  }

  /** Sorting and reversing distinct lengths leaves them strictly descending,
      and the same lengths. */
  lemma ReversedSortDescends(xs: seq<nat>)
    requires Distinct(xs)
    ensures Descending(Reversed(Sorted(xs)))
    ensures forall x :: x in Reversed(Sorted(xs)) <==> x in xs
  {
    var sorted := Sorted(xs);
    SortedAscends(xs);
    ReversedAt(sorted);
    forall x
      ensures x in Reversed(sorted) <==> x in xs
    {
      SortedMembers(xs, x);
      if x in sorted {
        var i :| 0 <= i < |sorted| && sorted[i] == x;
        assert Reversed(sorted)[|sorted| - 1 - i] == x;
      }
    }
  }

  // ---- What a lookup means -------------------------------------------------------

  /** The longest prefix that covers an address names its VLAN; where none does
      there is no answer. */
  ghost predicate Answers(prefixes: map<Prefix, u16>, a: Addr, id: u16, found: bool) {
    if found then
      exists p :: p in prefixes && LongestCover(prefixes, a, p) && prefixes[p] == id
    else
      id == 0 && forall p :: p in prefixes ==> !Covers(p, a)
  }

  ghost predicate LongestCover(prefixes: map<Prefix, u16>, a: Addr, p: Prefix) {
    Covers(p, a) && forall q :: q in prefixes && Covers(q, a) ==> q.bits <= p.bits
  }

  ghost predicate AllProper(prefixes: map<Prefix, u16>) {
    forall p :: p in prefixes ==> Proper(p)
  }

  /** A set of prefixes has one answer for every address, so the table's does
      not depend on the order they were added in. */
  lemma AnswerIsUnique(prefixes: map<Prefix, u16>, a: Addr, id: u16, found: bool, id': u16, found': bool)
    requires AllProper(prefixes) && Whole(a)
    requires Answers(prefixes, a, id, found) && Answers(prefixes, a, id', found')
    ensures id == id' && found == found'
  {
    if found && found' {
      var p :| p in prefixes && LongestCover(prefixes, a, p) && prefixes[p] == id;
      var q :| q in prefixes && LongestCover(prefixes, a, q) && prefixes[q] == id';
      CoversByLength(p, q, a);
    }
  }

  /** The lengths of one family's prefixes, longest first, none missing. */
  ghost predicate Lengths(lengths: seq<nat>, prefixes: map<Prefix, u16>, family: Family) {
    && Descending(lengths)
    && (forall p :: p in prefixes && p.addr.family == family ==> p.bits in lengths)
    && (forall i :: 0 <= i < |lengths| ==> HasLength(prefixes, family, lengths[i]))
  }

  ghost predicate HasLength(prefixes: map<Prefix, u16>, family: Family, bits: nat) {
    exists p :: p in prefixes && p.addr.family == family && p.bits == bits
  }

  lemma LengthsGrow(lengths: seq<nat>, prefixes: map<Prefix, u16>, family: Family, p: Prefix, id: u16,
                    lengths': seq<nat>)
    requires Lengths(lengths, prefixes, family) && p !in prefixes
    requires if p.addr.family != family || p.bits in lengths then lengths' == lengths
             else lengths' == Reversed(Sorted(lengths + [p.bits]))
    ensures Lengths(lengths', prefixes[p := id], family)
  {
    var grown := prefixes[p := id];
    assert p in grown;
    if p.addr.family == family && p.bits !in lengths {
      ReversedSortDescends(lengths + [p.bits]);
    }
    forall i | 0 <= i < |lengths'|
      ensures HasLength(grown, family, lengths'[i])
    {
      assert lengths'[i] in lengths';
      if lengths'[i] in lengths {
        var k :| 0 <= k < |lengths| && lengths[k] == lengths'[i];
        assert HasLength(prefixes, family, lengths[k]);
        var q :| q in prefixes && q.addr.family == family && q.bits == lengths[k];
        assert q in grown;
      }
    }
  }

  class VlanTable {
    var lengths4: seq<nat>
    var lengths6: seq<nat>
    var prefixes: map<Prefix, u16>

    ghost predicate Valid()
      reads this
    {
      AllProper(prefixes) && Lengths(lengths4, prefixes, IPv4) && Lengths(lengths6, prefixes, IPv6)
    }

    constructor ()
      ensures Valid() && prefixes == map[]
    {
      lengths4, lengths6, prefixes := [], [], map[];
    }

    /** add. */
    method Add(prefix: Prefix, id: u16) returns (ok: bool)
      requires Valid() && Proper(prefix)
      modifies this
      ensures Valid()
      ensures ok <==> prefix !in old(prefixes)
      ensures prefixes == if ok then old(prefixes)[prefix := id] else old(prefixes)
    {
      hide Lengths, Descending, Proper;
      if prefix in prefixes {
        return false;
      }
      ghost var was := prefixes;
      prefixes := prefixes[prefix := id];
      var lengths := if prefix.addr.family == IPv4 then lengths4 else lengths6;
      if prefix.bits !in lengths {
        lengths := Reversed(Sorted(lengths + [prefix.bits]));
      }
      LengthsGrow(lengths4, was, IPv4, prefix, id, if prefix.addr.family == IPv4 then lengths else lengths4);
      LengthsGrow(lengths6, was, IPv6, prefix, id, if prefix.addr.family == IPv6 then lengths else lengths6);
      if prefix.addr.family == IPv4 {
        lengths4 := lengths;
      } else {
        lengths6 := lengths;
      }
      return true;
    }

    /** lookup: probes by length, longest first, and stops at a hit. */
    method Lookup(addr: Addr) returns (id: u16, found: bool)
      requires Valid() && Whole(addr)
      ensures Answers(prefixes, addr, id, found)
    {
      hide Masked, Covers, Proper;
      var lengths := if addr.family == IPv4 then lengths4 else lengths6;
      for i := 0 to |lengths|
        invariant forall p :: p in prefixes && Covers(p, addr) ==> p.bits !in lengths[..i]
      {
        LengthInRange(prefixes, addr.family, lengths[i]);
        var rounded := Masked(Prefix(addr, lengths[i]));
        ProbeFinds(prefixes, addr, lengths[i]);
        if rounded in prefixes {
          FirstHitIsLongest(prefixes, addr, lengths, i);
          return prefixes[rounded], true;
        }
      }
      NoLengthLeft(prefixes, addr, lengths);
      return 0, false;
    }
  }

  lemma LengthInRange(prefixes: map<Prefix, u16>, family: Family, bits: nat)
    requires AllProper(prefixes) && HasLength(prefixes, family, bits)
    ensures bits <= Width(family)
  {
  }

  /** A probe hits exactly when a prefix of that length covers the address. */
  lemma ProbeFinds(prefixes: map<Prefix, u16>, a: Addr, bits: nat)
    requires AllProper(prefixes) && Whole(a) && bits <= Width(a.family)
    ensures var rounded := Masked(Prefix(a, bits));
            && rounded.bits == bits
            && (rounded in prefixes ==> Covers(rounded, a))
            && (rounded !in prefixes ==> forall p :: p in prefixes && Covers(p, a) ==> p.bits != bits)
  {
    forall p | p in prefixes && Covers(p, a)
      ensures p.bits == bits ==> Masked(Prefix(a, bits)) == p
    {
      if p.bits == bits {
        RoundingFinds(p, a);
      }
    }
    var rounded := Masked(Prefix(a, bits));
    if rounded in prefixes {
      RoundingFinds(rounded, a);
    }
  }

  lemma FirstHitIsLongest(prefixes: map<Prefix, u16>, a: Addr, lengths: seq<nat>, i: nat)
    requires i < |lengths| && Lengths(lengths, prefixes, a.family)
    requires Whole(a) && lengths[i] <= Width(a.family)
    requires var rounded := Masked(Prefix(a, lengths[i])); rounded in prefixes && Covers(rounded, a)
    requires forall p :: p in prefixes && Covers(p, a) ==> p.bits !in lengths[..i]
    ensures LongestCover(prefixes, a, Masked(Prefix(a, lengths[i])))
  {
    forall k | 0 <= k < i
      ensures lengths[k] in lengths[..i]
    {
      assert lengths[..i][k] == lengths[k];
    }
    assert forall q :: q in prefixes && Covers(q, a) ==> q.bits in lengths;
  }

  lemma NoLengthLeft(prefixes: map<Prefix, u16>, a: Addr, lengths: seq<nat>)
    requires Lengths(lengths, prefixes, a.family)
    requires forall p :: p in prefixes && Covers(p, a) ==> p.bits !in lengths[..|lengths|]
    ensures forall p :: p in prefixes ==> !Covers(p, a)
  {
    assert lengths[..|lengths|] == lengths;
  }

  // ---- The enricher ---------------------------------------------------------------

  class FlowSides {
    const src: Addr
    const dst: Addr
    var srcVlan: u16
    var dstVlan: u16

    constructor (src: Addr, dst: Addr)
      ensures this.src == src && this.dst == dst && srcVlan == 0 && dstVlan == 0
    {
      this.src, this.dst, srcVlan, dstVlan := src, dst, 0, 0;
    }
  }

  function PrefixesOf(table: VlanTable?): map<Prefix, u16>
    reads table
  {
    if table == null then map[] else table.prefixes
  }

  class Enricher {
    var filled: u64
    var unknown: u64

    constructor ()
      ensures filled == 0 && unknown == 0
    {
      filled, unknown := 0, 0;
    }

    /** Enrich, with the table the file has for the record's device, if any. A
        side no prefix covers, or with no address, keeps the zero it came with. */
    method Enrich(r: FlowSides, table: VlanTable?)
      requires (table != null ==> table.Valid()) && r.srcVlan == 0 && r.dstVlan == 0
      modifies this, r
      ensures Sided(PrefixesOf(table), r.src, r.srcVlan) && Sided(PrefixesOf(table), r.dst, r.dstVlan)
      ensures if Covered(PrefixesOf(table), r.src) || Covered(PrefixesOf(table), r.dst)
              then filled == Add64(old(filled), 1) && unknown == old(unknown)
              else filled == old(filled) && unknown == Add64(old(unknown), 1)
    {
      hide Proper, Covers;
      if table == null {
        unknown := Add64(unknown, 1);
        return;
      }
      var any := false;
      if Whole(r.src) {
        var id, ok := table.Lookup(r.src);
        if ok {
          r.srcVlan := id;
          any := true;
        }
      }
      if Whole(r.dst) {
        var id, ok := table.Lookup(r.dst);
        if ok {
          r.dstVlan := id;
          any := true;
        }
      }
      if any {
        filled := Add64(filled, 1);
        return;
      }
      unknown := Add64(unknown, 1);
    }
  }

  ghost predicate Covered(prefixes: map<Prefix, u16>, a: Addr) {
    Whole(a) && exists p :: p in prefixes && Covers(p, a)
  }

  ghost predicate Sided(prefixes: map<Prefix, u16>, a: Addr, vlan: u16) {
    if Covered(prefixes, a) then Answers(prefixes, a, vlan, true) else vlan == 0
  }
}
