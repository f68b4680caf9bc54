/** Big-endian reads from a datagram, and the encoder they invert. */
module Wire {
  import opened Uint

  type Bytes = seq<u8>

  function Be16(s: Bytes, i: nat): u16
    requires i + 2 <= |s|
  {
    var high: int := s[i];
    high * 0x100 + s[i + 1]
  }

  function Be32(s: Bytes, i: nat): u32
    requires i + 4 <= |s|
  {
    var high: int := Be16(s, i);
    high * 0x1_0000 + Be16(s, i + 2)
  }

  function Put16(v: u16): (s: Bytes)
    ensures |s| == 2 && Be16(s, 0) == v
  {
    [v / 0x100, v % 0x100]
  }

  function Put32(v: u32): (s: Bytes)
    ensures |s| == 4 && Be32(s, 0) == v
  {
    Put16(v / 0x1_0000) + Put16(v % 0x1_0000)
  }

  /** piece stands in data at offset. */
  predicate At(data: Bytes, offset: nat, piece: Bytes) {
    offset + |piece| <= |data| && forall i :: 0 <= i < |piece| ==> data[offset + i] == piece[i]
  }

  lemma AtLength(data: Bytes, offset: nat, piece: Bytes)
    requires At(data, offset, piece)
    ensures offset + |piece| <= |data|
  {
  }

  lemma AtSplit(data: Bytes, offset: nat, a: Bytes, b: Bytes)
    requires At(data, offset, a + b)
    ensures At(data, offset, a) && At(data, offset + |a|, b)
  {
    forall i | 0 <= i < |a|
      ensures data[offset + i] == a[i]
    {
      assert (a + b)[i] == a[i];
    }
    forall i | 0 <= i < |b|
      ensures data[offset + |a| + i] == b[i]
    {
      assert (a + b)[|a| + i] == b[i];
    }
  }

  lemma ReadAt16(data: Bytes, offset: nat, v: u16)
    requires At(data, offset, Put16(v))
    ensures Be16(data, offset) == v
  {
    assert data[offset + 0] == Put16(v)[0] && data[offset + 1] == Put16(v)[1];
  }

  lemma ReadAt32(data: Bytes, offset: nat, v: u32)
    requires At(data, offset, Put32(v))
    ensures Be32(data, offset) == v
  {
    AtSplit(data, offset, Put16(v / 0x1_0000), Put16(v % 0x1_0000));
    ReadAt16(data, offset, v / 0x1_0000);
    ReadAt16(data, offset + 2, v % 0x1_0000);
  }

  /** beUint's value; its callers turn away widths outside 1 to 8. */
  function BigEndian(value: Bytes): (v: nat) {
    if value == [] then 0 else BigEndian(value[..|value| - 1]) * 0x100 + value[|value| - 1]
  }

  lemma BigEndianGrows(s: Bytes, b: u8)
    ensures BigEndian(s + [b]) == BigEndian(s) * 0x100 + b
  {
    assert (s + [b])[..|s|] == s;
  }

  lemma TwoBytes(a: u8, b: u8)
    ensures var high: int := a; BigEndian([a, b]) == high * 0x100 + b
  {
    BigEndianGrows([], a);
    BigEndianGrows([a], b);
    assert [] + [a] == [a] && [a] + [b] == [a, b];
  }

  /** Network order: the fixed-width reads are the numbers their bytes spell. */
  lemma ReadsAreBigEndian(s: Bytes, i: nat)
    ensures i + 2 <= |s| ==> Be16(s, i) == BigEndian(s[i..i + 2])
    ensures i + 4 <= |s| ==> Be32(s, i) == BigEndian(s[i..i + 4])
  {
    if i + 2 <= |s| {
      TwoBytes(s[i], s[i + 1]);
      assert s[i..i + 2] == [s[i], s[i + 1]];
    }
    if i + 4 <= |s| {
      var front := [s[i], s[i + 1]];
      BigEndianGrows(front, s[i + 2]);
      BigEndianGrows(front + [s[i + 2]], s[i + 3]);
      assert s[i..i + 4] == front + [s[i + 2]] + [s[i + 3]];
    }
  }

  /** A number written in four bytes, or in two, is the number read. */
  lemma BigEndianReadsBack(v: u32)
    ensures BigEndian(Put32(v)) == v
    ensures v < TWO_16 ==> BigEndian(Put16(v)) == v
  {
    ReadsAreBigEndian(Put32(v), 0);
    assert Put32(v)[0..4] == Put32(v);
    if v < TWO_16 {
      ReadsAreBigEndian(Put16(v), 0);
      assert Put16(v)[0..2] == Put16(v);
    }
  }
}
