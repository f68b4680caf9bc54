/** Walking the records of an IPFIX data set (RFC 7011 section 7), whose
    boundaries a variable-length template leaves to the records themselves. */
module IpfixRecords {
  import opened Uint
  import opened Wire
  import opened Templates

  // ---- One value, one record, one set --------------------------------------

  datatype Reading = Short | Reading(value: Bytes, next: nat)

  /** nextFieldValue. */
  function NextFieldValue(f: TemplateField, data: Bytes, offset: nat): Reading {
    if f.length != VARIABLE then
      if offset + f.length > |data| then Short
      else Reading(data[offset..offset + f.length], offset + f.length)
    else if offset >= |data| then Short
    else if data[offset] == 255 then
      if offset + 3 > |data| then Short
      else
        var end := offset + 3 + Be16(data, offset + 1);
        if end > |data| then Short else Reading(data[offset + 3..end], end)
    else
      var end := offset + 1 + data[offset];
      if end > |data| then Short else Reading(data[offset + 1..end], end)
  }

  datatype Walk = Broken | Walked(values: seq<Bytes>, next: nat)

  /** The values of one record's remaining fields, behind those already read. */
  function WalkFields(fields: seq<TemplateField>, data: Bytes, offset: nat, read: seq<Bytes>): Walk {
    if fields == [] then Walked(read, offset)
    else
      match NextFieldValue(fields[0], data, offset)
      case Short => Broken
      case Reading(value, next) => WalkFields(fields[1..], data, next, read + [value])
  }

  lemma {:induction false} WalkAdvances(fields: seq<TemplateField>, data: Bytes, offset: nat, read: seq<Bytes>)
    ensures var w := WalkFields(fields, data, offset, read);
            w.Walked? ==>
              && offset + MinLength(fields) <= w.next
              && (w.next <= |data| || fields == [])
              && |w.values| == |read| + |fields|
  {
    if fields != [] {
      match NextFieldValue(fields[0], data, offset)
      case Short =>
      case Reading(value, next) => WalkAdvances(fields[1..], data, next, read + [value]);
    }
  }

  /** A template whose records both decoders can walk. */
  ghost predicate Walkable(t: Template) {
    t.fields != [] && t.recordLen == MinLength(t.fields) && t.recordLen >= 1 && t.hasVariable == AnyVariable(t.fields)
  }

  /** The records of one set, and whether the walk reached the padding. */
  datatype Decoded = Decoded(records: seq<seq<Bytes>>, whole: bool)

  ghost function RecordsFrom(t: Template, data: Bytes, offset: nat, read: seq<seq<Bytes>>): Decoded
    requires Walkable(t)
    decreases |data| - offset
  {
    if |data| - offset < t.recordLen then Decoded(read, true)
    else
      WalkAdvances(t.fields, data, offset, []);
      match WalkFields(t.fields, data, offset, [])
      case Broken => Decoded(read, false)
      case Walked(values, next) => RecordsFrom(t, data, next, read + [values])
  }

  ghost function Records(t: Template, data: Bytes): Decoded
    requires Walkable(t)
  {
    RecordsFrom(t, data, 0, [])
  }

  /** What the length check asks of a data set: at least one record, and every
      walk ending inside the set. */
  ghost predicate WholeRecords(t: Template, data: Bytes)
    requires Walkable(t)
  {
    Records(t, data).whole && |Records(t, data).records| >= 1
  }

  lemma {:induction false} RecordsGrow(t: Template, data: Bytes, offset: nat, read: seq<seq<Bytes>>)
    requires Walkable(t)
    ensures read <= RecordsFrom(t, data, offset, read).records
    decreases |data| - offset
  {
    if |data| - offset >= t.recordLen {
      WalkAdvances(t.fields, data, offset, []);
      match WalkFields(t.fields, data, offset, [])
      case Broken =>
      case Walked(values, next) =>
        RecordsGrow(t, data, next, read + [values]);
        var all := RecordsFrom(t, data, offset, read).records;
        assert all[..|read| + 1] == read + [values];
        assert all[..|read|] == (read + [values])[..|read|];
    }
  }

  /** A record of fixed fields never runs past a set that holds its length. */
  lemma {:induction false} FixedWalkHolds(fields: seq<TemplateField>, data: Bytes, offset: nat, read: seq<Bytes>)
    requires forall i :: 0 <= i < |fields| ==> fields[i].length != VARIABLE
    requires offset + MinLength(fields) <= |data|
    ensures WalkFields(fields, data, offset, read).Walked?
    ensures WalkFields(fields, data, offset, read).next == offset + MinLength(fields)
  {
    if fields != [] {
      assert fields[0].length != VARIABLE;
      forall i | 0 <= i < |fields[1..]|
        ensures fields[1..][i].length != VARIABLE
      {
        assert fields[1..][i] == fields[i + 1];
      }
      FixedWalkHolds(fields[1..], data, offset + fields[0].length, read + [data[offset..offset + fields[0].length]]);
    }
  }

  lemma {:induction false} FixedRecordsHold(t: Template, data: Bytes, offset: nat, read: seq<seq<Bytes>>)
    requires Walkable(t) && !t.hasVariable
    ensures RecordsFrom(t, data, offset, read).whole
    ensures offset <= |data| ==>
              |RecordsFrom(t, data, offset, read).records| == |read| + (|data| - offset) / t.recordLen
    decreases |data| - offset
  {
    if |data| - offset >= t.recordLen {
      forall i | 0 <= i < |t.fields|
        ensures t.fields[i].length != VARIABLE
      {
      }
      FixedWalkHolds(t.fields, data, offset, []);
      var values := WalkFields(t.fields, data, offset, []).values;
      FixedRecordsHold(t, data, offset + t.recordLen, read + [values]);
      DivStep(|data| - offset, t.recordLen);
    } else if offset <= |data| {
      DivSmall(|data| - offset, t.recordLen);
    }
  }

  lemma DivStep(x: nat, d: nat)
    requires 1 <= d <= x
    ensures x / d == 1 + (x - d) / d
  {
    var q, r := (x - d) / d, (x - d) % d;
    assert x == d * (q + 1) + r;
    QuotientUnique(x, d, q + 1, r);
  }

  lemma DivSmall(x: nat, d: nat)
    requires x < d
    ensures x / d == 0
  {
  }

  lemma QuotientUnique(x: nat, d: nat, q: int, r: int)
    requires d >= 1 && 0 <= r < d && x == d * q + r
    ensures x / d == q
  {
    var q', r' := x / d, x % d;
    if q > q' {
      MultipleAtLeast(d, q, q');
    } else if q < q' {
      MultipleAtLeast(d, q', q);
    }
  }

  lemma MultipleAtLeast(d: int, more: int, less: int)
    requires d >= 1 && more > less
    ensures d * more >= d * less + d
  {
    assert d * more == d * less + d * (more - less);
    var k := more - less;
    assert d * k >= d * 1;
  }

  /** holdsRecords: the shortcut for fixed templates and the walk for variable
      ones both answer whether the set is whole records of the template. */
  method HoldsRecords(t: Template, data: Bytes) returns (holds: bool)
    requires Walkable(t)
    ensures holds <==> WholeRecords(t, data)
  {
    if |data| < t.recordLen {
      return false;
    }
    FirstRecordCounts(t, data);
    if !t.hasVariable {
      FixedRecordsHold(t, data, 0, []);
      return true;
    }
    var offset: nat := 0;
    ghost var read: seq<seq<Bytes>> := [];
    while |data| - offset >= t.recordLen
      invariant offset <= |data|
      invariant RecordsFrom(t, data, offset, read) == Records(t, data)
      decreases |data| - offset
    {
      WalkAdvances(t.fields, data, offset, []);
      ghost var at := offset;
      ghost var values: seq<Bytes> := [];
      for i := 0 to |t.fields|
        invariant WalkFields(t.fields[i..], data, offset, values) == WalkFields(t.fields, data, at, [])
      {
        assert t.fields[i..][0] == t.fields[i] && t.fields[i..][1..] == t.fields[i + 1..];
        match NextFieldValue(t.fields[i], data, offset) {
          case Short =>
            return false;
          case Reading(value, next) =>
            offset, values := next, values + [value];
        }
      }
      read := read + [values];
    }
    return true;
  }

  /** A set as long as a record counts one, or breaks on the first. */
  lemma FirstRecordCounts(t: Template, data: Bytes)
    requires Walkable(t) && |data| >= t.recordLen
    ensures Records(t, data).whole ==> |Records(t, data).records| >= 1
  {
    match WalkFields(t.fields, data, 0, [])
    case Broken =>
    case Walked(values, next) =>
      WalkAdvances(t.fields, data, 0, []);
      RecordsGrow(t, data, next, [] + [values]);
  }

  /** The record loop of decodeIPFIXDataSet with decodeIPFIXRecord's field walk
      inside: nothing behind a failed walk is read. */
  method DecodeRecords(t: Template, data: Bytes) returns (records: seq<seq<Bytes>>, walked: bool)
    requires Walkable(t)
    ensures Decoded(records, walked) == Records(t, data)
  {
    records := [];
    var offset: nat := 0;
    while |data| - offset >= t.recordLen
      invariant offset <= |data|
      invariant RecordsFrom(t, data, offset, records) == Records(t, data)
      decreases |data| - offset
    {
      WalkAdvances(t.fields, data, offset, []);
      ghost var at := offset;
      var values: seq<Bytes> := [];
      for i := 0 to |t.fields|
        invariant WalkFields(t.fields[i..], data, offset, values) == WalkFields(t.fields, data, at, [])
      {
        assert t.fields[i..][0] == t.fields[i] && t.fields[i..][1..] == t.fields[i + 1..];
        match NextFieldValue(t.fields[i], data, offset) {
          case Short =>
            return records, false;
          case Reading(value, next) =>
            offset, values := next, values + [value];
        }
      }
      records := records + [values];
    }
    return records, true;
  }

  // ---- Encoding ------------------------------------------------------------

  /** A value a device can write under one field. */
  predicate Carries(f: TemplateField, value: Bytes) {
    if f.length == VARIABLE then |value| < TWO_16 else |value| == f.length
  }

  function LengthPrefix(f: TemplateField, value: Bytes): Bytes
    requires Carries(f, value)
  {
    if f.length != VARIABLE then []
    else if |value| < 255 then [|value|]
    else [255] + Put16(|value|)
  }

  function PutValue(f: TemplateField, value: Bytes): Bytes
    requires Carries(f, value)
  {
    LengthPrefix(f, value) + value
  }

  lemma ReadPutValue(data: Bytes, offset: nat, f: TemplateField, value: Bytes)
    requires Carries(f, value)
    requires At(data, offset, PutValue(f, value))
    ensures NextFieldValue(f, data, offset) == Reading(value, offset + |PutValue(f, value)|)
  {
    var prefix := LengthPrefix(f, value);
    AtSplit(data, offset, prefix, value);
    var start := offset + |prefix|;
    assert data[start..start + |value|] == value;
    if f.length == VARIABLE {
      if |value| < 255 {
        assert data[offset + 0] == prefix[0];
      } else {
        AtSplit(data, offset, [255], Put16(|value|));
        assert data[offset + 0] == [255][0];
        ReadAt16(data, offset + 1, |value|);
      }
    }
  }

  ghost predicate CarriesAll(fields: seq<TemplateField>, values: seq<Bytes>) {
    |fields| == |values| && forall i :: 0 <= i < |fields| ==> Carries(fields[i], values[i])
  }

  function PutRecord(fields: seq<TemplateField>, values: seq<Bytes>): Bytes
    requires CarriesAll(fields, values)
  {
    if fields == [] then []
    else
      assert Carries(fields[0], values[0]);
      TailCarries(fields, values);
      PutValue(fields[0], values[0]) + PutRecord(fields[1..], values[1..])
  }

  lemma TailCarries(fields: seq<TemplateField>, values: seq<Bytes>)
    requires fields != [] && CarriesAll(fields, values)
    ensures Carries(fields[0], values[0]) && CarriesAll(fields[1..], values[1..])
  {
    forall i | 0 <= i < |fields| - 1
      ensures Carries(fields[1..][i], values[1..][i])
    {
      assert Carries(fields[i + 1], values[i + 1]);
    }
  }

  lemma {:induction false} ReadPutRecord(
    data: Bytes, offset: nat, fields: seq<TemplateField>, values: seq<Bytes>, read: seq<Bytes>)
    requires CarriesAll(fields, values)
    requires At(data, offset, PutRecord(fields, values))
    ensures WalkFields(fields, data, offset, read) == Walked(read + values, offset + |PutRecord(fields, values)|)
    decreases |fields|
  {
    if fields == [] {
      assert read + values == read;
    } else {
      TailCarries(fields, values);
      var first := PutValue(fields[0], values[0]);
      AtSplit(data, offset, first, PutRecord(fields[1..], values[1..]));
      ReadPutValue(data, offset, fields[0], values[0]);
      ReadPutRecord(data, offset + |first|, fields[1..], values[1..], read + [values[0]]);
      assert read + [values[0]] + values[1..] == read + values;
    }
  }

  function PutRecords(fields: seq<TemplateField>, records: seq<seq<Bytes>>): Bytes
    requires forall r :: r in records ==> CarriesAll(fields, r)
  {
    if records == [] then []
    else
      assert records[0] in records;
      PutRecord(fields, records[0]) + PutRecords(fields, records[1..])
  }

  /** Round trip: the records a device writes under a template, padded by less
      than a record as RFC 7011 section 3.3.1 allows, are the records read. */
  lemma DataSetRoundTrip(t: Template, records: seq<seq<Bytes>>, padding: Bytes)
    requires Walkable(t) && |padding| < t.recordLen
    requires forall r :: r in records ==> CarriesAll(t.fields, r)
    ensures Records(t, PutRecords(t.fields, records) + padding) == Decoded(records, true)
    ensures WholeRecords(t, PutRecords(t.fields, records) + padding) <==> records != []
  {
    var data := PutRecords(t.fields, records) + padding;
    forall i | 0 <= i < |PutRecords(t.fields, records)|
      ensures data[0 + i] == PutRecords(t.fields, records)[i]
    {
    }
    ReadPutRecords(t, data, 0, records, []);
    assert [] + records == records;
  }

  lemma {:induction false} ReadPutRecords(
    t: Template, data: Bytes, offset: nat, records: seq<seq<Bytes>>, read: seq<seq<Bytes>>)
    requires Walkable(t)
    requires forall r :: r in records ==> CarriesAll(t.fields, r)
    requires At(data, offset, PutRecords(t.fields, records))
    requires |data| - offset - |PutRecords(t.fields, records)| < t.recordLen
    ensures RecordsFrom(t, data, offset, read) == Decoded(read + records, true)
    decreases |records|
  {
    hide At, PutRecord, WalkFields, CarriesAll, Walkable, RecordsFrom, PutRecords;
    if records == [] {
      RecordsEnd(t, data, offset, records, read);
    } else {
      var r := records[0];
      assert r in records;
      var tail := records[1..];
      assert records == [r] + tail;
      RecordsSplit(t, data, offset, r, tail);
      var next := offset + |PutRecord(t.fields, r)|;
      ReadPutRecord(data, offset, t.fields, r, []);
      assert [] + r == r;
      RecordStep(t, data, offset, r, next, read);
      ReadPutRecords(t, data, next, tail, read + [r]);
      assert read + [r] + tail == read + records;
    }
  }

  lemma RecordsEnd(t: Template, data: Bytes, offset: nat, records: seq<seq<Bytes>>, read: seq<seq<Bytes>>)
    requires Walkable(t) && records == []
    requires |data| - offset - |PutRecords(t.fields, records)| < t.recordLen
    ensures RecordsFrom(t, data, offset, read) == Decoded(read + records, true)
  {
    assert read + records == read;
  }

  lemma RecordStep(t: Template, data: Bytes, offset: nat, values: seq<Bytes>, next: nat, read: seq<seq<Bytes>>)
    requires Walkable(t)
    requires WalkFields(t.fields, data, offset, []) == Walked(values, next)
    ensures offset < next <= |data|
    ensures RecordsFrom(t, data, offset, read) == RecordsFrom(t, data, next, read + [values])
  {
    WalkAdvances(t.fields, data, offset, []);
  }

  lemma RecordsSplit(t: Template, data: Bytes, offset: nat, r: seq<Bytes>, tail: seq<seq<Bytes>>)
    requires forall v :: v in [r] + tail ==> CarriesAll(t.fields, v)
    requires At(data, offset, PutRecords(t.fields, [r] + tail))
    ensures CarriesAll(t.fields, r) && forall v :: v in tail ==> CarriesAll(t.fields, v)
    ensures |PutRecords(t.fields, [r] + tail)| == |PutRecord(t.fields, r)| + |PutRecords(t.fields, tail)|
    ensures At(data, offset, PutRecord(t.fields, r))
    ensures At(data, offset + |PutRecord(t.fields, r)|, PutRecords(t.fields, tail))
  {
    hide CarriesAll, PutRecord, At;
    var all := [r] + tail;
    assert all[0] == r && all[1..] == tail;
    assert r in all;
    forall v | v in tail
      ensures CarriesAll(t.fields, v)
    {
      assert v in all;
    }
    AtSplit(data, offset, PutRecord(t.fields, r), PutRecords(t.fields, tail));
  }
}
