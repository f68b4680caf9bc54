/** Reading NetFlow v9 template and options template flowsets (RFC 3954
    sections 5.2 and 6.1), and where their walk stops trusting the framing. */
module V9Templates {
  import opened Uint
  import opened Wire
  import opened Templates

  const SPEC: nat := 4

  /** One announcement's head. An options template gives its two sections in
      bytes; a plain one counts fields, held here as the bytes they take. */
  datatype Head = Head(id: u16, scopeBytes: nat, optionBytes: nat, body: nat)
  {
    predicate Whole() {
      scopeBytes % SPEC == 0 && optionBytes % SPEC == 0 && FieldCount() >= 1
    }

    function FieldCount(): nat {
      scopeBytes / SPEC + optionBytes / SPEC
    }

    /** The offset past its specifiers. */
    function Next(): nat {
      body + FieldCount() * SPEC
    }
  }

  function HeadLength(options: bool): nat {
    if options then 6 else 4
  }

  function HeadAt(data: Bytes, offset: nat, options: bool): Head
    requires offset + HeadLength(options) <= |data|
  {
    if options then Head(Be16(data, offset), Be16(data, offset + 2), Be16(data, offset + 4), offset + 6)
    else Head(Be16(data, offset), 0, Be16(data, offset + 2) * SPEC, offset + 4)
  }

  /** Every head the walk meets. One that is not whole ends it. */
  function HeadsOf(data: Bytes, offset: nat, options: bool): seq<Head>
    decreases |data| - offset
  {
    if offset + HeadLength(options) > |data| then []
    else
      var h := HeadAt(data, offset, options);
      if h.Whole() then [h] + HeadsOf(data, h.Next(), options) else [h]
  }

  function FieldAt(data: Bytes, offset: nat): TemplateField
    requires offset + SPEC <= |data|
  {
    TemplateField(Be16(data, offset), Be16(data, offset + 2), 0)
  }

  function FieldsAt(data: Bytes, offset: nat, count: nat): (fields: seq<TemplateField>)
    requires offset + count * SPEC <= |data|
    ensures |fields| == count
  {
    seq(count, i requires 0 <= i < count => FieldAt(data, offset + i * SPEC))
  }

  /** A zero width is read as a bare scope and nowhere else. */
  predicate WidthsServe(fields: seq<TemplateField>, scopes: nat) {
    forall i :: scopes <= i < |fields| ==> fields[i].length != 0
  }

  /** What one head compiles to, judged by nothing but its own bytes. */
  function Layout(data: Bytes, h: Head, options: bool, maxFields: nat): Option<Template> {
    if !h.Whole() || h.id < MIN_DATA_SET || h.FieldCount() > maxFields || h.Next() > |data| then None
    else
      var fields := FieldsAt(data, h.body, h.FieldCount());
      var scopes := h.scopeBytes / SPEC;
      if !WidthsServe(fields, scopes) then None
      else Some(Template(fields, FixedLength(fields), false, if options then scopes else 0, options))
  }

  function Announce(data: Bytes, heads: seq<Head>, options: bool, maxFields: nat): (out: seq<Announcement>)
    ensures |out| == |heads|
  {
    seq(|heads|, i requires 0 <= i < |heads| =>
      Announcement(heads[i].id, Layout(data, heads[i], options, maxFields)))
  }

  /** Everything one template flowset announces, in wire order. */
  function Announced(data: Bytes, options: bool, maxFields: nat): seq<Announcement> {
    Announce(data, HeadsOf(data, 0, options), options, maxFields)
  }

  lemma AnnounceAppend(data: Bytes, heads: seq<Head>, h: Head, options: bool, maxFields: nat)
    ensures Announce(data, heads + [h], options, maxFields) ==
            Announce(data, heads, options, maxFields) + [Announcement(h.id, Layout(data, h, options, maxFields))]
  {
  }

  lemma NoAnnouncements(data: Bytes, options: bool, maxFields: nat)
    ensures Announce(data, [], options, maxFields) == []
  {
  }

  /** The specifier loop both parsers run, refusing a zero width outside the
      leading scopes. */
  method ReadFields(data: Bytes, offset: nat, fieldCount: nat, scopes: nat)
    returns (fields: seq<TemplateField>, ok: bool)
    requires offset + fieldCount * SPEC <= |data|
    ensures ok <==> WidthsServe(FieldsAt(data, offset, fieldCount), scopes)
    ensures ok ==> fields == FieldsAt(data, offset, fieldCount)
  {
    ghost var all := FieldsAt(data, offset, fieldCount);
    fields := [];
    for i := 0 to fieldCount
      invariant fields == all[..i]
      invariant WidthsServe(all[..i], scopes)
    {
      var field := FieldAt(data, offset + i * SPEC);
      assert field == all[i];
      if field.length == 0 && i >= scopes {
        return fields, false;
      }
      fields := fields + [field];
    }
    return fields, true;
  }

  /** fixedRecordLen. */
  method FixedRecordLen(fields: seq<TemplateField>) returns (recordLen: nat)
    ensures recordLen == FixedLength(fields)
  {
    recordLen := 0;
    for i := 0 to |fields|
      invariant recordLen == FixedLength(fields[..i])
    {
      assert fields[..i + 1] == fields[..i] + [fields[i]];
      FixedLengthAppend(fields[..i], fields[i]);
      recordLen := recordLen + fields[i].length;
    }
    assert fields[..|fields|] == fields;
  }

  /** parseV9Templates with parseV9FieldSpecs inlined into its walk. */
  method ParseV9Templates(data: Bytes, maxFields: nat) returns (out: seq<Announcement>)
    ensures out == Announced(data, false, maxFields)
  {
    hide Announce, FieldsAt, FixedLength, WidthsServe, Be16;
    out := [];
    NoAnnouncements(data, false, maxFields);
    var offset: nat := 0;
    ghost var heads := [];
    while offset + SET_HEADER <= |data|
      invariant heads + HeadsOf(data, offset, false) == HeadsOf(data, 0, false)
      invariant out == Announce(data, heads, false, maxFields)
      decreases |data| - offset
    {
      var templateID := Be16(data, offset);
      var fieldCount: nat := Be16(data, offset + 2);
      ghost var h := HeadAt(data, offset, false);
      assert h.FieldCount() == fieldCount && h.scopeBytes / SPEC == 0;
      AnnounceAppend(data, heads, h, false, maxFields);
      assert forall rest :: heads + ([h] + rest) == heads + [h] + rest;
      heads := heads + [h];
      offset := offset + SET_HEADER;

      if fieldCount < 1 {
        out := out + [Announcement(templateID, None)];
        offset := |data|;
        assert heads + [] == heads;
        continue;
      }
      var next := offset + fieldCount * SPEC;
      if templateID < MIN_DATA_SET || fieldCount > maxFields || next > |data| {
        out := out + [Announcement(templateID, None)];
      } else {
        var fields, ok := ReadFields(data, offset, fieldCount, 0);
        if ok {
          var recordLen := FixedRecordLen(fields);
          out := out + [Announcement(templateID, Some(Template(fields, recordLen, false, 0, false)))];
        } else {
          out := out + [Announcement(templateID, None)];
        }
      }
      offset := next;
    }
    assert heads + [] == heads;
  }

  /** parseV9OptionsTemplates. */
  method ParseV9OptionsTemplates(data: Bytes, maxFields: nat) returns (out: seq<Announcement>)
    ensures out == Announced(data, true, maxFields)
  {
    hide Announce, FieldsAt, FixedLength, WidthsServe, Be16;
    out := [];
    NoAnnouncements(data, true, maxFields);
    var offset: nat := 0;
    ghost var heads := [];
    while offset + 6 <= |data|
      invariant heads + HeadsOf(data, offset, true) == HeadsOf(data, 0, true)
      invariant out == Announce(data, heads, true, maxFields)
      decreases |data| - offset
    {
      var templateID := Be16(data, offset);
      var scopeBytes: nat := Be16(data, offset + 2);
      var optionBytes: nat := Be16(data, offset + 4);
      ghost var h := HeadAt(data, offset, true);
      AnnounceAppend(data, heads, h, true, maxFields);
      assert forall rest :: heads + ([h] + rest) == heads + [h] + rest;
      heads := heads + [h];
      offset := offset + 6;

      var scopeCount := scopeBytes / SPEC;
      var fieldCount := scopeCount + optionBytes / SPEC;
      if scopeBytes % SPEC != 0 || optionBytes % SPEC != 0 || fieldCount < 1 {
        out := out + [Announcement(templateID, None)];
        return;
      }
      var next := offset + fieldCount * SPEC;
      if templateID < MIN_DATA_SET || fieldCount > maxFields || next > |data| {
        out := out + [Announcement(templateID, None)];
        offset := next;
        continue;
      }
      var fields, ok := ReadFields(data, offset, fieldCount, scopeCount);
      if ok {
        var recordLen := FixedRecordLen(fields);
        out := out + [Announcement(templateID, Some(Template(fields, recordLen, false, scopeCount, true)))];
      } else {
        out := out + [Announcement(templateID, None)];
      }
      offset := next;
    }
    assert heads + [] == heads;
  }

  /** Framing does not depend on acceptance: limits change which announcements
      compile, never where the next one is read. */
  lemma AnnouncementsIgnoreLimits(data: Bytes, options: bool, max1: nat, max2: nat)
    ensures var a, b := Announced(data, options, max1), Announced(data, options, max2);
            && |a| == |b|
            && forall i :: 0 <= i < |a| ==>
                 && a[i].id == b[i].id
                 && (a[i].layout.Some? && b[i].layout.Some? ==> a[i].layout == b[i].layout)
  {
    var heads := HeadsOf(data, 0, options);
    forall i | 0 <= i < |heads|
      ensures var a, b := Announced(data, options, max1)[i], Announced(data, options, max2)[i];
              a.id == b.id && (a.layout.Some? && b.layout.Some? ==> a.layout == b.layout)
    {
      assert Announced(data, options, max1)[i].layout == Layout(data, heads[i], options, max1);
    }
  }

  /** The heads follow one another from offset on, each where the one before
      ends its specifiers, and only the last may be broken or leave no room for
      another. */
  ghost predicate Chained(heads: seq<Head>, offset: nat, room: nat, headLength: nat) {
    if heads == [] then offset + headLength > room
    else
      && heads[0].body == offset + headLength <= room
      && (heads[0].Whole() ==> Chained(heads[1..], heads[0].Next(), room, headLength))
      && (!heads[0].Whole() ==> |heads| == 1)
  }

  /** The walk steps from each head to the end of its specifiers, and before
      the flowset is exhausted stops only at a head that declares no field or
      splits a specifier. */
  lemma {:induction false} WalkStopsOnlyAtBreaks(data: Bytes, offset: nat, options: bool)
    ensures Chained(HeadsOf(data, offset, options), offset, |data|, HeadLength(options))
    decreases |data| - offset
  {
    hide Be16;
    if offset + HeadLength(options) <= |data| {
      var h := HeadAt(data, offset, options);
      if h.Whole() {
        WalkStopsOnlyAtBreaks(data, h.Next(), options);
        var rest := HeadsOf(data, h.Next(), options);
        assert ([h] + rest)[1..] == rest;
      }
    }
  }

  /** Whatever is announced with a layout has the shape the store demands. */
  lemma AnnouncedCompile(data: Bytes, options: bool, maxFields: nat, i: nat)
    requires i < |Announced(data, options, maxFields)|
    ensures var a := Announced(data, options, maxFields)[i];
            a.layout.Some? ==>
              && a.id >= MIN_DATA_SET
              && |a.layout.value.fields| <= maxFields
              && Compiled(NetFlowV9, a.layout.value)
  {
    PlainHeadsHaveNoScopes(data, 0, i, options);
  }

  lemma {:induction false} PlainHeadsHaveNoScopes(data: Bytes, offset: nat, i: nat, options: bool)
    requires i < |HeadsOf(data, offset, options)|
    ensures !options ==> HeadsOf(data, offset, options)[i].scopeBytes == 0
    decreases |data| - offset
  {
    if i > 0 {
      PlainHeadsHaveNoScopes(data, HeadAt(data, offset, options).Next(), i - 1, options);
    }
  }

  // ---- Encoding ------------------------------------------------------------------

  function PutField(f: TemplateField): (s: Bytes)
    ensures |s| == SPEC
  {
    Put16(f.fieldType) + Put16(f.length)
  }

  function PutFields(fields: seq<TemplateField>): (s: Bytes)
    ensures |s| == |fields| * SPEC
  {
    if fields == [] then [] else PutField(fields[0]) + PutFields(fields[1..])
  }

  ghost predicate Announceable(w: Wanted, options: bool, maxFields: nat) {
    && w.id >= MIN_DATA_SET
    && 1 <= |w.fields| <= maxFields && |w.fields| * SPEC < TWO_16
    && w.scopes <= |w.fields| && (!options ==> w.scopes == 0)
    && WidthsServe(w.fields, w.scopes)
    && forall i :: 0 <= i < |w.fields| ==> w.fields[i].enterprise == 0
  }

  function PutHead(w: Wanted, options: bool): (s: Bytes)
    requires w.scopes <= |w.fields| && |w.fields| * SPEC < TWO_16
    ensures |s| == HeadLength(options)
  {
    if options then Put16(w.id) + Put16(w.scopes * SPEC) + Put16((|w.fields| - w.scopes) * SPEC)
    else Put16(w.id) + Put16(|w.fields|)
  }

  function PutTemplate(w: Wanted, options: bool): Bytes
    requires w.scopes <= |w.fields| && |w.fields| * SPEC < TWO_16
  {
    PutHead(w, options) + PutFields(w.fields)
  }

  function PutTemplates(wanted: seq<Wanted>, options: bool, maxFields: nat): Bytes
    requires forall w :: w in wanted ==> Announceable(w, options, maxFields)
  {
    if wanted == [] then []
    else
      var w := wanted[0];
      assert w in wanted && Announceable(w, options, maxFields);
      PutTemplate(w, options) + PutTemplates(wanted[1..], options, maxFields)
  }

  function Wanting(w: Wanted, options: bool): Announcement {
    Announcement(w.id, Some(Template(w.fields, FixedLength(w.fields), false, w.scopes, options)))
  }

  function AsAnnouncements(wanted: seq<Wanted>, options: bool): seq<Announcement> {
    if wanted == [] then [] else [Wanting(wanted[0], options)] + AsAnnouncements(wanted[1..], options)
  }

  lemma ReadPutField(data: Bytes, offset: nat, f: TemplateField)
    requires f.enterprise == 0 && At(data, offset, PutField(f))
    ensures offset + SPEC <= |data| && FieldAt(data, offset) == f
  {
    AtSplit(data, offset, Put16(f.fieldType), Put16(f.length));
    ReadAt16(data, offset, f.fieldType);
    ReadAt16(data, offset + 2, f.length);
  }

  lemma {:induction false} ReadPutFields(data: Bytes, offset: nat, fields: seq<TemplateField>, i: nat)
    requires At(data, offset, PutFields(fields)) && i < |fields|
    requires forall j :: 0 <= j < |fields| ==> fields[j].enterprise == 0
    ensures offset + i * SPEC + SPEC <= |data| && FieldAt(data, offset + i * SPEC) == fields[i]
    decreases i
  {
    AtSplit(data, offset, PutField(fields[0]), PutFields(fields[1..]));
    if i == 0 {
      ReadPutField(data, offset, fields[0]);
    } else {
      ReadPutFields(data, offset + SPEC, fields[1..], i - 1);
    }
  }

  lemma FieldsReadBack(data: Bytes, offset: nat, fields: seq<TemplateField>)
    requires At(data, offset, PutFields(fields))
    requires forall j :: 0 <= j < |fields| ==> fields[j].enterprise == 0
    ensures offset + |fields| * SPEC <= |data| && FieldsAt(data, offset, |fields|) == fields
  {
    hide At, FieldAt, PutFields;
    AtLength(data, offset, PutFields(fields));
    forall i | 0 <= i < |fields|
      ensures FieldAt(data, offset + i * SPEC) == fields[i]
    {
      ReadPutFields(data, offset, fields, i);
    }
  }

  lemma HeadReadsBack(data: Bytes, offset: nat, w: Wanted, options: bool)
    requires w.scopes <= |w.fields| && |w.fields| * SPEC < TWO_16 && (!options ==> w.scopes == 0)
    requires At(data, offset, PutHead(w, options))
    ensures offset + HeadLength(options) <= |data|
    ensures var h := HeadAt(data, offset, options);
            && h.id == w.id && h.body == offset + HeadLength(options)
            && h.scopeBytes == w.scopes * SPEC && h.optionBytes == (|w.fields| - w.scopes) * SPEC
  {
    hide At, Be16;
    AtLength(data, offset, PutHead(w, options));
    if options {
      var start := Put16(w.id) + Put16(w.scopes * SPEC);
      AtSplit(data, offset, start, Put16((|w.fields| - w.scopes) * SPEC));
      AtSplit(data, offset, Put16(w.id), Put16(w.scopes * SPEC));
      ReadAt16(data, offset + 2, w.scopes * SPEC);
      ReadAt16(data, offset + 4, (|w.fields| - w.scopes) * SPEC);
    } else {
      AtSplit(data, offset, Put16(w.id), Put16(|w.fields|));
      ReadAt16(data, offset + 2, |w.fields|);
    }
    ReadAt16(data, offset, w.id);
  }

  lemma TemplateReadsBack(data: Bytes, offset: nat, w: Wanted, options: bool, maxFields: nat)
    requires Announceable(w, options, maxFields) && At(data, offset, PutTemplate(w, options))
    ensures offset + HeadLength(options) <= |data|
    ensures var h := HeadAt(data, offset, options);
            && h.Whole() && h.Next() == offset + |PutTemplate(w, options)|
            && Announcement(h.id, Layout(data, h, options, maxFields)) == Wanting(w, options)
  {
    hide At, Be16, FieldsAt, FixedLength, WidthsServe, PutHead, PutFields;
    AtSplit(data, offset, PutHead(w, options), PutFields(w.fields));
    HeadReadsBack(data, offset, w, options);
    FieldsReadBack(data, offset + HeadLength(options), w.fields);
  }

  lemma TemplatesSplit(data: Bytes, offset: nat, w: Wanted, tail: seq<Wanted>, options: bool, maxFields: nat)
    requires forall v :: v in [w] + tail ==> Announceable(v, options, maxFields)
    requires At(data, offset, PutTemplates([w] + tail, options, maxFields))
    ensures Announceable(w, options, maxFields) && forall v :: v in tail ==> Announceable(v, options, maxFields)
    ensures |PutTemplates([w] + tail, options, maxFields)| ==
            |PutTemplate(w, options)| + |PutTemplates(tail, options, maxFields)|
    ensures At(data, offset, PutTemplate(w, options))
    ensures At(data, offset + |PutTemplate(w, options)|, PutTemplates(tail, options, maxFields))
  {
    hide At, Announceable;
    var all := [w] + tail;
    assert all[0] == w && all[1..] == tail;
    assert w in all && Announceable(w, options, maxFields);
    forall v | v in tail
      ensures Announceable(v, options, maxFields)
    {
      assert v in all;
    }
    AnnounceableFits(w, options, maxFields);
    AtSplit(data, offset, PutTemplate(w, options), PutTemplates(tail, options, maxFields));
  }

  lemma AnnounceableFits(w: Wanted, options: bool, maxFields: nat)
    requires Announceable(w, options, maxFields)
    ensures w.scopes <= |w.fields| && |w.fields| * SPEC < TWO_16
  {
  }

  lemma {:induction false} TemplatesReadBack(
    data: Bytes, offset: nat, wanted: seq<Wanted>, options: bool, maxFields: nat)
    requires forall w :: w in wanted ==> Announceable(w, options, maxFields)
    requires At(data, offset, PutTemplates(wanted, options, maxFields))
    requires |data| - offset - |PutTemplates(wanted, options, maxFields)| < HeadLength(options)
    ensures Announce(data, HeadsOf(data, offset, options), options, maxFields) == AsAnnouncements(wanted, options)
    decreases |wanted|
  {
    hide At, PutTemplate, Layout, Announceable, Be16, Wanting, HeadAt;
    if wanted != [] {
      var w, tail := wanted[0], wanted[1..];
      assert wanted == [w] + tail;
      TemplatesSplit(data, offset, w, tail, options, maxFields);
      AnnounceableFits(w, options, maxFields);
      TemplateReadsBack(data, offset, w, options, maxFields);
      var h := HeadAt(data, offset, options);
      TemplatesReadBack(data, h.Next(), tail, options, maxFields);
      assert HeadsOf(data, offset, options) == [h] + HeadsOf(data, h.Next(), options);
      AnnouncePrepend(data, h, HeadsOf(data, h.Next(), options), options, maxFields);
    }
  }

  lemma AnnouncePrepend(data: Bytes, h: Head, heads: seq<Head>, options: bool, maxFields: nat)
    ensures Announce(data, [h] + heads, options, maxFields) ==
            [Announcement(h.id, Layout(data, h, options, maxFields))] + Announce(data, heads, options, maxFields)
  {
  }

  /** Round trip: a template flowset of either kind written by a device is read
      back template by template, each with the fields and scopes it was written
      with, bare scopes included, up to padding too short to be a head. */
  lemma TemplateSetRoundTrip(wanted: seq<Wanted>, options: bool, padding: Bytes, maxFields: nat)
    requires forall w :: w in wanted ==> Announceable(w, options, maxFields)
    requires |padding| < HeadLength(options)
    ensures Announced(PutTemplates(wanted, options, maxFields) + padding, options, maxFields) ==
            AsAnnouncements(wanted, options)
  {
    var written := PutTemplates(wanted, options, maxFields);
    assert (written + padding)[..|written|] == written;
    TemplatesReadBack(written + padding, 0, wanted, options, maxFields);
  }
}
