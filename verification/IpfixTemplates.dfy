/** Reading IPFIX template and options template sets (RFC 7011 section 3.4),
    and why refusing one announcement never moves the next. */
module IpfixTemplates {
  import opened Uint
  import opened Wire
  import opened Templates

  const ENTERPRISE_BIT: u16 := 0x8000

  // ---- Field specifiers -------------------------------------------------

  /** The bytes one specifier takes, whatever it declares. */
  function SpecLength(data: Bytes, offset: nat): nat
    requires offset + 2 <= |data|
  {
    if Be16(data, offset) >= ENTERPRISE_BIT then 8 else 4
  }

  function ReadSpec(data: Bytes, offset: nat): TemplateField
    requires offset + 4 <= |data| && offset + SpecLength(data, offset) <= |data|
  {
    var declared := Be16(data, offset);
    if declared >= ENTERPRISE_BIT then
      TemplateField(declared - ENTERPRISE_BIT, Be16(data, offset + 2), Be32(data, offset + 4))
    else
      TemplateField(declared, Be16(data, offset + 2), 0)
  }

  datatype Specs = Unreadable | Specs(fields: seq<TemplateField>, next: nat)

  /** The specifiers a template declares, behind those already read, and the
      offset past them; unreadable where they run past the set or one has no
      width. */
  function ReadSpecs(data: Bytes, offset: nat, count: nat, read: seq<TemplateField>): Specs
    decreases count
  {
    if count == 0 then Specs(read, offset)
    else if offset + 4 > |data| || offset + SpecLength(data, offset) > |data| then Unreadable
    else
      var field := ReadSpec(data, offset);
      if field.length == 0 then Unreadable
      else ReadSpecs(data, offset + SpecLength(data, offset), count - 1, read + [field])
  }

  /** The offset past the specifiers read as frames alone. */
  function SkipSpecs(data: Bytes, offset: nat, count: nat): (next: nat)
    ensures next >= offset
    decreases count
  {
    if count == 0 then offset
    else if offset + 4 > |data| then offset + 4
    else SkipSpecs(data, offset + SpecLength(data, offset), count - 1)
  }

  /** Some specifier lying wholly inside the set has no width. */
  predicate HasZeroWidth(data: Bytes, offset: nat, count: nat)
    decreases count
  {
    && count > 0
    && offset + 4 <= |data|
    && (Be16(data, offset + 2) == 0 || HasZeroWidth(data, offset + SpecLength(data, offset), count - 1))
  }

  /** Compiling a template and skipping it step over the same bytes, and the
      only templates that do not compile are those running past the set and
      those with a field of no width. */
  lemma {:induction false} FramingAgrees(data: Bytes, offset: nat, count: nat, read: seq<TemplateField>)
    ensures var specs := ReadSpecs(data, offset, count, read);
            && (specs.Specs? <==>
                 (SkipSpecs(data, offset, count) <= |data| || count == 0) && !HasZeroWidth(data, offset, count))
            && (specs.Specs? ==>
                 && specs.next == SkipSpecs(data, offset, count)
                 && |specs.fields| == |read| + count
                 && specs.fields[..|read|] == read
                 && forall i :: |read| <= i < |read| + count ==> specs.fields[i].length != 0)
    decreases count
  {
    if count > 0 && offset + 4 <= |data| && offset + SpecLength(data, offset) <= |data| {
      var field := ReadSpec(data, offset);
      FramingAgrees(data, offset + SpecLength(data, offset), count - 1, read + [field]);
      var specs := ReadSpecs(data, offset + SpecLength(data, offset), count - 1, read + [field]);
      if specs.Specs? && field.length != 0 {
        assert specs.fields[..|read| + 1] == read + [field];
        assert specs.fields[|read|] == field;
        assert specs.fields[..|read|] == (read + [field])[..|read|] == read;
      }
    } else if count > 0 && offset + 4 <= |data| {
      SkipsForward(data, offset + 8, count - 1);
    }
  }

  lemma {:induction false} SkipsForward(data: Bytes, offset: nat, count: nat)
    ensures SkipSpecs(data, offset, count) >= offset + 4 * count || SkipSpecs(data, offset, count) > |data|
    decreases count
  {
    if count > 0 && offset + 4 <= |data| {
      SkipsForward(data, offset + SpecLength(data, offset), count - 1);
    }
  }

  /** parseIPFIXFieldSpecs. */
  method ParseIpfixFieldSpecs(data: Bytes, start: nat, fieldCount: nat)
    returns (fields: seq<TemplateField>, minLen: nat, hasVariable: bool, next: nat, ok: bool)
    ensures ReadSpecs(data, start, fieldCount, []) == if ok then Specs(fields, next) else Unreadable
    ensures ok ==> minLen == MinLength(fields) && hasVariable == AnyVariable(fields)
  {
    fields, minLen, hasVariable, next := [], 0, false, 0;
    var offset: nat := start;
    for i := 0 to fieldCount
      invariant ReadSpecs(data, offset, fieldCount - i, fields) == ReadSpecs(data, start, fieldCount, [])
      invariant minLen == MinLength(fields) && hasVariable == AnyVariable(fields)
    {
      if offset + 4 > |data| {
        return [], 0, false, 0, false;
      }
      var fieldType := Be16(data, offset);
      var length := Be16(data, offset + 2);
      ghost var at := offset;
      offset := offset + 4;

      var enterprise: u32 := 0;
      if fieldType >= ENTERPRISE_BIT {
        if offset + 4 > |data| {
          return [], 0, false, 0, false;
        }
        enterprise := Be32(data, offset);
        fieldType := fieldType - ENTERPRISE_BIT;
        offset := offset + 4;
      }

      var field := TemplateField(fieldType, length, enterprise);
      assert field == ReadSpec(data, at);
      if length == VARIABLE {
        hasVariable := true;
        minLen := minLen + 1;
      } else if length == 0 {
        return [], 0, false, 0, false;
      } else {
        minLen := minLen + length;
      }
      MinLengthAppend(fields, field);
      AnyVariableAppend(fields, field);
      fields := fields + [field];
    }
    return fields, minLen, hasVariable, offset, true;
  }

  lemma AnyVariableAppend(fields: seq<TemplateField>, f: TemplateField)
    ensures AnyVariable(fields + [f]) == (AnyVariable(fields) || f.length == VARIABLE)
  {
    var all := fields + [f];
    assert all[|fields|] == f;
    forall i | 0 <= i < |fields|
      ensures all[i] == fields[i]
    {
    }
    if AnyVariable(fields) {
      var i :| 0 <= i < |fields| && fields[i].length == VARIABLE;
      assert all[i].length == VARIABLE;
    }
  }

  /** skipIPFIXFieldSpecs. */
  method SkipIpfixFieldSpecs(data: Bytes, start: nat, fieldCount: nat) returns (next: nat)
    ensures next == SkipSpecs(data, start, fieldCount)
  {
    var offset: nat := start;
    for i := 0 to fieldCount
      invariant SkipSpecs(data, offset, fieldCount - i) == SkipSpecs(data, start, fieldCount)
    {
      if offset + 4 > |data| {
        return offset + 4;
      }
      if Be16(data, offset) >= ENTERPRISE_BIT {
        offset := offset + 4;
      }
      offset := offset + 4;
    }
    return offset;
  }

  // ---- Template sets ------------------------------------------------------

  /** One announcement's head: its id, what it declares, and where its
      specifiers begin. scopes is 0 and unread in a plain template set. */
  datatype Head = Head(id: u16, count: u16, scopes: u16, body: nat)

  /** What one head compiles to, judged by nothing but its own bytes. */
  function Layout(data: Bytes, h: Head, options: bool, maxFields: nat): Option<Template> {
    if h.id < MIN_DATA_SET || h.count > maxFields || (options && !(1 <= h.scopes <= h.count)) then None
    else
      match ReadSpecs(data, h.body, h.count, [])
      case Unreadable => None
      case Specs(fields, _) =>
        Some(Template(fields, MinLength(fields), AnyVariable(fields), if options then h.scopes else 0, options))
  }

  /** Where the announcements of a template set begin, found by skipping
      alone. Heads that declare no field withdraw and are stepped over (section 8.4). */
  function PlainHeads(data: Bytes, offset: nat): seq<Head>
    decreases |data| - offset
  {
    if offset + 4 > |data| then []
    else if Be16(data, offset + 2) == 0 then PlainHeads(data, offset + 4)
    else
      var h := Head(Be16(data, offset), Be16(data, offset + 2), 0, offset + 4);
      [h] + PlainHeads(data, SkipSpecs(data, h.body, h.count))
  }

  /** The same for an options template set, whose heads take six bytes and
      whose withdrawals take four. */
  function OptionsHeads(data: Bytes, offset: nat): seq<Head>
    decreases |data| - offset
  {
    if offset + 4 > |data| then []
    else if Be16(data, offset + 2) == 0 then OptionsHeads(data, offset + 4)
    else if offset + 6 > |data| then []
    else
      var h := Head(Be16(data, offset), Be16(data, offset + 2), Be16(data, offset + 4), offset + 6);
      [h] + OptionsHeads(data, SkipSpecs(data, h.body, h.count))
  }

  function HeadsOf(data: Bytes, offset: nat, options: bool): seq<Head> {
    if options then OptionsHeads(data, offset) else PlainHeads(data, offset)
  }

  function Announce(data: Bytes, heads: seq<Head>, options: bool, maxFields: nat): (out: seq<Announcement>)
    ensures |out| == |heads|
  {
    if heads == [] then []
    else [Announcement(heads[0].id, Layout(data, heads[0], options, maxFields))]
         + Announce(data, heads[1..], options, maxFields)
  }

  /** Everything one template set announces, in wire order. */
  function Announced(data: Bytes, options: bool, maxFields: nat): seq<Announcement> {
    Announce(data, HeadsOf(data, 0, options), options, maxFields)
  }

  lemma {:induction false} AnnounceAt(data: Bytes, heads: seq<Head>, options: bool, maxFields: nat, i: nat)
    requires i < |heads|
    ensures Announce(data, heads, options, maxFields)[i] ==
            Announcement(heads[i].id, Layout(data, heads[i], options, maxFields))
  {
    if i > 0 {
      AnnounceAt(data, heads[1..], options, maxFields, i - 1);
    }
  }

  lemma {:induction false} AnnounceAppend(data: Bytes, heads: seq<Head>, h: Head, options: bool, maxFields: nat)
    ensures Announce(data, heads + [h], options, maxFields) ==
            Announce(data, heads, options, maxFields) + [Announcement(h.id, Layout(data, h, options, maxFields))]
  {
    if heads == [] {
      assert heads + [h] == [h] && [h][1..] == [];
    } else {
      assert (heads + [h])[1..] == heads[1..] + [h];
      AnnounceAppend(data, heads[1..], h, options, maxFields);
    }
  }

  /** parseIPFIXTemplates. The code resumes behind an accepted template where
      compiling it ended and behind a refused one where skipping it ended; the
      announcements are nevertheless those at the skipped frames. */
  method ParseIpfixTemplates(data: Bytes, maxFields: nat) returns (out: seq<Announcement>)
    ensures out == Announced(data, false, maxFields)
  {
    out := [];
    var offset := 0;
    ghost var heads := [];
    while offset + SET_HEADER <= |data|
      invariant heads + PlainHeads(data, offset) == PlainHeads(data, 0)
      invariant out == Announce(data, heads, false, maxFields)
      decreases |data| - offset
    {
      var templateID := Be16(data, offset);
      var fieldCount := Be16(data, offset + 2);
      offset := offset + SET_HEADER;
      if fieldCount == 0 {
        continue;
      }

      ghost var h := Head(templateID, fieldCount, 0, offset);
      ghost var rest := PlainHeads(data, SkipSpecs(data, offset, fieldCount));
      assert heads + ([h] + rest) == heads + [h] + rest;
      AnnounceAppend(data, heads, h, false, maxFields);
      FramingAgrees(data, offset, fieldCount, []);
      heads := heads + [h];

      if templateID < MIN_DATA_SET || fieldCount > maxFields {
        out := out + [Announcement(templateID, None)];
        offset := SkipIpfixFieldSpecs(data, offset, fieldCount);
        continue;
      }
      var fields, minLen, hasVariable, next, ok := ParseIpfixFieldSpecs(data, offset, fieldCount);
      if !ok {
        out := out + [Announcement(templateID, None)];
        offset := SkipIpfixFieldSpecs(data, offset, fieldCount);
        continue;
      }
      offset := next;
      out := out + [Announcement(templateID, Some(Template(fields, minLen, hasVariable, 0, false)))];
    }
    assert heads + [] == heads;
  }

  /** parseIPFIXOptionsTemplates. */
  method ParseIpfixOptionsTemplates(data: Bytes, maxFields: nat) returns (out: seq<Announcement>)
    ensures out == Announced(data, true, maxFields)
  {
    out := [];
    var offset := 0;
    ghost var heads := [];
    while offset + 4 <= |data|
      invariant heads + OptionsHeads(data, offset) == OptionsHeads(data, 0)
      invariant out == Announce(data, heads, true, maxFields)
      decreases |data| - offset
    {
      var templateID := Be16(data, offset);
      var fieldCount := Be16(data, offset + 2);
      if fieldCount == 0 {
        offset := offset + 4;
        continue;
      }
      if offset + 6 > |data| {
        assert heads + [] == heads;
        return;
      }
      var scopeCount := Be16(data, offset + 4);
      offset := offset + 6;

      ghost var h := Head(templateID, fieldCount, scopeCount, offset);
      ghost var rest := OptionsHeads(data, SkipSpecs(data, offset, fieldCount));
      assert heads + ([h] + rest) == heads + [h] + rest;
      AnnounceAppend(data, heads, h, true, maxFields);
      FramingAgrees(data, offset, fieldCount, []);
      heads := heads + [h];

      if templateID < MIN_DATA_SET || scopeCount < 1 || scopeCount > fieldCount || fieldCount > maxFields {
        out := out + [Announcement(templateID, None)];
        offset := SkipIpfixFieldSpecs(data, offset, fieldCount);
        continue;
      }
      var fields, minLen, hasVariable, next, ok := ParseIpfixFieldSpecs(data, offset, fieldCount);
      if !ok {
        out := out + [Announcement(templateID, None)];
        offset := SkipIpfixFieldSpecs(data, offset, fieldCount);
        continue;
      }
      offset := next;
      out := out + [Announcement(templateID, Some(Template(fields, minLen, hasVariable, scopeCount, true)))];
    }
    assert heads + [] == heads;
  }

  /** Framing does not depend on acceptance: under any two limits a set
      announces the same ids in the same order, and whatever both accept they
      compile alike. */
  lemma AnnouncementsIgnoreLimits(data: Bytes, options: bool, max1: nat, max2: nat)
    ensures var a, b := Announced(data, options, max1), Announced(data, options, max2);
            && |a| == |b|
            && forall i :: 0 <= i < |a| ==>
                 && a[i].id == b[i].id
                 && (a[i].layout.Some? && b[i].layout.Some? ==> a[i].layout == b[i].layout)
  {
    var heads := HeadsOf(data, 0, options);
    forall i | 0 <= i < |heads|
      ensures var a, b := Announced(data, options, max1), Announced(data, options, max2);
              a[i].id == b[i].id &&
              (a[i].layout.Some? && b[i].layout.Some? ==> a[i].layout == b[i].layout)
    {
      AnnounceAt(data, heads, options, max1, i);
      AnnounceAt(data, heads, options, max2, i);
    }
  }

  /** Whatever is announced with a layout has the shape the store demands. */
  lemma AnnouncedCompile(data: Bytes, options: bool, maxFields: nat, i: nat)
    requires i < |Announced(data, options, maxFields)|
    ensures var a := Announced(data, options, maxFields)[i];
            a.layout.Some? ==> a.id >= MIN_DATA_SET && |a.layout.value.fields| <= maxFields && Compiled(Ipfix,
                a.layout.value)
  {
    var heads := HeadsOf(data, 0, options);
    AnnounceAt(data, heads, options, maxFields, i);
    FramingAgrees(data, heads[i].body, heads[i].count, []);
    HeadsDeclareFields(data, 0, options, i);
  }

  lemma {:induction false} HeadsDeclareFields(data: Bytes, offset: nat, options: bool, i: nat)
    requires i < |HeadsOf(data, offset, options)|
    ensures HeadsOf(data, offset, options)[i].count >= 1
    decreases |data| - offset
  {
    if Be16(data, offset + 2) == 0 {
      HeadsDeclareFields(data, offset + 4, options, i);
    } else if i > 0 {
      var body := if options then offset + 6 else offset + 4;
      HeadsDeclareFields(data, SkipSpecs(data, body, Be16(data, offset + 2)), options, i - 1);
    }
  }

  // ---- Encoding -----------------------------------------------------------

  function PutSpec(f: TemplateField): (s: Bytes)
    requires f.fieldType < ENTERPRISE_BIT
    ensures |s| >= 4
  {
    if f.enterprise == 0 then Put16(f.fieldType) + Put16(f.length)
    else Put16(f.fieldType + ENTERPRISE_BIT) + Put16(f.length) + Put32(f.enterprise)
  }

  ghost predicate Expressible(fields: seq<TemplateField>) {
    forall i :: 0 <= i < |fields| ==> fields[i].fieldType < ENTERPRISE_BIT && fields[i].length > 0
  }

  function PutSpecs(fields: seq<TemplateField>): Bytes
    requires Expressible(fields)
  {
    if fields == [] then [] else PutSpec(fields[0]) + PutSpecs(fields[1..])
  }

  lemma ReadPutSpec(data: Bytes, offset: nat, f: TemplateField)
    requires f.fieldType < ENTERPRISE_BIT
    requires At(data, offset, PutSpec(f))
    ensures offset + |PutSpec(f)| <= |data|
    ensures SpecLength(data, offset) == |PutSpec(f)| && ReadSpec(data, offset) == f
  {
    if f.enterprise == 0 {
      AtSplit(data, offset, Put16(f.fieldType), Put16(f.length));
      ReadAt16(data, offset, f.fieldType);
    } else {
      var head := Put16(f.fieldType + ENTERPRISE_BIT) + Put16(f.length);
      AtSplit(data, offset, head, Put32(f.enterprise));
      AtSplit(data, offset, Put16(f.fieldType + ENTERPRISE_BIT), Put16(f.length));
      ReadAt16(data, offset, f.fieldType + ENTERPRISE_BIT);
      ReadAt32(data, offset + 4, f.enterprise);
    }
    ReadAt16(data, offset + 2, f.length);
  }

  /** The specifiers a device writes are the ones read, ending where it ended. */
  lemma {:induction false} ReadPutSpecs(data: Bytes, offset: nat, fields: seq<TemplateField>, read: seq<TemplateField>)
    requires Expressible(fields)
    requires At(data, offset, PutSpecs(fields))
    ensures ReadSpecs(data, offset, |fields|, read) == Specs(read + fields, offset + |PutSpecs(fields)|)
    decreases |fields|
  {
    hide At, Be16, Be32, SpecLength, ReadSpec, PutSpec;
    if fields == [] {
      assert read + fields == read;
    } else {
      var f, tail := fields[0], fields[1..];
      assert fields == [f] + tail;
      PutSpecsSplit(data, offset, f, tail);
      ReadPutSpec(data, offset, f);
      ReadPutSpecs(data, offset + |PutSpec(f)|, tail, read + [f]);
      assert read + [f] + tail == read + fields;
    }
  }

  lemma PutSpecsSplit(data: Bytes, offset: nat, f: TemplateField, tail: seq<TemplateField>)
    requires Expressible([f] + tail)
    requires At(data, offset, PutSpecs([f] + tail))
    ensures Expressible(tail) && f.fieldType < ENTERPRISE_BIT && f.length > 0
    ensures |PutSpecs([f] + tail)| == |PutSpec(f)| + |PutSpecs(tail)|
    ensures At(data, offset, PutSpec(f)) && At(data, offset + |PutSpec(f)|, PutSpecs(tail))
  {
    var fields := [f] + tail;
    assert fields[0] == f && fields[1..] == tail;
    forall i | 0 <= i < |tail|
      ensures tail[i].fieldType < ENTERPRISE_BIT && tail[i].length > 0
    {
      assert tail[i] == fields[i + 1];
    }
    AtSplit(data, offset, PutSpec(f), PutSpecs(tail));
  }

  ghost predicate Announceable(w: Wanted, options: bool, maxFields: nat) {
    && w.id >= MIN_DATA_SET
    && 1 <= |w.fields| <= maxFields
    && |w.fields| < TWO_16
    && (if options then 1 <= w.scopes <= |w.fields| else w.scopes == 0)
    && Expressible(w.fields)
  }

  function PutHead(w: Wanted, options: bool): (s: Bytes)
    requires |w.fields| < TWO_16 && w.scopes < TWO_16
    ensures |s| == if options then 6 else 4
  {
    Put16(w.id) + Put16(|w.fields|) + if options then Put16(w.scopes) else []
  }

  function PutTemplate(w: Wanted, options: bool): Bytes
    requires Expressible(w.fields) && |w.fields| < TWO_16 && w.scopes < TWO_16
  {
    PutHead(w, options) + PutSpecs(w.fields)
  }

  function PutTemplates(wanted: seq<Wanted>, options: bool, maxFields: nat): Bytes
    requires forall w :: w in wanted ==> Announceable(w, options, maxFields)
  {
    if wanted == [] then []
    else
      var w := wanted[0];
      assert w in wanted && Announceable(w, options, maxFields);
      PutTemplate(w, options) + PutTemplates(wanted[1..], options, maxFields)
  }

  function Wanting(w: Wanted, options: bool): Announcement {
    Announcement(w.id, Some(Template(w.fields, MinLength(w.fields), AnyVariable(w.fields), w.scopes, options)))
  }

  function AsAnnouncements(wanted: seq<Wanted>, options: bool): seq<Announcement> {
    if wanted == [] then [] else [Wanting(wanted[0], options)] + AsAnnouncements(wanted[1..], options)
  }

  /** Round trip: a template set of either kind written by a device is read back
      template by template, each with the fields and scopes it was written with,
      up to padding too short to be a head. */
  lemma TemplateSetRoundTrip(wanted: seq<Wanted>, options: bool, padding: Bytes, maxFields: nat)
    requires forall w :: w in wanted ==> Announceable(w, options, maxFields)
    requires |padding| < SET_HEADER
    ensures Announced(PutTemplates(wanted, options, maxFields) + padding, options, maxFields) ==
            AsAnnouncements(wanted, options)
  {
    var written := PutTemplates(wanted, options, maxFields);
    assert (written + padding)[..|written|] == written;
    TemplatesReadBack(written + padding, 0, wanted, options, maxFields);
  }

  lemma HeadReads(data: Bytes, offset: nat, w: Wanted, options: bool)
    requires |w.fields| < TWO_16 && w.scopes < TWO_16
    requires At(data, offset, PutHead(w, options))
    ensures offset + (if options then 6 else 4) <= |data|
    ensures Be16(data, offset) == w.id && Be16(data, offset + 2) == |w.fields|
    ensures options ==> Be16(data, offset + 4) == w.scopes
  {
    hide Be16, At;
    AtLength(data, offset, PutHead(w, options));
    AtSplit(data, offset, Put16(w.id) + Put16(|w.fields|), if options then Put16(w.scopes) else []);
    AtSplit(data, offset, Put16(w.id), Put16(|w.fields|));
    ReadAt16(data, offset, w.id);
    ReadAt16(data, offset + 2, |w.fields|);
    if options {
      ReadAt16(data, offset + 4, w.scopes);
    }
  }

  lemma TemplateReadsBack(data: Bytes, offset: nat, w: Wanted, options: bool, maxFields: nat)
    requires Announceable(w, options, maxFields)
    requires At(data, offset, PutTemplate(w, options))
    ensures At(data, offset, PutHead(w, options))
    ensures var body := offset + if options then 6 else 4;
            && ReadSpecs(data, body, |w.fields|, []) == Specs(w.fields, offset + |PutTemplate(w, options)|)
            && SkipSpecs(data, body, |w.fields|) == offset + |PutTemplate(w, options)|
  {
    hide At, PutHead, Expressible;
    var body := offset + if options then 6 else 4;
    AtSplit(data, offset, PutHead(w, options), PutSpecs(w.fields));
    ReadPutSpecs(data, body, w.fields, []);
    assert [] + w.fields == w.fields;
    FramingAgrees(data, body, |w.fields|, []);
  }

  lemma HeadReadsBack(data: Bytes, offset: nat, w: Wanted, options: bool, next: nat, maxFields: nat)
    requires Announceable(w, options, maxFields)
    requires At(data, offset, PutHead(w, options))
    requires var body := offset + if options then 6 else 4;
             && ReadSpecs(data, body, |w.fields|, []) == Specs(w.fields, next)
             && SkipSpecs(data, body, |w.fields|) == next
    ensures Announce(data, HeadsOf(data, offset, options), options, maxFields) ==
            [Wanting(w, options)] + Announce(data, HeadsOf(data, next, options), options, maxFields)
  {
    hide At, PutHead, ReadSpecs, SkipSpecs, MinLength, AnyVariable, Be16;
    HeadReads(data, offset, w, options);
    var h := Head(w.id, |w.fields|, if options then w.scopes else 0, offset + if options then 6 else 4);
    var rest := HeadsOf(data, next, options);
    assert HeadsOf(data, offset, options) == [h] + rest;
    assert ([h] + rest)[0] == h && ([h] + rest)[1..] == rest;
  }

  lemma TemplatesSplit(data: Bytes, offset: nat, w: Wanted, tail: seq<Wanted>, options: bool, maxFields: nat)
    requires forall v :: v in [w] + tail ==> Announceable(v, options, maxFields)
    requires At(data, offset, PutTemplates([w] + tail, options, maxFields))
    ensures Announceable(w, options, maxFields) && forall v :: v in tail ==> Announceable(v, options, maxFields)
    ensures |PutTemplates([w] + tail, options, maxFields)| ==
            |PutTemplate(w, options)| + |PutTemplates(tail, options, maxFields)|
    ensures At(data, offset, PutTemplate(w, options))
    ensures At(data, offset + |PutTemplate(w, options)|, PutTemplates(tail, options, maxFields))
  {
    hide At, Announceable;
    var all := [w] + tail;
    assert all[0] == w && all[1..] == tail;
    assert w in all && Announceable(w, options, maxFields);
    forall v | v in tail
      ensures Announceable(v, options, maxFields)
    {
      assert v in all;
    }
    AnnounceableFits(w, options, maxFields);
    AtSplit(data, offset, PutTemplate(w, options), PutTemplates(tail, options, maxFields));
  }

  lemma AnnounceableFits(w: Wanted, options: bool, maxFields: nat)
    requires Announceable(w, options, maxFields)
    ensures Expressible(w.fields) && |w.fields| < TWO_16 && w.scopes < TWO_16
  {
  }

  lemma {:induction false} TemplatesReadBack(
    data: Bytes, offset: nat, wanted: seq<Wanted>, options: bool, maxFields: nat)
    requires forall w :: w in wanted ==> Announceable(w, options, maxFields)
    requires At(data, offset, PutTemplates(wanted, options, maxFields))
    requires |data| - offset - |PutTemplates(wanted, options, maxFields)| < SET_HEADER
    ensures Announce(data, HeadsOf(data, offset, options), options, maxFields) == AsAnnouncements(wanted, options)
    decreases |wanted|
  {
    hide At, PutTemplate, ReadSpecs, SkipSpecs, Layout, Announceable, Be16, Wanting;
    if wanted != [] {
      var w, tail := wanted[0], wanted[1..];
      assert wanted == [w] + tail;
      TemplatesSplit(data, offset, w, tail, options, maxFields);
      AnnounceableFits(w, options, maxFields);
      var next := offset + |PutTemplate(w, options)|;
      TemplateReadsBack(data, offset, w, options, maxFields);
      HeadReadsBack(data, offset, w, options, next, maxFields);
      TemplatesReadBack(data, next, tail, options, maxFields);
    }
  }
}
