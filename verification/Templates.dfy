/** A compiled template and the shape every stored one has. */
module Templates {
  import opened Uint

  datatype Option<+T> = None | Some(value: T)

  datatype Protocol = NetFlowV5 | NetFlowV8 | NetFlowV9 | Ipfix | SFlowV5

  /** Set and flowset framing shared by v9 and IPFIX. */
  const SET_HEADER: nat := 4
  const MIN_DATA_SET: u16 := 256
  /** Marks an IPFIX field whose length travels in each record. */
  const VARIABLE: u16 := 65535
  const MAX_RECORD: nat := 65535 - SET_HEADER

  datatype TemplateField = TemplateField(fieldType: u16, length: u16, enterprise: u32)

  datatype Template = Template(
    fields: seq<TemplateField>,
    recordLen: nat,
    hasVariable: bool,
    scopeCount: nat,
    options: bool)
  {
    /** The announcement a device repeats to refresh this layout. */
    predicate SameLayout(u: Template) {
      options == u.options && scopeCount == u.scopeCount && fields == u.fields
    }

    /** A record fits a set beside its header and consumes input. */
    predicate FitsASet() {
      1 <= recordLen <= MAX_RECORD
    }
  }

  /** One announcement read off the wire: None is one refused as it stands. */
  datatype Announcement = Announcement(id: u16, layout: Option<Template>)

  /** A template as a device announces it; scopes is 0 unless it is an options
      template. */
  datatype Wanted = Wanted(id: u16, fields: seq<TemplateField>, scopes: nat)

  function MinWidth(f: TemplateField): nat {
    if f.length == VARIABLE then 1 else f.length
  }

  function MinLength(fields: seq<TemplateField>): nat {
    if fields == [] then 0 else MinWidth(fields[0]) + MinLength(fields[1..])
  }

  predicate AnyVariable(fields: seq<TemplateField>) {
    exists i :: 0 <= i < |fields| && fields[i].length == VARIABLE
  }

  /** What parsing guarantees before the record length is judged. */
  ghost predicate Compiled(proto: Protocol, t: Template) {
    && t.fields != []
    && t.scopeCount <= |t.fields|
    && (!t.options ==> t.scopeCount == 0)
    && (forall i :: 0 <= i < |t.fields| && t.fields[i].length == 0 ==>
         proto == NetFlowV9 && t.options && i < t.scopeCount)
    && match proto {
         case Ipfix =>
           && t.recordLen == MinLength(t.fields)
           && t.hasVariable == AnyVariable(t.fields)
           && (t.options ==> t.scopeCount >= 1)
         case NetFlowV9 => !t.hasVariable && t.recordLen == FixedLength(t.fields)
         case _ => false
       }
  }

  /** Every template the store holds: its record length is what its fields sum
      to, a variable one counting a byte, and a record of it both fits a set
      and consumes input. */
  ghost predicate WellFormed(proto: Protocol, t: Template) {
    && t.fields != []
    && t.recordLen == MinLength(t.fields)
    && t.FitsASet()
    && t.hasVariable == AnyVariable(t.fields)
    && (t.hasVariable ==> proto == Ipfix)
    && t.scopeCount <= |t.fields|
    && (!t.options ==> t.scopeCount == 0)
    && (t.options && proto == Ipfix ==> t.scopeCount >= 1)
    && (forall i :: 0 <= i < |t.fields| && t.fields[i].length == 0 ==>
         proto == NetFlowV9 && t.options && i < t.scopeCount)
  }

  /** fixedRecordLen: every width taken as declared, 65535 included. */
  function FixedLength(fields: seq<TemplateField>): nat {
    if fields == [] then 0 else fields[0].length + FixedLength(fields[1..])
  }

  lemma {:induction false} FixedLengthBounds(fields: seq<TemplateField>, i: nat)
    requires i < |fields|
    ensures fields[i].length <= FixedLength(fields)
  {
    if i > 0 {
      FixedLengthBounds(fields[1..], i - 1);
    }
  }

  lemma {:induction false} FixedIsMinimum(fields: seq<TemplateField>)
    requires !AnyVariable(fields)
    ensures MinLength(fields) == FixedLength(fields)
  {
    if fields != [] {
      assert fields[0].length != VARIABLE;
      forall i | 0 <= i < |fields[1..]|
        ensures fields[1..][i].length != VARIABLE
      {
        assert fields[1..][i] == fields[i + 1];
      }
      FixedIsMinimum(fields[1..]);
    }
  }

  /** A template either protocol compiles is well formed as soon as its record
      fits a set: a v9 width of 65535 cannot be mistaken for the variable
      marker, since no record holding one fits. */
  lemma FittingIsWellFormed(proto: Protocol, t: Template)
    requires Compiled(proto, t) && t.FitsASet()
    ensures WellFormed(proto, t)
  {
    if proto == NetFlowV9 {
      forall i | 0 <= i < |t.fields|
        ensures t.fields[i].length != VARIABLE
      {
        FixedLengthBounds(t.fields, i);
      }
      FixedIsMinimum(t.fields);
    }
  }

  /** A stored template is its layout: a re-announcement with the same one refreshes
      the very template held, and any other announcement is a different template. */
  lemma SameLayoutMeansSame(proto: Protocol, a: Template, b: Template)
    requires WellFormed(proto, a) && WellFormed(proto, b)
    ensures a.SameLayout(b) <==> a == b
  {
  }

  lemma {:induction false} MinLengthAppend(fields: seq<TemplateField>, f: TemplateField)
    ensures MinLength(fields + [f]) == MinLength(fields) + MinWidth(f)
  {
    if fields == [] {
      assert [f][1..] == [];
    } else {
      assert (fields + [f])[1..] == fields[1..] + [f];
      MinLengthAppend(fields[1..], f);
    }
  }

  lemma {:induction false} FixedLengthAppend(fields: seq<TemplateField>, f: TemplateField)
    ensures FixedLength(fields + [f]) == FixedLength(fields) + f.length
  {
    if fields == [] {
      assert [f][1..] == [];
    } else {
      assert (fields + [f])[1..] == fields[1..] + [f];
      FixedLengthAppend(fields[1..], f);
    }
  }
}
