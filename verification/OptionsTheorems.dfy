/** What an options record declares, told by the elements it carries wherever
    in the record they stand. */
module OptionsTheorems {
  import opened Uint
  import opened Wire
  import opened Templates
  import opened SamplerTables
  import opened StoreModel
  import opened Corrections
  import opened OptionsRecords

  /** An information element by its enterprise and number. */
  datatype Slot = Slot(enterprise: u32, element: u16)

  function Iana(element: u16): Slot {
    Slot(0, element)
  }

  const CATEGORY: Slot := Slot(9, 12232)

  /** A record as it was cut: one value for each field of its template. */
  datatype Record = Record(proto: Protocol, template: Template, values: seq<Bytes>)
  {
    predicate Cut() {
      |template.fields| == |values|
    }

    function Read(): Options
      requires Cut()
    {
      ReadUpTo(proto, template, values, |values|)
    }

    predicate Carries(i: nat, slot: Slot) {
      i < |template.fields| && Slot(template.fields[i].enterprise, template.fields[i].fieldType) == slot
    }

    ghost predicate Lacks(slot: Slot) {
      forall i: nat :: !Carries(i, slot)
    }

    /** No complete interval and space, and no complete size and population. */
    ghost predicate Unspaced() {
      Lacks(Iana(305)) || Lacks(Iana(306))
    }

    ghost predicate Unsized() {
      Lacks(Iana(309)) || Lacks(Iana(310))
    }

    /** The last field of this element holds the value, which is what counts. */
    ghost predicate Holds(slot: Slot, value: Bytes) {
      Cut() && exists i: nat :: Carries(i, slot) && values[i] == value && forall j: nat :: j > i ==> !Carries(j, slot)
    }

    /** The element's number, written in any width the source reads. */
    ghost predicate Says(element: u16, number: u32) {
      exists value :: Holds(Iana(element), value) && 1 <= |value| <= 8 && BigEndian(value) == number
    }

    /** A leading field that scopes the record by this kind of scope. */
    predicate Scopes(i: nat, kind: ScopeKind) {
      && i < |template.fields| && i < template.scopeCount
      && template.fields[i].fieldType == kind.Element(proto)
      && (proto == NetFlowV9 ==> kind != ByDomain)
      && (proto != NetFlowV9 ==> template.fields[i].enterprise == 0)
    }

    ghost predicate Unscoped(kind: ScopeKind) {
      forall i: nat :: !Scopes(i, kind)
    }

    ghost predicate ScopeSays(kind: ScopeKind, number: u32) {
      Cut() && exists i: nat :: Scopes(i, kind) && 1 <= |values[i]| <= 8 && BigEndian(values[i]) == number
                                && forall j: nat :: j > i ==> !Scopes(j, kind)
    }
  }

  /** The scopes a declaration can be tied to. NetFlow v9 has none by domain. */
  datatype ScopeKind = ByTemplate | ByInterface | ByDomain
  {
    function Element(proto: Protocol): u16 {
      match this
      case ByTemplate => if proto == NetFlowV9 then 5 else 145
      case ByInterface => if proto == NetFlowV9 then 2 else 10
      case ByDomain => 149
    }
  }

  lemma WrittenSays(r: Record, element: u16, i: nat, number: u32)
    requires r.Cut() && r.Carries(i, Iana(element)) && forall j: nat :: j > i ==> !r.Carries(j, Iana(element))
    requires r.values[i] == Put32(number) || (number < TWO_16 && r.values[i] == Put16(number))
    ensures r.Says(element, number)
  {
    BigEndianReadsBack(number);
    assert r.Holds(Iana(element), r.values[i]);
  }

  // ---- Each slot of the reading -----------------------------------------------------

  ghost predicate SlotRead(o: Options, slot: Slot, value: Bytes) {
    && (slot == Iana(48) ==> o.samplerID == BeUint32(value))
    && (slot == Iana(302) ==> o.selectorID == BeUint32(value))
    && (slot == Iana(34) ==> o.plainInterval == OrZero(BeUint32(value)))
    && (slot == Iana(50) ==> o.randomInterval == OrZero(BeUint32(value)))
    && (slot == Iana(305) ==> o.packetInterval == OrZero(BeUint32(value)))
    && (slot == Iana(306) ==> o.packetSpace == OrZero(BeUint32(value)) && o.hasSpace)
    && (slot == Iana(309) ==> o.samplingSize == OrZero(BeUint32(value)))
    && (slot == Iana(310) ==> o.population == OrZero(BeUint32(value)))
    && (slot == Iana(95) ==> o.appID == OrZero(ApplicationID(value)))
    && (slot == Iana(96) ==> o.appName == value)
    && (slot == CATEGORY ==> o.appCategory == value)
  }

  ghost predicate SlotBlank(o: Options, slot: Slot) {
    && (slot == Iana(48) ==> o.samplerID == None)
    && (slot == Iana(302) ==> o.selectorID == None)
    && (slot == Iana(34) ==> o.plainInterval == 0)
    && (slot == Iana(50) ==> o.randomInterval == 0)
    && (slot == Iana(305) ==> o.packetInterval == 0)
    && (slot == Iana(306) ==> !o.hasSpace)
    && (slot == Iana(309) ==> o.samplingSize == 0)
    && (slot == Iana(310) ==> o.population == 0)
    && (slot == Iana(95) ==> o.appID == 0)
    && (slot == Iana(96) ==> o.appName == [])
    && (slot == CATEGORY ==> o.appCategory == [])
  }

  ghost predicate SlotSame(o: Options, o': Options, slot: Slot) {
    && (slot == Iana(48) ==> o'.samplerID == o.samplerID)
    && (slot == Iana(302) ==> o'.selectorID == o.selectorID)
    && (slot == Iana(34) ==> o'.plainInterval == o.plainInterval)
    && (slot == Iana(50) ==> o'.randomInterval == o.randomInterval)
    && (slot == Iana(305) ==> o'.packetInterval == o.packetInterval)
    && (slot == Iana(306) ==> o'.packetSpace == o.packetSpace && o'.hasSpace == o.hasSpace)
    && (slot == Iana(309) ==> o'.samplingSize == o.samplingSize)
    && (slot == Iana(310) ==> o'.population == o.population)
    && (slot == Iana(95) ==> o'.appID == o.appID)
    && (slot == Iana(96) ==> o'.appName == o.appName)
    && (slot == CATEGORY ==> o'.appCategory == o.appCategory)
  }

  lemma ReadFieldAt(proto: Protocol, o: Options, f: TemplateField, value: Bytes, scope: bool)
    ensures SlotRead(ReadField(proto, o, f, value, scope), Slot(f.enterprise, f.fieldType), value)
  {
    hide BeUint32, ApplicationID;
  }

  lemma ReadFieldBeside(proto: Protocol, o: Options, f: TemplateField, value: Bytes, scope: bool, slot: Slot)
    requires Slot(f.enterprise, f.fieldType) != slot
    ensures SlotSame(o, ReadField(proto, o, f, value, scope), slot)
  {
    hide BeUint32, ApplicationID;
  }

  lemma {:induction false} LastCounts(r: Record, n: nat, slot: Slot, i: nat)
    requires r.Cut() && i < n <= |r.values| && r.Carries(i, slot)
    requires forall j: nat :: j > i ==> !r.Carries(j, slot)
    ensures SlotRead(ReadUpTo(r.proto, r.template, r.values, n), slot, r.values[i])
  {
    hide ReadField;
    var o, scope := ReadUpTo(r.proto, r.template, r.values, n - 1), n - 1 < r.template.scopeCount;
    if i == n - 1 {
      ReadFieldAt(r.proto, o, r.template.fields[i], r.values[i], scope);
    } else {
      LastCounts(r, n - 1, slot, i);
      assert !r.Carries(n - 1, slot);
      ReadFieldBeside(r.proto, o, r.template.fields[n - 1], r.values[n - 1], scope, slot);
    }
  }

  lemma {:induction false} LackedIsBlank(r: Record, n: nat, slot: Slot)
    requires r.Cut() && n <= |r.values| && r.Lacks(slot)
    ensures SlotBlank(ReadUpTo(r.proto, r.template, r.values, n), slot)
  {
    hide ReadField;
    if n > 0 {
      LackedIsBlank(r, n - 1, slot);
      var o, scope := ReadUpTo(r.proto, r.template, r.values, n - 1), n - 1 < r.template.scopeCount;
      assert !r.Carries(n - 1, slot);
      ReadFieldBeside(r.proto, o, r.template.fields[n - 1], r.values[n - 1], scope, slot);
    }
  }

  lemma SaidIsRead(r: Record, element: u16, number: u32)
    requires r.Says(element, number)
    ensures exists value :: BeUint32(value) == Some(number) && SlotRead(r.Read(), Iana(element), value)
  {
    hide SlotRead;
    var value :| r.Holds(Iana(element), value) && 1 <= |value| <= 8 && BigEndian(value) == number;
    HeldIsRead(r, Iana(element), value);
  }

  lemma HeldIsRead(r: Record, slot: Slot, value: Bytes)
    requires r.Holds(slot, value)
    ensures SlotRead(r.Read(), slot, value)
  {
    hide SlotRead;
    var i: nat :| r.Carries(i, slot) && r.values[i] == value && forall j: nat :: j > i ==> !r.Carries(j, slot);
    LastCounts(r, |r.values|, slot, i);
  }

  // ---- The rate declared --------------------------------------------------------------

  /** A rate as its device means it: an interval kept of interval and space
      together, a sample of a population, or one packet in so many. */
  datatype Meant =
    | Spaced(interval: u32, space: u32)
    | Sized(size: u32, population: u32)
    | Random(n: u32)
    | Every(n: u32)
  {
    /** The record says so, and nothing that comes before it in the source's
        order of preference. */
    ghost predicate In(r: Record) {
      match this
      case Spaced(interval, space) => r.Says(305, interval) && r.Says(306, space)
      case Sized(size, population) =>
        r.Says(309, size) && r.Says(310, population) && r.Unspaced()
      case Random(n) => r.Says(50, n) && r.Unspaced() && r.Unsized()
      case Every(n) =>
        r.Says(34, n) && r.Lacks(Iana(50)) && r.Unspaced() && r.Unsized()
    }

    predicate Sensible() {
      match this
      case Spaced(interval, space) => interval > 0 && interval + space < TWO_32
      case Sized(size, population) => size > 0 && population > 0
      case Random(n) => n > 0
      case Every(n) => true
    }

    function Rate(): int
      requires Sensible()
    {
      match this
      case Spaced(interval, space) => (interval + space) / interval
      case Sized(size, population) => population / size
      case Random(n) => n
      case Every(n) => n
    }
  }

  /** A record declares the rate its device meant, whatever else it carries and
      wherever the elements stand. */
  lemma MeantIsDeclared(r: Record, m: Meant)
    requires r.Cut() && m.In(r) && m.Sensible()
    ensures SamplingRate(r.Read()) == m.Rate()
  {
    hide ReadUpTo, r.Says, r.Lacks;
    match m
    case Spaced(interval, space) =>
      SaidIsRead(r, 305, interval);
      SaidIsRead(r, 306, space);
    case Sized(size, population) =>
      NoSpacing(r);
      SaidIsRead(r, 309, size);
      SaidIsRead(r, 310, population);
    case Random(n) =>
      NoSpacing(r);
      NoSizing(r);
      SaidIsRead(r, 50, n);
    case Every(n) =>
      NoSpacing(r);
      NoSizing(r);
      LackedIsBlank(r, |r.values|, Iana(50));
      SaidIsRead(r, 34, n);
  }

  lemma NoSpacing(r: Record)
    requires r.Cut() && r.Unspaced()
    ensures !r.Read().hasSpace || r.Read().packetInterval == 0
  {
    hide ReadUpTo, r.Lacks;
    if r.Lacks(Iana(305)) {
      LackedIsBlank(r, |r.values|, Iana(305));
    } else {
      LackedIsBlank(r, |r.values|, Iana(306));
    }
  }

  lemma NoSizing(r: Record)
    requires r.Cut() && r.Unsized()
    ensures r.Read().samplingSize == 0 || r.Read().population == 0
  {
    hide ReadUpTo, r.Lacks;
    if r.Lacks(Iana(309)) {
      LackedIsBlank(r, |r.values|, Iana(309));
    } else {
      LackedIsBlank(r, |r.values|, Iana(310));
    }
  }

  /** A record with none of the sampling elements declares nothing. */
  lemma SilenceDeclaresNothing(r: Record, s: Sampling, key: DomainKey, port: u16, at: int)
    requires r.Cut() && r.Unspaced() && r.Unsized() && r.Lacks(Iana(50)) && r.Lacks(Iana(34))
    ensures Committed(s, r.Read(), key, port, at) == s
  {
    hide ReadUpTo, r.Lacks, TargetOf;
    NoSpacing(r);
    NoSizing(r);
    LackedIsBlank(r, |r.values|, Iana(50));
    LackedIsBlank(r, |r.values|, Iana(34));
  }

  // ---- What it is tied to ---------------------------------------------------------------

  ghost predicate ScopeRead(o: Options, kind: ScopeKind, value: Bytes) {
    match kind
    case ByTemplate => o.scopeTemplate == BeUint16(value)
    case ByInterface => o.scopeInterface == BeUint32(value)
    case ByDomain => o.scopeDomain == BeUint32(value)
  }

  ghost predicate ScopeSame(o: Options, o': Options, kind: ScopeKind) {
    match kind
    case ByTemplate => o'.scopeTemplate == o.scopeTemplate
    case ByInterface => o'.scopeInterface == o.scopeInterface
    case ByDomain => o'.scopeDomain == o.scopeDomain
  }

  lemma ReadScope(r: Record, o: Options, i: nat, kind: ScopeKind)
    requires r.Cut() && i < |r.values|
    ensures var o' := ReadField(r.proto, o, r.template.fields[i], r.values[i], i < r.template.scopeCount);
            if r.Scopes(i, kind) then ScopeRead(o', kind, r.values[i]) else ScopeSame(o, o', kind)
  {
    hide BeUint16, BeUint32, ApplicationID;
  }

  lemma {:induction false} LastScopeCounts(r: Record, n: nat, kind: ScopeKind, i: nat)
    requires r.Cut() && i < n <= |r.values| && r.Scopes(i, kind) && forall j: nat :: j > i ==> !r.Scopes(j, kind)
    ensures ScopeRead(ReadUpTo(r.proto, r.template, r.values, n), kind, r.values[i])
  {
    hide ReadField;
    ReadScope(r, ReadUpTo(r.proto, r.template, r.values, n - 1), n - 1, kind);
    if i < n - 1 {
      LastScopeCounts(r, n - 1, kind, i);
    }
  }

  lemma {:induction false} UnscopedIsBlank(r: Record, n: nat, kind: ScopeKind)
    requires r.Cut() && n <= |r.values| && r.Unscoped(kind)
    ensures ScopeSame(BLANK, ReadUpTo(r.proto, r.template, r.values, n), kind)
  {
    hide ReadField;
    if n > 0 {
      ReadScope(r, ReadUpTo(r.proto, r.template, r.values, n - 1), n - 1, kind);
      UnscopedIsBlank(r, n - 1, kind);
    }
  }

  lemma ScopeSaidIsRead(r: Record, kind: ScopeKind, number: u32)
    requires r.ScopeSays(kind, number)
    ensures exists value :: 1 <= |value| <= 8 && BigEndian(value) == number && ScopeRead(r.Read(), kind, value)
  {
    hide ReadUpTo, ScopeRead;
    var i: nat :| r.Scopes(i, kind) && 1 <= |r.values[i]| <= 8 && BigEndian(r.values[i]) == number
                  && forall j: nat :: j > i ==> !r.Scopes(j, kind);
    LastScopeCounts(r, |r.values|, kind, i);
  }

  /** What the device ties its declaration to, and how the record says it. */
  datatype Tie =
    | Sampler(id: u32)
    | Selector(id: u32)
    | Layout(template: u16)
    | Interface(index: u32)
    | Domain(odid: u32)
    | Own
  {
    ghost predicate In(r: Record, odid: u32) {
      match this
      case Sampler(id) => r.Says(48, id)
      case Selector(id) => r.Says(302, id) && r.Lacks(Iana(48))
      case Layout(id) => r.ScopeSays(ByTemplate, id) && r.Lacks(Iana(48)) && r.Lacks(Iana(302))
      case Interface(index) =>
        r.ScopeSays(ByInterface, index) && r.Unscoped(ByTemplate) && r.Lacks(Iana(48)) && r.Lacks(Iana(302))
      case Domain(other) =>
        && r.ScopeSays(ByDomain, other) && other != odid
        && r.Unscoped(ByTemplate) && r.Unscoped(ByInterface) && r.Lacks(Iana(48)) && r.Lacks(Iana(302))
      case Own =>
        && (r.Unscoped(ByDomain) || r.ScopeSays(ByDomain, odid))
        && r.Unscoped(ByTemplate) && r.Unscoped(ByInterface) && r.Lacks(Iana(48)) && r.Lacks(Iana(302))
    }

    function Target(odid: u32, port: u16): OptionsRecords.Target {
      match this
      case Sampler(id) => Named(id)
      case Selector(id) => Named(id)
      case Layout(id) => Scoped(TemplateScope(odid, TemplateRef(port, id)))
      case Interface(index) => Scoped(InterfaceScope(odid, index))
      case Domain(other) => Scoped(DomainScope(other))
      case Own => Plain
    }
  }

  /** A record is tied to what its device meant: a sampler before its scopes,
      the narrowest scope first, and the domain itself where it names nothing. */
  lemma TieIsTaken(r: Record, tie: Tie, key: DomainKey, port: u16)
    requires r.Cut() && tie.In(r, key.odid)
    ensures TargetOf(r.Read(), key, port) == tie.Target(key.odid, port)
  {
    hide ReadUpTo, r.Says, r.Lacks, r.ScopeSays, r.Unscoped;
    match tie
    case Sampler(id) => SaidIsRead(r, 48, id);
    case Selector(id) =>
      LackedIsBlank(r, |r.values|, Iana(48));
      SaidIsRead(r, 302, id);
    case Layout(id) =>
      Nameless(r);
      ScopeSaidIsRead(r, ByTemplate, id);
    case Interface(index) =>
      Nameless(r);
      UnscopedIsBlank(r, |r.values|, ByTemplate);
      ScopeSaidIsRead(r, ByInterface, index);
    case Domain(other) =>
      Nameless(r);
      Wide(r);
      ScopeSaidIsRead(r, ByDomain, other);
    case Own =>
      Nameless(r);
      Wide(r);
      if r.Unscoped(ByDomain) {
        UnscopedIsBlank(r, |r.values|, ByDomain);
      } else {
        ScopeSaidIsRead(r, ByDomain, key.odid);
      }
  }

  lemma Nameless(r: Record)
    requires r.Cut() && r.Lacks(Iana(48)) && r.Lacks(Iana(302))
    ensures r.Read().samplerID == None && r.Read().selectorID == None
  {
    hide ReadUpTo, r.Lacks;
    LackedIsBlank(r, |r.values|, Iana(48));
    LackedIsBlank(r, |r.values|, Iana(302));
  }

  lemma Wide(r: Record)
    requires r.Cut() && r.Unscoped(ByTemplate) && r.Unscoped(ByInterface)
    ensures r.Read().scopeTemplate == None && r.Read().scopeInterface == None
  {
    hide ReadUpTo, r.Unscoped;
    UnscopedIsBlank(r, |r.values|, ByTemplate);
    UnscopedIsBlank(r, |r.values|, ByInterface);
  }

  // ---- What it leaves ----------------------------------------------------------------------

  /** Where a table keeps the declarations of one target. */
  ghost function Kept(d: Declarations, odid: u32, target: OptionsRecords.Target): Option<Entry> {
    match target
    case Named(id) => if SamplerRef(odid, id) in d.named then Some(d.named[SamplerRef(odid, id)]) else None
    case Scoped(ref) => if ref in d.scoped then Some(d.scoped[ref]) else None
    case Plain => if odid in d.plain then Some(d.plain[odid]) else None
  }

  /** From the record's bytes to the table: the rate meant stands on the target
      meant, dated by the datagram, wherever the table has room or holds one
      for that target already; every other target keeps what it had. */
  lemma RecordDeclaresWhatWasMeant(r: Record, m: Meant, tie: Tie, s: Sampling, key: DomainKey, port: u16, at: int)
    requires r.Cut() && m.In(r) && m.Sensible() && tie.In(r, key.odid) && m.Rate() > 0
    ensures var after, target := Committed(s, r.Read(), key, port, at), tie.Target(key.odid, port);
            && (Kept(after.declared, key.odid, target) ==
                if Kept(s.declared, key.odid, target).Some? || s.declared.Size() < 256
                then Some(Entry(m.Rate(), at)) else None)
            && (forall odid, other :: other != target || (odid != key.odid && !other.Scoped?) ==>
                 Kept(after.declared, odid, other) == Kept(s.declared, odid, other))
            && after.rate == if tie.Own? then m.Rate() else s.rate
  {
    MeantIsDeclared(r, m);
    TieIsTaken(r, tie, key, port);
    LandsOnItsTarget(r.Read(), s, key, port, at);
  }

  lemma LandsOnItsTarget(o: Options, s: Sampling, key: DomainKey, port: u16, at: int)
    requires SamplingRate(o) > 0
    ensures var after, target := Committed(s, o, key, port, at), TargetOf(o, key, port);
            && (Kept(after.declared, key.odid, target) ==
                if Kept(s.declared, key.odid, target).Some? || s.declared.Size() < 256
                then Some(Entry(SamplingRate(o), at)) else None)
            && (forall odid, other :: other != target || (odid != key.odid && !other.Scoped?) ==>
                 Kept(after.declared, odid, other) == Kept(s.declared, odid, other))
            && after.rate == if target.Plain? then SamplingRate(o) else s.rate
  {
    hide SamplingRate, TargetOf;
  }

  // ---- Application strings -------------------------------------------------------------------

  function Leading(zeros: nat): (s: Bytes)
    ensures |s| == zeros
  {
    seq(zeros, _ => 0)
  }

  lemma {:induction false} LeadingZeros(zeros: nat, value: Bytes)
    ensures BigEndian(Leading(zeros) + value) == BigEndian(value)
    decreases |value| + zeros
  {
    var wide := Leading(zeros) + value;
    if value != [] {
      LeadingZeros(zeros, value[..|value| - 1]);
      assert wide[..|wide| - 1] == Leading(zeros) + value[..|value| - 1];
    } else if zeros > 0 {
      LeadingZeros(zeros - 1, []);
      assert wide == Leading(zeros - 1) + [0] && wide[..|wide| - 1] == Leading(zeros - 1) + [];
    }
  }

  /** Any width up to eight bytes that holds the number reads as the number, and
      no wider one does. */
  lemma WidthsRead(number: u32, zeros: nat)
    ensures BeUint32(Leading(zeros) + Put32(number)) == Some(number) <==> zeros <= 4
    ensures number < TWO_16 ==> (BeUint16(Leading(zeros) + Put16(number)) == Some(number) <==> zeros <= 6)
    ensures number < TWO_16 <==> BeUint16(Put32(number)).Some?
  {
    BigEndianReadsBack(number);
    LeadingZeros(zeros, Put32(number));
    if number < TWO_16 {
      LeadingZeros(zeros, Put16(number));
    }
  }

  /** An application identifier reads as its engine over its selector, however
      far the selector is widened with zeros inside nine bytes in all. */
  lemma ApplicationIDReadsBack(id: u32, zeros: nat)
    ensures var s := Put32(id);
            ApplicationID([s[0]] + Leading(zeros) + s[1..]) == Some(id) <==> zeros <= 5
  {
    var s := Put32(id);
    var value := [s[0]] + Leading(zeros) + s[1..];
    TwoBytes(s[1], s[2]);
    BigEndianGrows([s[1], s[2]], s[3]);
    assert s[1..] == [s[1], s[2]] + [s[3]];
    LeadingZeros(zeros, s[1..]);
    assert value[1..] == Leading(zeros) + s[1..];
  }

  /** A record naming an application hands its device's table the identifier
      with the name and with the category, each where the record has one. */
  lemma NamesAreHanded(r: Record, id: u32, name: Bytes, category: Bytes)
    requires r.Cut() && r.Holds(Iana(95), Put32(id)) && id > 0
    requires if name == [] then r.Lacks(Iana(96)) else r.Holds(Iana(96), name)
    requires if category == [] then r.Lacks(CATEGORY) else r.Holds(CATEGORY, category)
    ensures forall handed :: handed in AppStrings(r.Read()) <==>
              || (handed == AppName(id, name) && name != [])
              || (handed == AppCategory(id, category) && category != [])
  {
    hide ReadUpTo, r.Holds, r.Lacks, ApplicationID;
    ApplicationIDReadsBack(id, 0);
    assert [Put32(id)[0]] + Leading(0) + Put32(id)[1..] == Put32(id);
    HeldIsRead(r, Iana(95), Put32(id));
    if name == [] {
      LackedIsBlank(r, |r.values|, Iana(96));
    } else {
      HeldIsRead(r, Iana(96), name);
    }
    if category == [] {
      LackedIsBlank(r, |r.values|, CATEGORY);
    } else {
      HeldIsRead(r, CATEGORY, category);
    }
  }
}
