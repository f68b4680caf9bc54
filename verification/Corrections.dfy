/** Which declared rate measured a record, as a relation on what the device
    declared rather than as a walk over it. */
module Corrections {
  import opened Uint
  import opened SamplerTables
  import opened StoreModel

  /** The element of a record that names its selection process. */
  datatype Naming = Sampler(id: u32) | Selector(id: u32) | Unnamed

  /** What a record is corrected under: the declarations of its device, its own
      domain's rate and number, and where the record came from. */
  datatype Context = Context(
    declared: Declarations, declaredZero: bool, odid: u32, samplingRate: u32,
    template: TemplateRef, inputIf: u32)

  function DomainScope(odid: u32): ScopedRef {
    ScopedRef(ScopeDomain, 0, 0, odid)
  }

  function TemplateScope(odid: u32, t: TemplateRef): ScopedRef {
    ScopedRef(ScopeTemplate, odid, t.port, t.id)
  }

  function InterfaceScope(odid: u32, inputIf: u32): ScopedRef {
    ScopedRef(ScopeInterface, odid, 0, inputIf)
  }

  /** No two scopes share a declaration: those of one kind are told apart by all
      that makes them, and no kind is taken for another. A template is its
      session's own. */
  lemma ScopesApart(o: u32, o': u32, t: TemplateRef, t': TemplateRef, i: u32, i': u32)
    ensures TemplateScope(o, t) == TemplateScope(o', t') <==> o == o' && t == t'
    ensures InterfaceScope(o, i) == InterfaceScope(o', i') <==> o == o' && i == i'
    ensures DomainScope(o) == DomainScope(o') <==> o == o'
    ensures TemplateScope(o, t) != InterfaceScope(o', i) && InterfaceScope(o, i) != DomainScope(o')
    ensures DomainScope(o) != TemplateScope(o', t)
  {
  }

  /** The rate in force for a domain: its own, one scoped to it, or the one
      every unscoped declaration of the device agrees on. */
  ghost predicate InForce(c: Context, rate: u32) {
    if c.samplingRate != 0 then rate == c.samplingRate
    else if DomainScope(c.odid) in c.declared.scoped then rate == c.declared.scoped[DomainScope(c.odid)].rate
    else IsSole(rate, c.declared.Rates())
  }

  /** The correction a record takes and whether one is still owed to it. */
  ghost predicate Corrects(c: Context, n: Naming, rate: u32, owed: bool) {
    match n
    case Sampler(id) =>
      if SamplerRef(c.odid, id) in c.declared.named then
        rate == c.declared.named[SamplerRef(c.odid, id)].rate && owed == (rate == 0)
      else if c.declared.RatesNamed(id) != {} then
        IsSole(rate, c.declared.RatesNamed(id)) && owed == (rate == 0)
      else if id == UNSAMPLED then rate == 0 && owed == c.declaredZero
      else InForce(c, rate) && owed == (rate == 0)
    case Selector(id) =>
      if SamplerRef(c.odid, id) in c.declared.named then
        rate == c.declared.named[SamplerRef(c.odid, id)].rate && owed == (rate == 0)
      else InForce(c, rate) && owed == (rate == 0)
    case Unnamed =>
      if TemplateScope(c.odid, c.template) in c.declared.scoped then
        rate == c.declared.scoped[TemplateScope(c.odid, c.template)].rate && !owed
      else if c.inputIf != 0 && InterfaceScope(c.odid, c.inputIf) in c.declared.scoped then
        rate == c.declared.scoped[InterfaceScope(c.odid, c.inputIf)].rate && !owed
      else InForce(c, rate) && owed == (rate == 0)
  }

  /** A rate some declaration gives this record: made for the identifier it
      names, in its own domain or (a samplerId only) alike in every domain that
      made one; made for its template, interface or domain; or the one rate the
      whole device agrees on. */
  ghost predicate Licensed(c: Context, n: Naming, rate: u32) {
    || (!n.Unnamed? && SamplerRef(c.odid, n.id) in c.declared.named
        && c.declared.named[SamplerRef(c.odid, n.id)].rate == rate)
    || (n.Sampler? && c.declared.RatesNamed(n.id) == {rate})
    || (n.Unnamed? && TemplateScope(c.odid, c.template) in c.declared.scoped
        && c.declared.scoped[TemplateScope(c.odid, c.template)].rate == rate)
    || (n.Unnamed? && c.inputIf != 0 && InterfaceScope(c.odid, c.inputIf) in c.declared.scoped
        && c.declared.scoped[InterfaceScope(c.odid, c.inputIf)].rate == rate)
    || c.samplingRate == rate
    || (DomainScope(c.odid) in c.declared.scoped && c.declared.scoped[DomainScope(c.odid)].rate == rate)
    || c.declared.Rates() == {rate}
  }

  /** No record is corrected by a rate the device did not tie to it, and one
      corrected is owed nothing. */
  lemma CorrectionIsLicensed(c: Context, n: Naming, rate: u32, owed: bool)
    requires Corrects(c, n, rate, owed) && rate != 0
    ensures Licensed(c, n, rate) && !owed
  {
  }

  /** The relation settles one answer, so no map order can change it. */
  lemma CorrectionIsUnique(c: Context, n: Naming, rate1: u32, owed1: bool, rate2: u32, owed2: bool)
    requires Corrects(c, n, rate1, owed1) && Corrects(c, n, rate2, owed2)
    ensures rate1 == rate2 && owed1 == owed2
  {
    if IsSole(rate1, c.declared.Rates()) && IsSole(rate2, c.declared.Rates()) {
      SoleIsUnique(rate1, rate2, c.declared.Rates());
    }
    if n.Sampler? && IsSole(rate1, c.declared.RatesNamed(n.id)) && IsSole(rate2, c.declared.RatesNamed(n.id)) {
      SoleIsUnique(rate1, rate2, c.declared.RatesNamed(n.id));
    }
  }

  /** A samplerId its own domain did not declare, and two others declared
      differently, is corrected by neither: its records are owed a rate. */
  lemma DisagreementIsOwed(c: Context, id: u32, a: SamplerRef, b: SamplerRef, rate: u32, owed: bool)
    requires Corrects(c, Sampler(id), rate, owed)
    requires SamplerRef(c.odid, id) !in c.declared.named
    requires a in c.declared.named && b in c.declared.named && a.id == b.id == id
    requires c.declared.named[a].rate != c.declared.named[b].rate
    ensures rate == 0 && owed
  {
    var rates := c.declared.RatesNamed(id);
    assert c.declared.named[a].rate in rates && c.declared.named[b].rate in rates;
  }

  /** A selectorId does not reach past its domain: what other domains declare
      under it matters only through the rate the device agrees on. */
  lemma SelectorStaysInItsDomain(c: Context, other: Declarations, id: u32, rate: u32, owed: bool)
    requires other.plain == c.declared.plain && other.scoped == c.declared.scoped
    requires other.Rates() == c.declared.Rates()
    requires forall ref: SamplerRef :: ref.odid == c.odid ==>
               (ref in other.named <==> ref in c.declared.named)
               && (ref in other.named ==> other.named[ref] == c.declared.named[ref])
    requires Corrects(c, Selector(id), rate, owed)
    ensures Corrects(c.(declared := other), Selector(id), rate, owed)
  {
    assert SamplerRef(c.odid, id).odid == c.odid;
  }
}
