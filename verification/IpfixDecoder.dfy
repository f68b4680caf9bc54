/** decodeIPFIX: one message judged whole, then applied by a walk that judges
    nothing. */
module IpfixDecoder {
  import opened Uint
  import opened Wire
  import opened Templates
  import opened Net
  import opened IpfixRecords
  import opened IpfixMessages
  import opened StoreModel
  import opened StoreInvariants
  import opened TemplateStores
  import opened OptionsRecords
  import opened SamplerTables
  import opened Sequences
  import IpfixTemplates

  /** A step of the decoder on a domain this datagram has already opened. */
  ghost predicate Ready(store: TemplateStore, key: DomainKey, now: int)
    reads store
  {
    store.Valid() && store.clock == now && key in store.domains && store.domains[key].lastSeen == now
  }

  ghost function SightOf(v: Domains, key: DomainKey, port: u16, now: int, ttl: int): Sight
    requires key in v
  {
    Sight(v[key].templates, port, now, ttl)
  }

  // ---- Registering templates -------------------------------------------------------

  /** registerTemplate. */
  method RegisterTemplate(store: TemplateStore, key: DomainKey, port: u16, a: Announcement, now: int)
    returns (taken: bool)
    requires Ready(store, key, now)
    requires Effect(a).Some? ==> WellFormed(key.proto, Effect(a).value)
    modifies store
    ensures Ready(store, key, now)
    ensures taken <==> Effect(a).Some?
                       && Takes(ShelfOf(old(store.domains), key), Used(old(store.domains), key.exporter),
                                TemplateRef(port, a.id), Effect(a).value, now, store.ttl)
    ensures RegisterStep(old(store.domains), store.domains, key, TemplateRef(port, a.id),
                         if taken then Effect(a) else None, now, store.ttl)
    ensures ShelfOf(store.domains, key) ==
            Registered(ShelfOf(old(store.domains), key), Used(old(store.domains), key.exporter), port, a, now,
                store.ttl)
    ensures TablesKept(old(store.samplerTables), old(store.tables), store.samplerTables, store.tables)
  {
    hide Sound, AddStep, WithdrawStep, TablesKept, WellFormed, Used, Registered, LookUp, StoreModel.Announced, Takes;
    RegisteredBy(ShelfOf(store.domains, key), Used(store.domains, key.exporter), port, a, now, store.ttl);
    ghost var v := store.domains;
    if a.layout.None? || !a.layout.value.FitsASet() {
      NothingChanged(store.samplerTables, store.tables);
      store.Withdraw(key, port, a.id);
      WithdrawRegisters(v, store.domains, key, TemplateRef(port, a.id), now, store.ttl);
      WithdrawLeaves(v, store.domains, key, TemplateRef(port, a.id));
      return false;
    }
    taken := store.Add(key, port, a.id, a.layout.value, now);
    AddRegisters(v, store.domains, key, TemplateRef(port, a.id), a.layout.value, now, store.ttl, taken);
    AddLeaves(v, store.domains, key, TemplateRef(port, a.id), a.layout.value, now, store.ttl, taken);
  }

  lemma RegisteredBy(ts: Shelf, used: int, port: u16, a: Announcement, now: int, ttl: int)
    ensures Registered(ts, used, port, a, now, ttl) ==
            if Effect(a).None? then ts - {TemplateRef(port, a.id)}
            else StoreModel.Announced(ts, used, TemplateRef(port, a.id), Effect(a).value, now, ttl)
  {
  }

  lemma WithdrawLeaves(v: Domains, v': Domains, key: DomainKey, ref: TemplateRef)
    requires key in v && WithdrawStep(v, v', key, ref)
    ensures ShelfOf(v', key) == ShelfOf(v, key) - {ref}
  {
  }

  lemma AddLeaves(v: Domains, v': Domains, key: DomainKey, ref: TemplateRef, t: Template, now: int, ttl: int, ok: bool)
    requires key in v && AddStep(v, v', key, ref, t, now, ttl, ok)
    ensures ShelfOf(v', key) == StoreModel.Announced(ShelfOf(v, key), Used(v, key.exporter), ref, t, now, ttl)
    ensures ok == Takes(ShelfOf(v, key), Used(v, key.exporter), ref, t, now, ttl)
  {
    hide Dues, StoreModel.Announced, Takes, DueTo;
  }

  /** A device's charge moves by what its domain came to hold. */
  lemma UsedMoves(v: Domains, w: Domains, key: DomainKey)
    requires TemplatesMoved(v, w, key)
    ensures Used(w, key.exporter) == Charged(Used(v, key.exporter), ShelfOf(v, key), ShelfOf(w, key))
  {
    hide Dues, FieldCount, DueTo;
    DuePut(v, key, w[key], key.exporter);
  }

  lemma RegisterAgrees(judged: Sight, ahead: Announcements, v: Domains, v': Domains, key: DomainKey,
                       port: u16, a: Announcement, taken: bool, now: int, ttl: int)
    requires taken ==> Effect(a).Some?
    requires RegisterStep(v, v', key, TemplateRef(port, a.id), if taken then Effect(a) else None, now, ttl)
    requires Agrees(judged, ahead, SightOf(v, key, port, now, ttl))
    ensures key in v' && Agrees(judged, ahead[a.id := Effect(a)], SightOf(v', key, port, now, ttl))
  {
    hide LookUp;
    var found, found' := SightOf(v, key, port, now, ttl), SightOf(v', key, port, now, ttl);
    forall id: u16 | id != a.id
      ensures found'.Sees(id) == found.Sees(id)
    {
      assert TemplateRef(port, id) != TemplateRef(port, a.id);
    }
    assert found'.Sees(a.id) == if taken then Effect(a) else None;
    AnnouncementAgrees(judged, ahead, found, a, found');
  }

  /** One domain moved by a run of template steps. */
  ghost predicate TemplatesMoved(v: Domains, v': Domains, key: DomainKey) {
    key in v && key in v' && v' == v[key := v'[key]] && OnlyTemplates(v[key], v'[key])
  }

  ghost predicate EffectsFit(proto: Protocol, anns: seq<Announcement>) {
    forall i :: 0 <= i < |anns| && Effect(anns[i]).Some? ==> WellFormed(proto, Effect(anns[i]).value)
  }

  /** The announcements of one set, registered in order. */
  method RegisterAll(store: TemplateStore, key: DomainKey, port: u16, anns: seq<Announcement>, now: int,
                     ghost judged: Sight, ghost ahead: Announcements)
    returns (issues: seq<Reason>)
    requires Ready(store, key, now) && EffectsFit(key.proto, anns)
    requires Agrees(judged, ahead, SightOf(store.domains, key, port, now, store.ttl))
    modifies store
    ensures Ready(store, key, now)
    ensures Agrees(judged, Fold(ahead, anns), SightOf(store.domains, key, port, now, store.ttl))
    ensures TemplatesMoved(old(store.domains), store.domains, key)
    ensures ShelfOf(store.domains, key) ==
            RegisteredAll(ShelfOf(old(store.domains), key), Used(old(store.domains), key.exporter), port, anns, now,
                store.ttl)
    ensures TablesKept(old(store.samplerTables), old(store.tables), store.samplerTables, store.tables)
    ensures issues ==
            Refusals(ShelfOf(old(store.domains), key), Used(old(store.domains), key.exporter), port, anns, now,
                     store.ttl)
  {
    hide Sound, TablesKept, Agrees, WellFormed, Ready, RegisterStep, Registered, Charged, Used, Takes, Effect;
    ghost var v, n, t := store.domains, store.samplerTables, store.tables;
    NothingChanged(n, t);
    issues := [];
    assert anns[..0] == [];
    ReadyHolds(store, key, now);
    MovedNowhere(v, key);
    for i := 0 to |anns|
      invariant Ready(store, key, now) && key in store.domains
      invariant Agrees(judged, Fold(ahead, anns[..i]), SightOf(store.domains, key, port, now, store.ttl))
      invariant TemplatesMoved(v, store.domains, key)
      invariant ShelfOf(store.domains, key) ==
                RegisteredAll(ShelfOf(v, key), Used(v, key.exporter), port, anns[..i], now, store.ttl)
      invariant TablesKept(n, t, store.samplerTables, store.tables)
      invariant issues == Refusals(ShelfOf(v, key), Used(v, key.exporter), port, anns[..i], now, store.ttl)
    {
      ghost var w, n1, t1 := store.domains, store.samplerTables, store.tables;
      UsedMoves(v, w, key);
      RegisteredOneMore(ShelfOf(v, key), Used(v, key.exporter), port, anns[..i], anns[i], now, store.ttl);
      RefusedOneMore(ShelfOf(v, key), Used(v, key.exporter), port, anns[..i], anns[i], now, store.ttl);
      var taken := RegisterTemplate(store, key, port, anns[i], now);
      TablesKeptOn(n, t, n1, t1, store.samplerTables, store.tables);
      RegisterAgrees(judged, Fold(ahead, anns[..i]), w, store.domains, key, port, anns[i], taken, now, store.ttl);
      FoldAppend(ahead, anns[..i], anns[i]);
      assert anns[..i + 1] == anns[..i] + [anns[i]];
      MovedOn(v, w, store.domains, key, port, anns[i], if taken then Effect(anns[i]) else None, now, store.ttl);
      if !taken {
        issues := issues + [InvalidTemplate];
      }
    }
    assert anns[..|anns|] == anns;
  }

  /** One IPFIX template set of either kind. */
  method ApplyTemplateSet(store: TemplateStore, key: DomainKey, port: u16, s: WireSet, now: int,
                          ghost judged: Sight, ghost ahead: Announcements)
    returns (issues: seq<Reason>)
    requires Ready(store, key, now) && key.proto == Ipfix && s.Announces()
    requires Agrees(judged, ahead, SightOf(store.domains, key, port, now, store.ttl))
    modifies store
    ensures Ready(store, key, now)
    ensures Agrees(judged, After(ahead, s, store.maxFields), SightOf(store.domains, key, port, now, store.ttl))
    ensures TemplatesMoved(old(store.domains), store.domains, key)
    ensures ShelfOf(store.domains, key) ==
            RegisteredAll(ShelfOf(old(store.domains), key), Used(old(store.domains), key.exporter), port,
                          AnnouncedIn(s, store.maxFields), now, store.ttl)
    ensures TablesKept(old(store.samplerTables), old(store.tables), store.samplerTables, store.tables)
    ensures issues == Refusals(ShelfOf(old(store.domains), key), Used(old(store.domains), key.exporter), port,
                               AnnouncedIn(s, store.maxFields), now, store.ttl)
  {
    hide RegisteredAll, Refusals, Used;
    hide Ready, Agrees, TemplatesMoved, Fold, WellFormed, Effect, TablesKept;
    ReadyHolds(store, key, now);
    var anns: seq<Announcement>;
    if s.id == TEMPLATE_SET {
      anns := IpfixTemplates.ParseIpfixTemplates(s.body, store.maxFields);
    } else {
      anns := IpfixTemplates.ParseIpfixOptionsTemplates(s.body, store.maxFields);
    }
    forall i | 0 <= i < |anns|
      ensures Effect(anns[i]).Some? ==> WellFormed(Ipfix, Effect(anns[i]).value)
    {
      EffectIsWellFormed(s, store.maxFields, i);
    }
    issues := RegisterAll(store, key, port, anns, now, judged, ahead);
  }

  lemma ReadyHolds(store: TemplateStore, key: DomainKey, now: int)
    requires Ready(store, key, now)
    ensures key in store.domains
  {
  }

  lemma MovedNowhere(v: Domains, key: DomainKey)
    requires key in v
    ensures TemplatesMoved(v, v, key)
  {
    assert v[key := v[key]] == v;
  }

  lemma MovedOn(v: Domains, w: Domains, x: Domains, key: DomainKey, port: u16, a: Announcement,
                found: Option<Template>, now: int, ttl: int)
    requires TemplatesMoved(v, w, key)
    requires RegisterStep(w, x, key, TemplateRef(port, a.id), found, now, ttl)
    ensures TemplatesMoved(v, x, key)
  {
    hide LookUp;
    assert v[key := w[key]][key := x[key]] == v[key := x[key]];
  }

  // ---- The length check ----------------------------------------------------------------

  /** Looking a template up again at the instant its domain was seen changes
      nothing. */
  method Look(store: TemplateStore, key: DomainKey, port: u16, id: u16, now: int) returns (t: Option<Template>)
    requires Ready(store, key, now)
    modifies store
    ensures Ready(store, key, now)
    ensures store.domains == old(store.domains)
    ensures t == SightOf(store.domains, key, port, now, store.ttl).Sees(id)
    ensures t.Some? ==> WellFormed(key.proto, t.value)
    ensures TablesKept(old(store.samplerTables), old(store.tables), store.samplerTables, store.tables)
  {
    hide Sound, TablesKept, WellFormed, SeenStep;
    ghost var v := store.domains;
    t := store.Lookup(key, port, id, now);
    SeenAgain(v, store.domains, key, now);
  }

  /** Whether one set passes, as checkIPFIXLengths judges it. */
  method CheckSet(store: TemplateStore, key: DomainKey, port: u16, s: WireSet, announced: Announcements, now: int)
    returns (passes: bool)
    requires Ready(store, key, now) && key.proto == Ipfix && AllWellFormed(announced)
    modifies store
    ensures Ready(store, key, now) && store.domains == old(store.domains)
    ensures passes <==> SetPasses(SightOf(store.domains, key, port, now, store.ttl), announced, s)
    ensures TablesKept(old(store.samplerTables), old(store.tables), store.samplerTables, store.tables)
  {
    hide Sound, TablesKept, WellFormed, Ready, WholeRecords, Walkable, LookUp;
    ReadyHolds(store, key, now);
    NothingChanged(store.samplerTables, store.tables);
    if !s.IsData() {
      return true;
    }
    var t: Option<Template>;
    if s.id in announced {
      t := announced[s.id];
    } else {
      t := Look(store, key, port, s.id, now);
    }
    if t.None? {
      return true;
    }
    WellFormedWalks(t.value);
    passes := HoldsRecords(t.value, s.body);
  }

  lemma {:induction false} AheadPrefix(sets: seq<WireSet>, s: WireSet, n: nat, maxFields: nat)
    requires n <= |sets|
    ensures Ahead(sets + [s], n, maxFields) == Ahead(sets, n, maxFields)
  {
    if n > 0 {
      AheadPrefix(sets, s, n - 1, maxFields);
      assert (sets + [s])[n - 1] == sets[n - 1];
    }
  }

  /** Every set read so far passes. */
  ghost predicate AllPass(sight: Sight, sets: seq<WireSet>, maxFields: nat) {
    forall i :: 0 <= i < |sets| ==> SetPasses(sight, Ahead(sets, i, maxFields), sets[i])
  }

  lemma AllPassExtends(sight: Sight, sets: seq<WireSet>, s: WireSet, maxFields: nat)
    ensures AllPass(sight, sets + [s], maxFields) <==>
              AllPass(sight, sets, maxFields) && SetPasses(sight, Ahead(sets, |sets|, maxFields), s)
    ensures Ahead(sets + [s], |sets| + 1, maxFields) == After(Ahead(sets, |sets|, maxFields), s, maxFields)
  {
    hide SetPasses, After;
    var all := sets + [s];
    AheadPrefix(sets, s, |sets|, maxFields);
    assert all[|sets|] == s;
    forall i | 0 <= i < |sets|
      ensures all[i] == sets[i] && Ahead(all, i, maxFields) == Ahead(sets, i, maxFields)
    {
      AheadPrefix(sets, s, i, maxFields);
    }
    if AllPass(sight, all, maxFields) {
      forall i | 0 <= i < |sets|
        ensures SetPasses(sight, Ahead(sets, i, maxFields), sets[i])
      {
        assert SetPasses(sight, Ahead(all, i, maxFields), all[i]);
      }
    }
  }

  /** The announcements of one set folded in, as the check's announce does. */
  method Collect(s: WireSet, announced: Announcements, maxFields: nat) returns (after: Announcements)
    requires AllWellFormed(announced)
    ensures after == After(announced, s, maxFields) && AllWellFormed(after)
  {
    after := announced;
    if !s.Announces() {
      return;
    }
    var anns: seq<Announcement>;
    if s.id == TEMPLATE_SET {
      anns := IpfixTemplates.ParseIpfixTemplates(s.body, maxFields);
    } else {
      anns := IpfixTemplates.ParseIpfixOptionsTemplates(s.body, maxFields);
    }
    assert anns[..0] == [];
    for i := 0 to |anns|
      invariant after == Fold(announced, anns[..i])
    {
      FoldAppend(announced, anns[..i], anns[i]);
      assert anns[..i + 1] == anns[..i] + [anns[i]];
      after := after[anns[i].id := Effect(anns[i])];
    }
    assert anns[..|anns|] == anns;
    FoldWellFormed(announced, s, maxFields, |anns|);
  }

  /** The judging walk of checkIPFIXLengths. The first failure settles the
      verdict; announcements are gathered on up to the first broken length. */
  method JudgeMessage(store: TemplateStore, key: DomainKey, port: u16, msg: Bytes, now: int)
    returns (accepted: bool, announced: Announcements)
    requires Ready(store, key, now) && key.proto == Ipfix
    modifies store
    ensures Ready(store, key, now) && store.domains == old(store.domains)
    ensures TablesKept(old(store.samplerTables), old(store.tables), store.samplerTables, store.tables)
    ensures accepted <==> Accepts(SightOf(store.domains, key, port, now, store.ttl), Sets(msg), store.maxFields)
    ensures announced == Ahead(Sets(msg).sets, |Sets(msg).sets|, store.maxFields) && AllWellFormed(announced)
  {
    hide Sound, TablesKept, WellFormed, Ready, SetPasses, After, AllPass, Sight.Sees, SetAt, Ahead;
    ReadyHolds(store, key, now);
    ghost var v, n, t := store.domains, store.samplerTables, store.tables;
    ghost var sight := SightOf(v, key, port, now, store.ttl);
    NothingChanged(n, t);
    accepted, announced := true, map[];
    var offset: nat := HEADER;
    ghost var sets: seq<WireSet> := [];
    NothingAhead(sight, store.maxFields);
    while offset + SET_HEADER <= |msg|
      invariant Ready(store, key, now) && store.domains == v
      invariant TablesKept(n, t, store.samplerTables, store.tables)
      invariant SetsFrom(msg, offset, sets) == Sets(msg)
      invariant AllWellFormed(announced) && announced == Ahead(sets, |sets|, store.maxFields)
      invariant accepted <==> AllPass(sight, sets, store.maxFields)
      decreases |msg| - offset
    {
      var setLen := Be16(msg, offset + 2);
      if setLen < SET_HEADER || offset + setLen > |msg| {
        return false, announced;
      }
      var s := SetAt(msg, offset);
      ghost var n1, t1 := store.samplerTables, store.tables;
      ghost var ahead := announced;
      AllPassExtends(sight, sets, s, store.maxFields);
      if accepted {
        accepted := CheckSet(store, key, port, s, announced, now);
        TablesKeptOn(n, t, n1, t1, store.samplerTables, store.tables);
      }
      announced := Collect(s, announced, store.maxFields);
      sets := sets + [s];
      offset := offset + setLen;
    }
    AcceptsAll(sight, sets, store.maxFields);
  }

  lemma NothingAhead(sight: Sight, maxFields: nat)
    ensures Ahead([], 0, maxFields) == map[] && AllPass(sight, [], maxFields)
  {
  }

  lemma AcceptsAll(sight: Sight, sets: seq<WireSet>, maxFields: nat)
    ensures Accepts(sight, Framed(sets, true), maxFields) <==> AllPass(sight, sets, maxFields)
  {
  }

  // ---- Rejection ------------------------------------------------------------------------

  /** A rejected message takes nothing in and withdraws exactly the ids it
      redefined: of what the domain could decode with, each other template
      stays as it was. */
  ghost predicate RejectStep(v: Domains, v': Domains, key: DomainKey, sight: Sight, announced: Announcements) {
    && TemplatesMoved(v, v', key)
    && v'[key].templates ==
       map ref | ref in v[key].templates && !(ref.port == sight.port && Redefined(sight, announced, ref.id))
         :: v[key].templates[ref]
  }

  ghost function KeptSoFar(ts: Shelf, sight: Sight, announced: Announcements, todo: set<u16>): Shelf {
    map ref | ref in ts && (ref.port != sight.port || ref.id in todo || !Redefined(sight, announced, ref.id)) :: ts[ref]
  }

  /** One id of the withdrawing loop. */
  lemma WithdrawOne(ts: Shelf, sight: Sight, announced: Announcements, todo: set<u16>, id: u16)
    requires id in todo && sight.ts == ts
    ensures KeptSoFar(ts, sight, announced, todo - {id}) ==
            if Redefined(sight, announced, id) then KeptSoFar(ts, sight, announced, todo) - {TemplateRef(sight.port,
                id)}
            else KeptSoFar(ts, sight, announced, todo)
    ensures LookUp(KeptSoFar(ts, sight, announced, todo), TemplateRef(sight.port, id), sight.now,
        sight.ttl) == sight.Sees(id)
  {
    hide Redefined;
  }

  lemma KeptAll(ts: Shelf, sight: Sight, announced: Announcements)
    ensures KeptSoFar(ts, sight, announced, announced.Keys) == ts
  {
  }

  /** The withdrawing loop of checkIPFIXLengths, in any order of the ids. */
  method WithdrawRedefined(store: TemplateStore, key: DomainKey, port: u16, announced: Announcements, now: int)
    requires Ready(store, key, now)
    modifies store
    ensures Ready(store, key, now)
    ensures RejectStep(old(store.domains), store.domains, key,
                       SightOf(old(store.domains), key, port, now, store.ttl), announced)
    ensures TablesKept(old(store.samplerTables), old(store.tables), store.samplerTables, store.tables)
  {
    hide Sound, TablesKept, WellFormed, Ready, KeptSoFar, Redefined, LookUp;
    ReadyHolds(store, key, now);
    ghost var v, n, t := store.domains, store.samplerTables, store.tables;
    ghost var sight := SightOf(v, key, port, now, store.ttl);
    NothingChanged(n, t);
    MovedNowhere(v, key);
    KeptAll(v[key].templates, sight, announced);
    var todo := announced.Keys;
    while todo != {}
      invariant todo <= announced.Keys
      invariant Ready(store, key, now) && TemplatesMoved(v, store.domains, key)
      invariant store.domains[key].templates == KeptSoFar(v[key].templates, sight, announced, todo)
      invariant TablesKept(n, t, store.samplerTables, store.tables)
      decreases |todo|
    {
      var id :| id in todo;
      ghost var n1, t1, w := store.samplerTables, store.tables, store.domains;
      WithdrawOne(v[key].templates, sight, announced, todo, id);
      todo := todo - {id};
      var held := Look(store, key, port, id, now);
      TablesKeptOn(n, t, n1, t1, store.samplerTables, store.tables);
      RedefinedMeans(sight, announced, id);
      if held.Some? && (announced[id].None? || !held.value.SameLayout(announced[id].value)) {
        WithdrawNow(store, key, port, id, now);
        MovedByWithdrawal(v, w, store.domains, key, TemplateRef(port, id));
      }
    }
    KeptNone(v[key].templates, sight, announced);
  }

  lemma RedefinedMeans(sight: Sight, announced: Announcements, id: u16)
    requires id in announced
    ensures Redefined(sight, announced, id) <==>
              sight.Sees(id).Some? && (announced[id].None? || !sight.Sees(id).value.SameLayout(announced[id].value))
  {
  }

  lemma KeptNone(ts: Shelf, sight: Sight, announced: Announcements)
    ensures KeptSoFar(ts, sight, announced, {}) ==
            map ref | ref in ts && !(ref.port == sight.port && Redefined(sight, announced, ref.id)) :: ts[ref]
  {
  }

  method WithdrawNow(store: TemplateStore, key: DomainKey, port: u16, id: u16, now: int)
    requires Ready(store, key, now)
    modifies store
    ensures Ready(store, key, now)
    ensures WithdrawStep(old(store.domains), store.domains, key, TemplateRef(port, id))
    ensures store.samplerTables == old(store.samplerTables) && store.tables == old(store.tables)
  {
    hide Sound;
    store.Withdraw(key, port, id);
  }

  lemma MovedByWithdrawal(v: Domains, w: Domains, x: Domains, key: DomainKey, ref: TemplateRef)
    requires TemplatesMoved(v, w, key) && WithdrawStep(w, x, key, ref)
    ensures TemplatesMoved(v, x, key)
  {
    assert v[key := w[key]][key := x[key]] == v[key := x[key]];
  }

  /** The templates a sound store can look up are well formed. */
  lemma StoredWellFormed(store: TemplateStore, key: DomainKey, port: u16, now: int)
    requires Ready(store, key, now) && key.proto == Ipfix
    ensures key in store.domains && SeesWellFormed(SightOf(store.domains, key, port, now, store.ttl))
  {
    hide Sound, WellFormed, Counted;
    LiveDomain(store.domains, store.perExporter, store.budgets, store.samplerTables, store.tables, store.nextCell,
               store.clock, key);
  }

  lemma RejectWithdraws(v: Domains, v': Domains, key: DomainKey, port: u16, now: int, ttl: int,
                        announced: Announcements)
    requires key in v && SeesWellFormed(SightOf(v, key, port, now, ttl)) && AllWellFormed(announced)
    requires RejectStep(v, v', key, SightOf(v, key, port, now, ttl), announced)
    ensures key in v' && Withdrawn(SightOf(v, key, port, now, ttl), announced, SightOf(v', key, port, now, ttl))
  {
    hide WellFormed, Redefined;
    var sight, found := SightOf(v, key, port, now, ttl), SightOf(v', key, port, now, ttl);
    forall id: u16
      ensures found.Sees(id) == if id in announced && announced[id] != sight.Sees(id) then None else sight.Sees(id)
    {
      RedefinedIsOther(sight, announced, id);
    }
  }

  /** checkIPFIXLengths. */
  method CheckIpfixLengths(store: TemplateStore, key: DomainKey, port: u16, msg: Bytes,
                           now: int) returns (accepted: bool)
    requires Ready(store, key, now) && key.proto == Ipfix
    modifies store
    ensures Ready(store, key, now)
    ensures var sight := SightOf(old(store.domains), key, port, now, store.ttl);
            var framed := Sets(msg);
            && (accepted <==> Accepts(sight, framed, store.maxFields))
            && (accepted ==> store.domains == old(store.domains))
            && (!accepted ==>
                 var announced := Ahead(framed.sets, |framed.sets|, store.maxFields);
                 && RejectStep(old(store.domains), store.domains, key, sight, announced)
                 && Withdrawn(sight, announced, SightOf(store.domains, key, port, now, store.ttl)))
    ensures TablesKept(old(store.samplerTables), old(store.tables), store.samplerTables, store.tables)
  {
    hide Sound, TablesKept, WellFormed, Ready, Accepts, RejectStep, Ahead, SetsFrom, SeesWellFormed, Withdrawn;
    hide AllWellFormed;
    StoredWellFormed(store, key, port, now);
    ghost var n, t, v := store.samplerTables, store.tables, store.domains;
    var announced;
    accepted, announced := JudgeMessage(store, key, port, msg, now);
    if !accepted {
      ghost var n1, t1 := store.samplerTables, store.tables;
      WithdrawRedefined(store, key, port, announced, now);
      TablesKeptOn(n, t, n1, t1, store.samplerTables, store.tables);
      RejectWithdraws(v, store.domains, key, port, now, store.ttl, announced);
    }
  }

  // ---- The applying walk -------------------------------------------------------------------

  /** One decoded data record: the template it arrived under and its values. */
  datatype FlowRecord = FlowRecord(template: TemplateRef, fields: seq<TemplateField>, values: seq<Bytes>)

  function FlowRecords(ref: TemplateRef, t: Template, records: seq<seq<Bytes>>): (r: seq<FlowRecord>)
    ensures t.options ==> r == []
    ensures !t.options ==>
              |r| == |records| && forall i :: 0 <= i < |r| ==> r[i] == FlowRecord(ref, t.fields, records[i])
  {
    if t.options then [] else seq(|records|, i requires 0 <= i < |records| => FlowRecord(ref, t.fields, records[i]))
  }

  /** What the data records of the sets come to, given the template each data
      set was found to have: nothing for a set that found none. */
  datatype Taken = Taken(records: seq<FlowRecord>, count: nat, complete: bool)

  ghost function TakenFrom(s: WireSet, port: u16, used: Option<Template>): Taken {
    if s.Announces() then Taken([], 0, true)
    else if !s.IsData() || used.None? || !Walkable(used.value) then Taken([], 0, false)
    else
      var records := Records(used.value, s.body).records;
      Taken(FlowRecords(TemplateRef(port, s.id), used.value, records), |records|, true)
  }

  ghost function TakenBy(sets: seq<WireSet>, port: u16, used: seq<Option<Template>>, n: nat): Taken
    requires n <= |sets| && n <= |used|
  {
    if n == 0 then Taken([], 0, true)
    else
      var before, one := TakenBy(sets, port, used, n - 1), TakenFrom(sets[n - 1], port, used[n - 1]);
      Taken(before.records + one.records, before.count + one.count, before.complete && one.complete)
  }

  /** Each data set was decoded with the template the check judged it by, whole,
      or not at all. */
  ghost predicate AsJudged(sight: Sight, sets: seq<WireSet>, used: seq<Option<Template>>, n: nat, maxFields: nat)
    requires n <= |sets| && n <= |used|
  {
    forall i :: 0 <= i < n && sets[i].IsData() && used[i].Some? ==>
      used[i] == Judged(sight, Ahead(sets, i, maxFields), sets[i].id) && HoldsWhole(used[i].value, sets[i].body)
  }

  /** Sampling declarations move the domain's own rate and nothing else of it. */
  ghost predicate OnlyRate(v: Domains, v': Domains, key: DomainKey) {
    && key in v && key in v' && v' == v[key := v'[key]]
    && v'[key] == v[key].(samplingRate := v'[key].samplingRate)
  }

  /** What a domain declares after the first n of these options records. */
  ghost function CommittedAll(s: Sampling, key: DomainKey, port: u16, t: Template, records: seq<seq<Bytes>>, n: nat,
                              at: int): Sampling
    requires n <= |records|
  {
    if n == 0 then s
    else
      var before, values := CommittedAll(s, key, port, t, records, n - 1, at), records[n - 1];
      if |values| != |t.fields| then before
      else Committed(before, ReadUpTo(key.proto, t, values, |values|), key, port, at)
  }

  /** What it declares after one set, given the template the set was found to
      have: data records and sets with no template declare nothing. */
  ghost function CommittedSet(s: Sampling, key: DomainKey, port: u16, ws: WireSet, used: Option<Template>,
                              at: int): Sampling
  {
    if !ws.IsData() || used.None? || !Walkable(used.value) || !used.value.options then s
    else
      var records := Records(used.value, ws.body).records;
      CommittedAll(s, key, port, used.value, records, |records|, at)
  }

  /** And after the sets used tells the templates of. */
  ghost function CommittedBy(s: Sampling, key: DomainKey, port: u16, sets: seq<WireSet>,
                             used: seq<Option<Template>>, at: int): Sampling
    requires |used| <= |sets|
    decreases |used|
  {
    if used == [] then s
    else
      var n := |used| - 1;
      CommittedSet(CommittedBy(s, key, port, sets, used[..n], at), key, port, sets[n], used[n], at)
  }

  lemma CommittedOneMore(s: Sampling, key: DomainKey, port: u16, sets: seq<WireSet>, used: seq<Option<Template>>,
                         found: Option<Template>, at: int)
    requires |used| < |sets|
    ensures CommittedBy(s, key, port, sets, used + [found], at) ==
            CommittedSet(CommittedBy(s, key, port, sets, used, at), key, port, sets[|used|], found, at)
  {
    assert (used + [found])[..|used|] == used;
  }

  /** The application strings the first n of these options records hand on. */
  function HandedAll(proto: Protocol, t: Template, records: seq<seq<Bytes>>, n: nat): seq<AppString>
    requires n <= |records|
  {
    if n == 0 then []
    else
      var before, values := HandedAll(proto, t, records, n - 1), records[n - 1];
      if |values| != |t.fields| then before
      else before + AppStrings(ReadUpTo(proto, t, values, |values|))
  }

  ghost function HandedSet(proto: Protocol, ws: WireSet, used: Option<Template>): seq<AppString> {
    if !ws.IsData() || used.None? || !Walkable(used.value) || !used.value.options then []
    else
      var records := Records(used.value, ws.body).records;
      HandedAll(proto, used.value, records, |records|)
  }

  ghost function HandedBy(proto: Protocol, sets: seq<WireSet>, used: seq<Option<Template>>): seq<AppString>
    requires |used| <= |sets|
    decreases |used|
  {
    if used == [] then []
    else
      var n := |used| - 1;
      HandedBy(proto, sets, used[..n]) + HandedSet(proto, sets[n], used[n])
  }

  lemma HandedOneMore(proto: Protocol, sets: seq<WireSet>, used: seq<Option<Template>>, found: Option<Template>)
    requires |used| < |sets|
    ensures HandedBy(proto, sets, used + [found]) ==
            HandedBy(proto, sets, used) + HandedSet(proto, sets[|used|], found)
  {
    assert (used + [found])[..|used|] == used;
  }

  /** Registering templates declares nothing. */
  lemma TemplatesDeclareNothing(v: Domains, n: TableNames, t: Tables, v': Domains, n': TableNames, t': Tables,
                                key: DomainKey)
    requires TemplatesMoved(v, v', key) && TablesKept(n, t, n', t')
    requires TableOf(key) in n && v[key].declared == n[TableOf(key)] && v[key].declared in t
    ensures SamplingOf(v', t', key) == SamplingOf(v, t, key)
    ensures OnlyTable(n, t, n', t', TableOf(key))
  {
  }

  lemma ReadyTable(store: TemplateStore, key: DomainKey, now: int)
    requires Ready(store, key, now)
    ensures key in store.domains && TableOf(key) in store.samplerTables
    ensures store.domains[key].declared == store.samplerTables[TableOf(key)]
        && store.domains[key].declared in store.tables
  {
    hide Sound;
    LiveDomain(store.domains, store.perExporter, store.budgets, store.samplerTables, store.tables, store.nextCell,
        store.clock, key);
  }

  /** The options records of one set, committed in order. */
  method CommitAll(store: TemplateStore, key: DomainKey, port: u16, t: Template, records: seq<seq<Bytes>>, now: int)
    returns (handed: seq<AppString>)
    requires Ready(store, key, now)
    requires forall r :: r in records ==> |r| == |t.fields|
    modifies store
    ensures Ready(store, key, now)
    ensures OnlyRate(old(store.domains), store.domains, key)
    ensures OnlyTable(old(store.samplerTables), old(store.tables), store.samplerTables, store.tables, TableOf(key))
    ensures SamplingOf(store.domains, store.tables, key) ==
            CommittedAll(SamplingOf(old(store.domains), old(store.tables), key), key, port, t, records, |records|, now)
    ensures handed == HandedAll(key.proto, t, records, |records|)
  {
    hide AppStrings;
    hide Sound, ReadUpTo, SamplingRate, TargetOf, DeclareStep, ScopedStep, OnlyTable, SamplingOf, Committed, TablesKept;
    ghost var v, n, w := store.domains, store.samplerTables, store.tables;
    ghost var s := SamplingOf(v, w, key);
    assert v[key].(samplingRate := v[key].samplingRate) == v[key] && v[key := v[key]] == v;
    handed := [];
    NothingChanged(n, w);
    KeptIsOnly(n, w, n, w, TableOf(key));
    for i := 0 to |records|
      invariant Ready(store, key, now) && OnlyRate(v, store.domains, key)
      invariant OnlyTable(n, w, store.samplerTables, store.tables, TableOf(key))
      invariant SamplingOf(store.domains, store.tables, key) == CommittedAll(s, key, port, t, records, i, now)
      invariant handed == HandedAll(key.proto, t, records, i)
    {
      assert records[i] in records;
      ghost var n1, w1 := store.samplerTables, store.tables;
      var o := ReadOptions(key.proto, t, records[i]);
      var ok, strings := Commit(store, key, port, o);
      handed := handed + strings;
      OnlyTableOn(n, w, n1, w1, store.samplerTables, store.tables, TableOf(key));
    }
  }

  lemma {:induction false} RecordsHaveFields(t: Template, data: Bytes, offset: nat, read: seq<seq<Bytes>>)
    requires Walkable(t) && forall r :: r in read ==> |r| == |t.fields|
    ensures forall r :: r in RecordsFrom(t, data, offset, read).records ==> |r| == |t.fields|
    decreases |data| - offset
  {
    if |data| - offset >= t.recordLen {
      WalkAdvances(t.fields, data, offset, []);
      match WalkFields(t.fields, data, offset, [])
      case Broken =>
      case Walked(values, next) => RecordsHaveFields(t, data, next, read + [values]);
    }
  }

  /** decodeIPFIXDataSet. Its walk abandons a set on a record it cannot read,
      which the agreement with the check rules out. */
  method DecodeDataSet(store: TemplateStore, key: DomainKey, port: u16, s: WireSet, now: int,
                       ghost judged: Sight, ghost ahead: Announcements)
    returns (used: Option<Template>, records: seq<seq<Bytes>>, walked: bool, handed: seq<AppString>)
    requires Ready(store, key, now) && key.proto == Ipfix && s.IsData()
    requires Agrees(judged, ahead, SightOf(store.domains, key, port, now, store.ttl))
    requires SetPasses(judged, ahead, s)
    modifies store
    ensures Ready(store, key, now)
    ensures OnlyRate(old(store.domains), store.domains, key)
    ensures OnlyTable(old(store.samplerTables), old(store.tables), store.samplerTables, store.tables, TableOf(key))
    ensures SamplingOf(store.domains, store.tables, key) ==
            CommittedSet(SamplingOf(old(store.domains), old(store.tables), key), key, port, s, used, now)
    ensures used == SightOf(old(store.domains), key, port, now, store.ttl).Sees(s.id)
    ensures used.Some? ==>
              && walked && used == Judged(judged, ahead, s.id) && HoldsWhole(used.value, s.body)
              && Decoded(records, true) == Records(used.value, s.body)
    ensures used.None? ==> records == [] && walked
    ensures handed == HandedSet(key.proto, s, used)
  {
    hide Sound, TablesKept, WellFormed, Ready, WholeRecords, LookUp, RecordsFrom, OnlyRate, MinLength;
    hide OnlyTable, SamplingOf, CommittedAll, TemplatesMoved, HandedAll;
    ReadyTable(store, key, now);
    ghost var v, n, t := store.domains, store.samplerTables, store.tables;
    RateNowhere(v, key);
    MovedNowhere(v, key);
    handed := [];
    used := Look(store, key, port, s.id, now);
    TemplatesDeclareNothing(v, n, t, store.domains, store.samplerTables, store.tables, key);
    if used.None? {
      return used, [], true, [];
    }
    JudgedSetsDecode(judged, ahead, SightOf(v, key, port, now, store.ttl), s);
    AgreedIsJudged(judged, ahead, SightOf(v, key, port, now, store.ttl), s.id);
    records, walked := DecodeRecords(used.value, s.body);
    WholeMeansWalked(used.value, s.body);
    if used.value.options {
      RecordsHaveFields(used.value, s.body, 0, []);
      ghost var n1, t1 := store.samplerTables, store.tables;
      handed := CommitAll(store, key, port, used.value, records, now);
      OnlyTableOn(n, t, n1, t1, store.samplerTables, store.tables, TableOf(key));
    }
  }

  lemma RateNowhere(v: Domains, key: DomainKey)
    requires key in v
    ensures OnlyRate(v, v, key)
  {
    assert v[key].(samplingRate := v[key].samplingRate) == v[key] && v[key := v[key]] == v;
  }

  lemma AgreedIsJudged(judged: Sight, ahead: Announcements, found: Sight, id: u16)
    requires Agrees(judged, ahead, found) && found.Sees(id).Some?
    ensures found.Sees(id) == Judged(judged, ahead, id)
  {
  }

  lemma WholeMeansWalked(t: Template, body: Bytes)
    requires HoldsWhole(t, body)
    ensures Records(t, body).whole && |Records(t, body).records| >= 1
  {
  }

  lemma RateKeepsSight(v: Domains, v': Domains, key: DomainKey, port: u16, now: int, ttl: int)
    requires OnlyRate(v, v', key)
    ensures SightOf(v', key, port, now, ttl) == SightOf(v, key, port, now, ttl)
  {
  }

  lemma RateKeepsShelf(v: Domains, v': Domains, key: DomainKey)
    requires OnlyRate(v, v', key)
    ensures ShelfOf(v', key) == ShelfOf(v, key)
  {
  }

  /** What each set of a message announces. */
  function AllAnnounced(sets: seq<WireSet>, maxFields: nat): (anns: seq<seq<Announcement>>)
    ensures |anns| == |sets|
  {
    seq(|sets|, i requires 0 <= i < |sets| => AnnouncedIn(sets[i], maxFields))
  }

  lemma NextAnnounced(sets: seq<WireSet>, n: nat, maxFields: nat)
    requires n < |sets|
    ensures AllAnnounced(sets, maxFields)[n] == AnnouncedIn(sets[n], maxFields)
    ensures AllAnnounced(sets, maxFields)[..n + 1] == AllAnnounced(sets, maxFields)[..n] + [AnnouncedIn(sets[n],
        maxFields)]
  {
  }

  /** One more set: what it met, and what it left stored. */
  lemma FoundOneMore(ts: Shelf, charge: int, port: u16, sets: seq<WireSet>, anns: seq<seq<Announcement>>,
                     used: seq<Option<Template>>, found: Option<Template>, now: int, ttl: int)
    requires |used| < |sets| == |anns| && AsFound(ts, charge, port, sets, anns, used, now, ttl)
    requires found == if sets[|used|].IsData()
                      then LookUp(ShelfAfter(ts, charge, port, anns[..|used|], now, ttl), TemplateRef(port,
                          sets[|used|].id), now, ttl)
                      else None
    ensures AsFound(ts, charge, port, sets, anns, used + [found], now, ttl)
  {
    hide LookUp, ShelfAfter;
  }

  lemma NothingFound(ts: Shelf, charge: int, port: u16, sets: seq<WireSet>, anns: seq<seq<Announcement>>, now: int,
                     ttl: int)
    ensures AsFound(ts, charge, port, sets, anns, [], now, ttl) && ShelfAfter(ts, charge, port, [], now, ttl) == ts
  {
  }

  /** A message's moves charge its device for what its domain came to hold. */
  lemma ChargeMoves(v: Domains, w: Domains, key: DomainKey)
    requires MessageMoved(v, w, key)
    ensures Used(w, key.exporter) == Charged(Used(v, key.exporter), ShelfOf(v, key), ShelfOf(w, key))
  {
    hide Dues, FieldCount, DueTo;
    DuePut(v, key, w[key], key.exporter);
  }

  lemma NothingRegistered(ts: Shelf, used: int, port: u16, now: int, ttl: int)
    ensures RegisteredAll(ts, used, port, [], now, ttl) == ts
  {
  }

  /** A message's whole effect on its domain: templates and the rate it
      declared for itself, until the sequence moves. */
  ghost predicate MessageMoved(v: Domains, v': Domains, key: DomainKey) {
    && key in v && key in v' && v' == v[key := v'[key]]
    && OnlyTemplates(v[key], v'[key].(samplingRate := v[key].samplingRate))
  }

  lemma MovedByTemplates(v: Domains, w: Domains, x: Domains, key: DomainKey)
    requires MessageMoved(v, w, key) && TemplatesMoved(w, x, key)
    ensures MessageMoved(v, x, key)
  {
    assert v[key := w[key]][key := x[key]] == v[key := x[key]];
  }

  lemma MovedByRate(v: Domains, w: Domains, x: Domains, key: DomainKey)
    requires MessageMoved(v, w, key) && OnlyRate(w, x, key)
    ensures MessageMoved(v, x, key)
  {
    assert v[key := w[key]][key := x[key]] == v[key := x[key]];
  }

  lemma NotMoved(v: Domains, key: DomainKey)
    requires key in v
    ensures MessageMoved(v, v, key)
  {
    assert v[key := v[key]] == v;
  }

  lemma {:induction false} SetsGrow(msg: Bytes, offset: nat, read: seq<WireSet>)
    ensures read <= SetsFrom(msg, offset, read).sets
    decreases |msg| - offset
  {
    if offset + SET_HEADER <= |msg| && Frames(msg, offset) {
      SetsGrow(msg, offset + Be16(msg, offset + 2), read + [SetAt(msg, offset)]);
      var all := SetsFrom(msg, offset, read).sets;
      assert all[..|read| + 1] == read + [SetAt(msg, offset)];
      assert all[..|read|] == (read + [SetAt(msg, offset)])[..|read|];
    }
  }

  /** In a message whose framing is whole, the set at the walk's offset is the
      next one the check framed. */
  lemma SetComesNext(msg: Bytes, offset: nat, read: seq<WireSet>)
    requires Sets(msg).whole && SetsFrom(msg, offset, read) == Sets(msg)
    requires offset + SET_HEADER <= |msg|
    ensures Frames(msg, offset) && |read| < |Sets(msg).sets|
    ensures Sets(msg).sets[|read|] == SetAt(msg, offset)
    ensures read + [SetAt(msg, offset)] <= Sets(msg).sets
    ensures SetsFrom(msg, offset + Be16(msg, offset + 2), read + [SetAt(msg, offset)]) == Sets(msg)
  {
    var s := SetAt(msg, offset);
    SetsGrow(msg, offset + Be16(msg, offset + 2), read + [s]);
    var all := Sets(msg).sets;
    assert all[..|read| + 1] == read + [s];
    assert all[|read|] == (read + [s])[|read|];
  }

  lemma AgreesAtFirst(judged: Sight, sets: seq<WireSet>, port: u16, maxFields: nat)
    ensures Agrees(judged, Ahead(sets, 0, maxFields), judged)
    ensures AsJudged(judged, sets, [], 0, maxFields) && TakenBy(sets, port, [], 0) == Taken([], 0, true)
  {
  }

  lemma NextAhead(sets: seq<WireSet>, n: nat, maxFields: nat)
    requires n < |sets|
    ensures Ahead(sets, n + 1, maxFields) == After(Ahead(sets, n, maxFields), sets[n], maxFields)
    ensures !sets[n].Announces() ==> Ahead(sets, n + 1, maxFields) == Ahead(sets, n, maxFields)
  {
  }

  lemma {:induction false} TakenIgnoresLater(
    sets: seq<WireSet>, port: u16, used: seq<Option<Template>>, more: Option<Template>, n: nat)
    requires n <= |sets| && n <= |used|
    ensures TakenBy(sets, port, used + [more], n) == TakenBy(sets, port, used, n)
  {
    if n > 0 {
      TakenIgnoresLater(sets, port, used, more, n - 1);
      assert (used + [more])[n - 1] == used[n - 1];
    }
  }

  lemma OneMoreTaken(judged: Sight, sets: seq<WireSet>, used: seq<Option<Template>>, n: nat, port: u16,
                     found: Option<Template>, maxFields: nat)
    requires n == |used| < |sets| && AsJudged(judged, sets, used, n, maxFields)
    requires sets[n].IsData() && found.Some? ==>
               found == Judged(judged, Ahead(sets, n, maxFields), sets[n].id) && HoldsWhole(found.value, sets[n].body)
    ensures AsJudged(judged, sets, used + [found], n + 1, maxFields)
    ensures var before, one := TakenBy(sets, port, used, n), TakenFrom(sets[n], port, found);
            TakenBy(sets, port, used + [found], n + 1) ==
            Taken(before.records + one.records, before.count + one.count, before.complete && one.complete)
  {
    hide Judged, HoldsWhole, Ahead, TakenFrom;
    var later := used + [found];
    forall i | 0 <= i < n + 1 && sets[i].IsData() && later[i].Some?
      ensures later[i] == Judged(judged, Ahead(sets, i, maxFields), sets[i].id) && HoldsWhole(later[i].value,
          sets[i].body)
    {
      if i < n {
        assert later[i] == used[i];
      }
    }
    TakenIgnoresLater(sets, port, used, found, n);
    assert later[n] == found;
  }

  lemma PassesWhenAccepted(judged: Sight, framed: Framed, n: nat, maxFields: nat)
    requires Accepts(judged, framed, maxFields) && n < |framed.sets|
    ensures SetPasses(judged, Ahead(framed.sets, n, maxFields), framed.sets[n])
  {
  }

  lemma TakenFromWhole(s: WireSet, port: u16, t: Template, records: seq<seq<Bytes>>)
    requires s.IsData() && HoldsWhole(t, s.body) && Decoded(records, true) == Records(t, s.body)
    ensures TakenFrom(s, port, Some(t)) == Taken(FlowRecords(TemplateRef(port, s.id), t, records), |records|, true)
  {
  }

  lemma TakenFromNone(s: WireSet, port: u16)
    ensures TakenFrom(s, port, None) == Taken([], 0, s.Announces())
  {
  }

  lemma MovedTwice(v: Domains, w: Domains, x: Domains, key: DomainKey)
    requires MessageMoved(v, w, key) && MessageMoved(w, x, key)
    ensures MessageMoved(v, x, key)
  {
    assert v[key := w[key]][key := x[key]] == v[key := x[key]];
  }

  lemma NotAnnounced(ahead: Announcements, s: WireSet, maxFields: nat)
    requires !s.Announces()
    ensures After(ahead, s, maxFields) == ahead
  {
  }

  lemma NoDeclarations(s: Sampling, key: DomainKey, port: u16, ws: WireSet, used: Option<Template>, at: int)
    requires used.None?
    ensures CommittedSet(s, key, port, ws, used, at) == s
  {
  }

  lemma NothingHanded(ws: WireSet, used: Option<Template>)
    requires used.None?
    ensures forall proto :: HandedSet(proto, ws, used) == []
  {
  }

  lemma WholeIsLongEnough(t: Template, body: Bytes)
    requires HoldsWhole(t, body)
    ensures |body| >= t.recordLen
  {
  }

  /** decodeIPFIXSet: one set routed by its id, under a message that passed. */
  method ApplySet(store: TemplateStore, key: DomainKey, port: u16, s: WireSet, now: int,
                  ghost judged: Sight, ghost ahead: Announcements)
    returns (used: Option<Template>, taken: Taken, issues: seq<Reason>, handed: seq<AppString>)
    requires Ready(store, key, now) && key.proto == Ipfix
    requires Agrees(judged, ahead, SightOf(store.domains, key, port, now, store.ttl))
    requires SetPasses(judged, ahead, s)
    modifies store
    ensures Ready(store, key, now)
    ensures MessageMoved(old(store.domains), store.domains, key)
    ensures Agrees(judged, After(ahead, s, store.maxFields), SightOf(store.domains, key, port, now, store.ttl))
    ensures OnlyTable(old(store.samplerTables), old(store.tables), store.samplerTables, store.tables, TableOf(key))
    ensures SamplingOf(store.domains, store.tables, key) ==
            CommittedSet(SamplingOf(old(store.domains), old(store.tables), key), key, port, s, used, now)
    ensures ShelfOf(store.domains, key) ==
            RegisteredAll(ShelfOf(old(store.domains), key), Used(old(store.domains), key.exporter), port,
                          AnnouncedIn(s, store.maxFields), now, store.ttl)
    ensures used == if s.IsData() then LookUp(ShelfOf(old(store.domains), key), TemplateRef(port, s.id), now,
        store.ttl) else None
    ensures taken == TakenFrom(s, port, used)
    ensures s.IsData() && used.Some? ==> used == Judged(judged, ahead, s.id) && HoldsWhole(used.value, s.body)
    ensures issues == ReasonsOf(ShelfOf(old(store.domains), key), Used(old(store.domains), key.exporter), port,
                                Ipfix, s, AnnouncedIn(s, store.maxFields), used, now, store.ttl)
    ensures Malformed !in issues
    ensures handed == HandedSet(Ipfix, s, used)
  {
    hide Sound, TablesKept, WellFormed, Ready, Agrees, SetPasses, TakenFrom, LookUp, OnlyRate, TemplatesMoved,
        HoldsWhole;
    hide MessageMoved, Judged, After, OnlyTable, SamplingOf;
    hide Used, RegisteredAll, Refusals, HandedSet;
    NothingHanded(s, None);
    ReadyTable(store, key, now);
    ghost var v, n, t := store.domains, store.samplerTables, store.tables;
    NothingRegistered(ShelfOf(v, key), Used(v, key.exporter), port, now, store.ttl);
    NotMoved(v, key);
    NothingChanged(n, t);
    KeptIsOnly(n, t, n, t, TableOf(key));
    if s.Announces() {
      issues := ApplyTemplateSet(store, key, port, s, now, judged, ahead);
      TemplatesDeclareNothing(v, n, t, store.domains, store.samplerTables, store.tables, key);
      NoDeclarations(SamplingOf(v, t, key), key, port, s, None, now);
      MovedByTemplates(v, v, store.domains, key);
      TakenFromNone(s, port);
      NoneMalformed(ShelfOf(v, key), Used(v, key.exporter), port, AnnouncedIn(s, store.maxFields), now, store.ttl);
      return None, Taken([], 0, true), issues, [];
    }
    NotAnnounced(ahead, s, store.maxFields);
    if !s.IsData() {
      TakenFromNone(s, port);
      NoDeclarations(SamplingOf(v, t, key), key, port, s, None, now);
      return None, Taken([], 0, false), [ReservedSet], [];
    }
    hide CommittedSet;
    var records, walked;
    used, records, walked, handed := DecodeDataSet(store, key, port, s, now, judged, ahead);
    MovedByRate(v, v, store.domains, key);
    RateKeepsSight(v, store.domains, key, port, now, store.ttl);
    RateKeepsShelf(v, store.domains, key);
    if used.None? {
      TakenFromNone(s, port);
      return used, Taken([], 0, false), [MissingTemplate], [];
    }
    TakenFromWhole(s, port, used.value, records);
    taken := Taken(FlowRecords(TemplateRef(port, s.id), used.value, records), |records|, true);
    WholeIsLongEnough(used.value, s.body);
    issues := if walked then [] else [Malformed];
  }

  /** The templates a walk over these sets met and left: those the announcements
      come to, taken in order under the device's bounds. */
  ghost predicate StoredAsAnnounced(v: Domains, v': Domains, key: DomainKey, port: u16, sets: seq<WireSet>,
                                    anns: seq<seq<Announcement>>, used: seq<Option<Template>>, issues: seq<Reason>,
                                    now: int, ttl: int)
    requires |used| <= |sets| == |anns|
  {
    var ts, charge := ShelfOf(v, key), Used(v, key.exporter);
    && issues == ReasonsAfter(ts, charge, port, key.proto, sets, anns, used, now, ttl)
    && AsFound(ts, charge, port, sets, anns, used, now, ttl)
    && ShelfOf(v', key) == ShelfAfter(ts, charge, port, anns[..|used|], now, ttl)
  }

  lemma StoredAtFirst(v: Domains, key: DomainKey, port: u16, sets: seq<WireSet>, anns: seq<seq<Announcement>>,
                      now: int, ttl: int)
    requires |sets| == |anns|
    ensures StoredAsAnnounced(v, v, key, port, sets, anns, [], [], now, ttl)
  {
    hide Used, ShelfAfter;
    NothingFound(ShelfOf(v, key), Used(v, key.exporter), port, sets, anns, now, ttl);
    assert anns[..0] == [];
  }

  lemma StoredOneMore(v: Domains, w: Domains, x: Domains, key: DomainKey, port: u16, sets: seq<WireSet>,
                      used: seq<Option<Template>>, found: Option<Template>, issues: seq<Reason>, some: seq<Reason>,
                      now: int, ttl: int, maxFields: nat)
    requires |used| < |sets| && MessageMoved(v, w, key)
    requires StoredAsAnnounced(v, w, key, port, sets, AllAnnounced(sets, maxFields), used, issues, now, ttl)
    requires var s, anns := sets[|used|], AnnouncedIn(sets[|used|], maxFields);
             && ShelfOf(x, key) == RegisteredAll(ShelfOf(w, key), Used(w, key.exporter), port, anns, now, ttl)
             && found == (if s.IsData() then LookUp(ShelfOf(w, key), TemplateRef(port, s.id), now, ttl) else None)
             && some == ReasonsOf(ShelfOf(w, key), Used(w, key.exporter), port, key.proto, s, anns, found, now, ttl)
    ensures StoredAsAnnounced(v, x, key, port, sets, AllAnnounced(sets, maxFields), used + [found], issues + some,
                              now, ttl)
  {
    hide Used, ShelfAfter, RegisteredAll, LookUp, AsFound, AllAnnounced, AnnouncedIn, Charged, MessageMoved, ShelfOf;
    hide ReasonsAfter, ReasonsOf;
    var ts, charge, anns := ShelfOf(v, key), Used(v, key.exporter), AllAnnounced(sets, maxFields);
    FoundOneMore(ts, charge, port, sets, anns, used, found, now, ttl);
    NextAnnounced(sets, |used|, maxFields);
    ShelfOneMore(ts, charge, port, anns[..|used|], AnnouncedIn(sets[|used|], maxFields), now, ttl);
    ReasonsOneMore(ts, charge, port, key.proto, sets, anns, used, found, now, ttl);
    ChargeMoves(v, w, key);
  }

  /** The applying walk over an accepted message, which slices by the lengths
      as they stand: every slice is in range, every set advances it by at
      least a set header, and no record breaks. */
  method ApplyMessage(store: TemplateStore, key: DomainKey, port: u16, msg: Bytes, now: int, dst: seq<FlowRecord>)
    returns (out: seq<FlowRecord>, count: nat, complete: bool, issues: seq<Reason>, handed: seq<AppString>,
             ghost used: seq<Option<Template>>)
    requires Ready(store, key, now) && key.proto == Ipfix
    requires Accepts(SightOf(store.domains, key, port, now, store.ttl), Sets(msg), store.maxFields)
    modifies store
    ensures Ready(store, key, now)
    ensures MessageMoved(old(store.domains), store.domains, key)
    ensures |used| == |Sets(msg).sets|
    ensures Taken(out, count, complete) == Onto(dst, TakenBy(Sets(msg).sets, port, used, |used|))
    ensures AsJudged(SightOf(old(store.domains), key, port, now, store.ttl), Sets(msg).sets, used, |used|,
        store.maxFields)
    ensures Agrees(SightOf(old(store.domains), key, port, now, store.ttl), Ahead(Sets(msg).sets, |used|,
        store.maxFields),
                   SightOf(store.domains, key, port, now, store.ttl))
    ensures StoredAsAnnounced(old(store.domains), store.domains, key, port, Sets(msg).sets,
                              AllAnnounced(Sets(msg).sets, store.maxFields), used, issues, now, store.ttl)
    ensures OnlyTable(old(store.samplerTables), old(store.tables), store.samplerTables, store.tables, TableOf(key))
    ensures SamplingOf(store.domains, store.tables, key) ==
            CommittedBy(SamplingOf(old(store.domains), old(store.tables), key), key, port, Sets(msg).sets, used, now)
    ensures Malformed !in issues
    ensures handed == HandedBy(Ipfix, Sets(msg).sets, used)
  {
    hide Sound, Ready, Agrees, MessageMoved, SetPasses, Ahead, After, TakenBy, TakenFrom, AsJudged, Judged, Accepts,
        SetAt;
    hide HoldsWhole, OnlyTable, SamplingOf, CommittedSet, CommittedBy;
    hide HandedSet, HandedBy, ReasonsOf, StoredAsAnnounced, AllAnnounced, AnnouncedIn, RegisteredAll;
    hide Used, LookUp, ShelfOf;
    ReadyHolds(store, key, now);
    ghost var v, n, t := store.domains, store.samplerTables, store.tables;
    ghost var judged := SightOf(v, key, port, now, store.ttl);
    ghost var framed := Sets(msg);
    ghost var declared := SamplingOf(v, t, key);
    NothingChanged(n, t);
    KeptIsOnly(n, t, n, t, TableOf(key));
    NothingCommitted(declared, key, port, framed.sets, now);
    StoredAtFirst(v, key, port, framed.sets, AllAnnounced(framed.sets, store.maxFields), now, store.ttl);
    AgreesAtFirst(judged, framed.sets, port, store.maxFields);
    NotMoved(v, key);
    WholeWhenAccepted(judged, framed, store.maxFields);
    out, count, complete, issues, handed, used := dst, 0, true, [], [], [];
    NothingHandedOn(Ipfix, framed.sets);
    assert dst + [] == dst;
    var offset: nat := HEADER;
    ghost var sets: seq<WireSet> := [];
    while offset + SET_HEADER <= |msg|
      invariant |sets| == |used| && sets <= framed.sets
      invariant SetsFrom(msg, offset, sets) == framed
      invariant Ready(store, key, now) && key in store.domains && MessageMoved(v, store.domains, key)
      invariant Agrees(judged, Ahead(framed.sets, |used|, store.maxFields), SightOf(store.domains, key, port, now,
          store.ttl))
      invariant AsJudged(judged, framed.sets, used, |used|, store.maxFields)
      invariant Taken(out, count, complete) == Onto(dst, TakenBy(framed.sets, port, used, |used|))
      invariant StoredAsAnnounced(v, store.domains, key, port, framed.sets, AllAnnounced(framed.sets, store.maxFields),
                                  used, issues, now, store.ttl)
      invariant OnlyTable(n, t, store.samplerTables, store.tables, TableOf(key))
      invariant SamplingOf(store.domains, store.tables, key) == CommittedBy(declared, key, port, framed.sets, used, now)
      invariant Malformed !in issues && handed == HandedBy(Ipfix, framed.sets, used)
      decreases |msg| - offset
    {
      SetComesNext(msg, offset, sets);
      var setLen := Be16(msg, offset + 2);
      var s := SetAt(msg, offset);
      ghost var ahead, w, was := Ahead(framed.sets, |used|, store.maxFields), store.domains, used;
      ghost var n1, t1 := store.samplerTables, store.tables;
      PassesWhenAccepted(judged, framed, |used|, store.maxFields);
      var found, taken, some, strings := ApplySet(store, key, port, s, now, judged, ahead);
      StoredOneMore(v, w, store.domains, key, port, framed.sets, used, found, issues, some, now, store.ttl,
                    store.maxFields);
      HandedOneMore(Ipfix, framed.sets, used, found);
      MovedTwice(v, w, store.domains, key);
      OnlyTableOn(n, t, n1, t1, store.samplerTables, store.tables, TableOf(key));
      CommittedOneMore(declared, key, port, framed.sets, used, found, now);
      OneMoreTaken(judged, framed.sets, used, |used|, port, found, store.maxFields);
      NextAhead(framed.sets, |used|, store.maxFields);
      OntoAdds(dst, TakenBy(framed.sets, port, used, |used|), taken);
      out, count, complete := out + taken.records, count + taken.count, complete && taken.complete;
      issues, handed := issues + some, handed + strings;
      used, sets := used + [found], sets + [s];
      offset := offset + setLen;
      ReadyHolds(store, key, now);
    }
  }

  lemma NothingHandedOn(proto: Protocol, sets: seq<WireSet>)
    ensures HandedBy(proto, sets, []) == []
  {
  }

  lemma NothingCommitted(s: Sampling, key: DomainKey, port: u16, sets: seq<WireSet>, at: int)
    ensures CommittedBy(s, key, port, sets, [], at) == s
  {
  }

  lemma WholeWhenAccepted(judged: Sight, framed: Framed, maxFields: nat)
    requires Accepts(judged, framed, maxFields)
    ensures framed.whole
  {
  }

  /** What was taken, appended to the records a datagram came with. */
  function Onto(dst: seq<FlowRecord>, t: Taken): Taken {
    Taken(dst + t.records, t.count, t.complete)
  }

  lemma OntoAdds(dst: seq<FlowRecord>, before: Taken, one: Taken)
    ensures Onto(dst, Taken(before.records + one.records, before.count + one.count, before.complete && one.complete)) ==
            Taken(Onto(dst, before).records + one.records, before.count + one.count, before.complete && one.complete)
  {
    assert dst + (before.records + one.records) == dst + before.records + one.records;
  }

  // ---- One message ---------------------------------------------------------------------------

  predicate HeaderFits(payload: Bytes) {
    |payload| >= HEADER && HEADER <= Be16(payload, 2) <= |payload|
  }

  function MessageOf(payload: Bytes): Bytes
    requires HeaderFits(payload)
  {
    payload[..Be16(payload, 2)]
  }

  function KeyOf(exporter: Addr, payload: Bytes): DomainKey
    requires HeaderFits(payload)
  {
    DomainKey(exporter, Be32(payload, 12), Ipfix)
  }

  /** A rejected message: not one record, declaration or sequence move, and of
      the templates only those it redefined are gone. */
  ghost predicate Discarded(v: Domains, v': Domains, key: DomainKey, port: u16, msg: Bytes, now: int, ttl: int,
                            maxFields: nat)
    requires key in v
  {
    var sight, sets := SightOf(v, key, port, now, ttl), Sets(msg).sets;
    && RejectStep(v, v', key, sight, Ahead(sets, |sets|, maxFields))
    && Withdrawn(sight, Ahead(sets, |sets|, maxFields), SightOf(v', key, port, now, ttl))
  }

  /** An accepted message: the sequence moved once by the records it numbers,
      every id it announced holding its last announcement or nothing, and its
      options records declared in order. */
  ghost predicate Applied(v: Domains, declared: Sampling, v': Domains, t': Tables, key: DomainKey, port: u16, now: int,
                          number: u32, sets: seq<WireSet>, used: seq<Option<Template>>, issues: seq<Reason>,
                          ttl: int, maxFields: nat)
    requires key in v && |used| == |sets|
  {
    var taken := TakenBy(sets, port, used, |used|);
    && (exists w: Domains ::
         && MessageMoved(v, w, key)
         && PositionStep(w, v', key,
                         TrackRecords(v[key].positions, port, now, number, Wrap32(taken.count), 0, taken.complete)))
    && key in v'
    && Agrees(SightOf(v, key, port, now, ttl), Ahead(sets, |sets|, maxFields), SightOf(v', key, port, now, ttl))
    && StoredAsAnnounced(v, v', key, port, sets, AllAnnounced(sets, maxFields), used, issues, now, ttl)
    && SamplingOf(v', t', key) == CommittedBy(declared, key, port, sets, used, now)
  }

  lemma PositionsApart(w: Domains, v': Domains, key: DomainKey, p: Positions, t: Tables, port: u16, now: int, ttl: int)
    requires PositionStep(w, v', key, p)
    ensures key in v' && SightOf(v', key, port, now, ttl) == SightOf(w, key, port, now, ttl)
    ensures SamplingOf(v', t, key) == SamplingOf(w, t, key)
    ensures ShelfOf(v', key) == ShelfOf(w, key)
  {
  }

  /** What the domain of a datagram declares, once found, is what it declared. */
  lemma SeenSampling(v: Domains, n: TableNames, t: Tables, v': Domains, n': TableNames, t': Tables,
                     key: DomainKey, now: int)
    requires SeenStep(v, v', key, now) && key in v'
    requires TablesKept(n, t, n', t') && TableOpened(n, n', t', TableOf(key))
    requires TableOf(key) in n ==> n[TableOf(key)] in t
    requires key in v ==> TableOf(key) in n && v[key].declared == n[TableOf(key)]
    requires TableOf(key) in n' && v'[key].declared == n'[TableOf(key)]
    ensures SamplingOf(v', t', key) == SamplingBefore(v, n, t, key)
  {
    hide Dues;
  }

  lemma HeldTable(store: TemplateStore, key: DomainKey)
    requires store.Valid()
    ensures TableOf(key) in store.samplerTables ==> store.samplerTables[TableOf(key)] in store.tables
    ensures key in store.domains ==>
              TableOf(key) in store.samplerTables
              && store.domains[key].declared == store.samplerTables[TableOf(key)]
  {
    hide Bounded, AllStamped, BudgetsPay, TablesOwned;
  }

  lemma DiscardDeclaresNothing(v: Domains, n: TableNames, t: Tables, v': Domains, n': TableNames, t': Tables,
                               key: DomainKey, port: u16, msg: Bytes, now: int, ttl: int, maxFields: nat)
    requires key in v && Discarded(v, v', key, port, msg, now, ttl, maxFields) && TablesKept(n, t, n', t')
    requires TableOf(key) in n && v[key].declared == n[TableOf(key)] && v[key].declared in t
    ensures SamplingOf(v', t', key) == SamplingOf(v, t, key)
  {
    hide Redefined, Withdrawn, Ahead, SetsFrom, SamplingOf, TablesKept;
    TemplatesDeclareNothing(v, n, t, v', n', t', key);
  }

  /** decodeIPFIX. seen is the store once the message's domain is found. */
  method DecodeIpfix(store: TemplateStore, exporter: Addr, port: u16, payload: Bytes, dst: seq<FlowRecord>, now: int)
    returns (out: seq<FlowRecord>, failed: bool, issues: seq<Reason>, handed: seq<AppString>,
             ghost seen: Domains, ghost used: seq<Option<Template>>)
    requires store.Valid() && store.clock <= now
    modifies store
    ensures store.Valid()
    ensures !HeaderFits(payload) ==> failed && store.domains == old(store.domains)
    ensures failed ==> out == dst && issues == [] && handed == []
    ensures HeaderFits(payload) && !Admits(old(store.domains), KeyOf(exporter, payload)) ==>
              !failed && out == dst && issues == [DomainLimit] && handed == [] && store.domains == old(store.domains)
    ensures HeaderFits(payload) && Admits(old(store.domains), KeyOf(exporter, payload)) ==>
              var key, msg := KeyOf(exporter, payload), MessageOf(payload);
              && SeenStep(old(store.domains), seen, key, now) && key in seen
              && (failed <==> !Accepts(SightOf(seen, key, port, now, store.ttl), Sets(msg), store.maxFields))
              && var declared := SamplingBefore(old(store.domains), old(store.samplerTables), old(store.tables), key);
                 if failed then
                   && Discarded(seen, store.domains, key, port, msg, now, store.ttl, store.maxFields)
                   && SamplingOf(store.domains, store.tables, key) == declared
                 else
                   var sets := Sets(msg).sets;
                   && |used| == |sets| && Malformed !in issues
                   && AsJudged(SightOf(seen, key, port, now, store.ttl), sets, used, |used|, store.maxFields)
                   && out == dst + TakenBy(sets, port, used, |used|).records
                   && handed == HandedBy(Ipfix, sets, used)
                   && Applied(seen, declared, store.domains, store.tables, key, port, now, Be32(payload, 8),
                              sets, used, issues, store.ttl, store.maxFields)
    ensures HeaderFits(payload) ==>
              OnlyTable(old(store.samplerTables), old(store.tables), store.samplerTables, store.tables,
                  TableOf(KeyOf(exporter, payload)))
    ensures failed ==> TablesKept(old(store.samplerTables), old(store.tables), store.samplerTables, store.tables)
  {
    hide Sound, TablesKept, SeenStep, Accepts, RejectStep, Withdrawn, AsJudged, TakenBy, TrackRecords, MessageMoved;
    hide Admits, Ahead, SetsFrom;
    hide WellFormed, OnlyTable, SamplingOf, CommittedBy, PositionStep, Agrees, AllAnnounced, ShelfOf, AsFound,
        ShelfAfter, Used, SamplingBefore, HandedBy, TableOpened, ReasonsAfter;
    ghost var n, t := store.samplerTables, store.tables;
    NothingChanged(n, t);
    out, failed, issues, handed, seen, used := dst, false, [], [], store.domains, [];
    if |payload| < HEADER {
      failed := true;
      return;
    }
    var msgLen := Be16(payload, 2);
    if msgLen < HEADER || msgLen > |payload| {
      failed := true;
      return;
    }
    var sequence := Be32(payload, 8);
    var key := KeyOf(exporter, payload);
    ghost var declared := SamplingBefore(store.domains, n, t, key);
    HeldTable(store, key);
    var held := store.Domain(key, now);
    seen := store.domains;
    KeptIsOnly(n, t, store.samplerTables, store.tables, TableOf(key));
    if !held {
      RefusedUnchanged(old(store.domains), seen, key, now);
      issues := [DomainLimit];
      return;
    }
    var msg := payload[..msgLen];
    SeenNow(old(store.domains), seen, key, now);
    ReadyTable(store, key, now);
    ghost var n1, t1 := store.samplerTables, store.tables;
    SeenSampling(old(store.domains), n, t, seen, n1, t1, key, now);
    var accepted := CheckIpfixLengths(store, key, port, msg, now);
    if !accepted {
      failed := true;
      TablesKeptOn(n, t, n1, t1, store.samplerTables, store.tables);
      KeptIsOnly(n, t, store.samplerTables, store.tables, TableOf(key));
      DiscardDeclaresNothing(seen, n1, t1, store.domains, store.samplerTables, store.tables, key, port, msg, now,
                             store.ttl, store.maxFields);
      return;
    }
    KeptIsOnly(n1, t1, store.samplerTables, store.tables, TableOf(key));
    SameSampling(seen, n1, t1, store.samplerTables, store.tables, key);
    ghost var n2, t2 := store.samplerTables, store.tables;
    var count, complete;
    out, count, complete, issues, handed, used := ApplyMessage(store, key, port, msg, now, dst);
    OnlyTableOn(n, t, n1, t1, n2, t2, TableOf(key));
    OnlyTableOn(n, t, n2, t2, store.samplerTables, store.tables, TableOf(key));
    ghost var w := store.domains;
    MovedKeepsPositions(seen, w, key);
    store.TrackRecordSequence(key, port, sequence, Wrap32(count), 0, complete);
    PositionsApart(w, store.domains, key,
      TrackRecords(seen[key].positions, port, now, sequence, Wrap32(count), 0, complete), store.tables, port, now,
          store.ttl);
  }

  lemma SameSampling(v: Domains, n: TableNames, t: Tables, n': TableNames, t': Tables, key: DomainKey)
    requires TablesKept(n, t, n', t')
    requires key in v && TableOf(key) in n && v[key].declared == n[TableOf(key)] && v[key].declared in t
    ensures SamplingOf(v, t', key) == SamplingOf(v, t, key)
  {
  }

  lemma RefusedUnchanged(v: Domains, v': Domains, key: DomainKey, now: int)
    requires SeenStep(v, v', key, now) && !Admits(v, key)
    ensures v' == v
  {
  }

  lemma SeenNow(v: Domains, v': Domains, key: DomainKey, now: int)
    requires SeenStep(v, v', key, now) && key in v'
    ensures v'[key].lastSeen == now
  {
    hide Dues;
  }

  lemma MovedKeepsPositions(v: Domains, w: Domains, key: DomainKey)
    requires MessageMoved(v, w, key)
    ensures key in w && w[key].positions == v[key].positions && w[key].lastSeen == v[key].lastSeen
  {
  }
}
