/** One observation domain's state, and the device budget its templates are
    charged to. */
module DomainStates {
  import opened Uint
  import opened Templates
  import opened Sequences
  import opened SamplerTables
  import opened StoreModel
  import opened Corrections

  /** The field count all domains of one device are charged to. */
  class ExporterBudget {
    var fields: int

    constructor (fields: int)
      ensures this.fields == fields
    {
      this.fields := fields;
    }
  }

  /** The part of a domain its own lock guards. */
  class DomainState {
    const budget: ExporterBudget
    var templates: Shelf
    var fields: int
    /** Lower-bounds the stamps templates hold; None is the zero instant, which
        every TTL is past. */
    var templatesOldest: Option<int>
    var lastSeen: int
    var sessions: map<u16, Session>
    var sequenceMissed: u64

    constructor (d: Domain, budget: ExporterBudget)
      ensures Record(d) == d && this.budget == budget
    {
      this.budget := budget;
      templates, fields, templatesOldest, lastSeen := d.templates, d.fields, d.templatesOldest, d.lastSeen;
      sessions, sequenceMissed := d.positions.sessions, d.positions.missed;
    }

    /** The record d as this object now stands. */
    function Record(d: Domain): Domain
      reads this
    {
      d.(templates := templates, fields := fields, templatesOldest := templatesOldest,
         lastSeen := lastSeen, positions := Positions(sessions, sequenceMissed))
    }

    ghost predicate Counted()
      reads this
    {
      && fields == FieldCount(templates)
      && (templatesOldest.Some? ==>
           forall ref :: ref in templates ==> templatesOldest.value <= templates[ref].refreshedAt)
    }

    /** heldFieldsLocked. */
    method HeldFieldsLocked(ref: TemplateRef) returns (held: nat)
      ensures held == HeldFields(templates, ref)
    {
      return if ref in templates then |templates[ref].layout.fields| else 0;
    }

    /** chargeLocked. */
    method ChargeLocked(count: int)
      modifies this`fields, budget`fields
      ensures fields == old(fields) + count && budget.fields == old(budget.fields) + count
    {
      fields := fields + count;
      budget.fields := budget.fields + count;
    }

    /** fitsLocked. */
    method FitsLocked(ref: TemplateRef, t: Template) returns (fits: bool)
      ensures fits <==> Fits(templates, budget.fields, ref, t)
    {
      if ref !in templates && |templates| >= MAX_TEMPLATES {
        return false;
      }
      var held := HeldFieldsLocked(ref);
      var grow := |t.fields| - held;
      return budget.fields + grow <= MAX_FIELDS;
    }

    /** dropLocked. */
    method DropLocked(ref: TemplateRef)
      requires Counted()
      modifies this`templates, this`fields, budget`fields
      ensures Counted()
      ensures templates == old(templates) - {ref}
      ensures budget.fields - old(budget.fields) == fields - old(fields)
    {
      FieldsDrop(templates, ref);
      if ref in templates {
        ChargeLocked(-|templates[ref].layout.fields|);
        templates := templates - {ref};
      } else {
        assert templates - {ref} == templates;
      }
    }

    /** pruneExpiredLocked. */
    method PruneExpiredLocked(now: int, ttl: int)
      requires Counted() && ttl >= 0
      requires forall ref :: ref in templates ==> templates[ref].refreshedAt <= now
      modifies this`templates, this`fields, this`templatesOldest, budget`fields
      ensures Counted()
      ensures templates == Live(old(templates), now, ttl)
      ensures budget.fields - old(budget.fields) == fields - old(fields)
      ensures templatesOldest.Some? && templatesOldest.value <= now
    {
      ghost var was := templates;
      var oldest := now;
      var todo := templates.Keys;
      templatesOldest := None;
      while todo != {}
        invariant todo <= was.Keys
        invariant templates == map ref | ref in was && (ref in todo || now - was[ref].refreshedAt <= ttl) :: was[ref]
        invariant Counted() && templatesOldest == None
        invariant budget.fields - old(budget.fields) == fields - old(fields)
        invariant oldest <= now
        invariant forall ref :: ref in templates && ref !in todo ==> oldest <= was[ref].refreshedAt
        decreases |todo|
      {
        var ref :| ref in todo;
        todo := todo - {ref};
        var at := templates[ref].refreshedAt;
        if now - at > ttl {
          DropLocked(ref);
        } else if at < oldest {
          oldest := at;
        }
      }
      templatesOldest := Some(oldest);
    }

    /** The part of add under the domain lock. The prune is skipped while the
        lower bound is inside the TTL, and the outcome is nevertheless that of
        pruning every time. */
    method AddLocked(ref: TemplateRef, t: Template, now: int, ttl: int) returns (ok: bool)
      requires Counted() && ttl >= 0
      requires forall r :: r in templates ==> templates[r].refreshedAt <= now
      requires templatesOldest.Some? ==> templatesOldest.value <= now
      modifies this`templates, this`fields, this`templatesOldest, budget`fields
      ensures Counted()
      ensures ok <==> Takes(old(templates), old(budget.fields), ref, t, now, ttl)
      ensures templates == StoreModel.Announced(old(templates), old(budget.fields), ref, t, now, ttl)
      ensures budget.fields - old(budget.fields) == fields - old(fields)
      ensures templatesOldest.Some? ==> templatesOldest.value <= now
    {
      var fits := FitsLocked(ref, t);
      if !fits {
        ghost var was, live := templates, Live(templates, now, ttl);
        if templatesOldest.None? || now - templatesOldest.value > ttl {
          PruneExpiredLocked(now, ttl);
        } else {
          assert live == templates;
        }
        assert templates == live && budget.fields == old(budget.fields) - FieldCount(was) + FieldCount(live);
        fits := FitsLocked(ref, t);
        if !fits {
          DropLocked(ref);
          return false;
        }
      }
      FieldsPut(templates, ref, Held(t, now));
      var held := HeldFieldsLocked(ref);
      ChargeLocked(|t.fields| - held);
      templates := templates[ref := Held(t, now)];
      return true;
    }

    /** sessionLocked: the session of one port, slot on first use, or none at
        the bound. */
    method SessionLocked(port: u16, at: int) returns (s: Option<Session>)
      modifies this`sessions
      ensures s == OpenSession(Positions(old(sessions), sequenceMissed), port, at)
      ensures sessions == if s.Some? then old(sessions)[port := s.value] else old(sessions)
    {
      if port in sessions {
        sessions := sessions[port := sessions[port].(lastSeen := at)];
        return Some(sessions[port]);
      }
      if |sessions| >= MAX_SESSIONS {
        return None;
      }
      var first := Session(0, at, 0, 0, false);
      sessions := sessions[port := first];
      return Some(first);
    }

    /** trackSequence. */
    method TrackSequence(port: u16, number: u32)
      modifies this`sessions, this`sequenceMissed
      ensures Positions(sessions, sequenceMissed) ==
              TrackPacket(Positions(old(sessions), old(sequenceMissed)), port, lastSeen, number)
    {
      hide Wrap64, Add64, Sub32;
      var slot := SessionLocked(port, lastSeen);
      if slot.None? {
        return;
      }
      var s := slot.value;
      SmallCounts(sequenceMissed, 0);
      if !s.init {
        sessions := sessions[port := s.(init := true, lastSeq := number)];
        return;
      }
      var diff := Sub32(number, s.lastSeq);
      if diff == 0 {
      } else if diff < FORWARD_WINDOW {
        SmallCounts(sequenceMissed, diff - 1);
        if diff > 1 {
          sequenceMissed := Add64(sequenceMissed, diff - 1);
        }
        sessions := sessions[port := s.(lastSeq := number)];
      } else if diff > TWO_32 - 1 - REORDER_WINDOW {
      } else {
        sessions := sessions[port := s.(lastSeq := number)];
      }
    }

    /** trackRecordSequence. */
    method TrackRecordSequence(port: u16, number: u32, records: u32, engine: u16, complete: bool)
      modifies this`sessions, this`sequenceMissed
      ensures Positions(sessions, sequenceMissed) ==
              TrackRecords(Positions(old(sessions), old(sequenceMissed)), port, lastSeen, number, records, engine,
                  complete)
    {
      hide Wrap64, Add64, Add32, Sub32;
      var slot := SessionLocked(port, lastSeen);
      if slot.None? {
        return;
      }
      var s := slot.value;
      var next := Add32(number, records);
      ghost var m := RecordMove(s, number, records, engine, complete);
      if !s.init || engine != s.engine {
        SmallCounts(sequenceMissed, 0);
        s := s.(init := complete, engine := engine, lastSeq := next, lateRun := 0);
        assert m == Move(s, 0);
        sessions := sessions[port := s];
        return;
      }
      var diff := Sub32(number, s.lastSeq);
      SmallCounts(sequenceMissed, diff);
      if diff == 0 {
        assert m.skipped == 0;
      } else if diff > TWO_32 - 1 - REORDER_WINDOW && s.lateRun < MAX_LATE_RUN {
        s := s.(lateRun := s.lateRun + 1);
        assert m == Move(s, 0);
        sessions := sessions[port := s];
        return;
      } else if diff < FORWARD_WINDOW {
        assert m.skipped == diff;
        sequenceMissed := Add64(sequenceMissed, diff);
      }
      s := s.(lateRun := 0, init := complete, lastSeq := next);
      assert m.session == s;
      sessions := sessions[port := s];
    }

    /** pruneIdleSessionsLocked. */
    method PruneIdleSessionsLocked(cutoff: int)
      modifies this`sessions
      ensures sessions == SessionsSince(old(sessions), cutoff)
    {
      ghost var was := sessions;
      var todo := sessions.Keys;
      while todo != {}
        invariant todo <= was.Keys
        invariant sessions == map port | port in was && (port in todo || was[port].lastSeen >= cutoff) :: was[port]
        decreases |todo|
      {
        var port :| port in todo;
        todo := todo - {port};
        if sessions[port].lastSeen < cutoff {
          sessions := sessions - {port};
        }
      }
    }
  }

  /** The part of a domain a record is corrected through. */
  class DomainSampling {
    const odid: u32
    const declared: SamplerTable
    var samplingRate: u32
    var samplingUnresolved: u64

    constructor (odid: u32, declared: SamplerTable, samplingRate: u32)
      ensures this.odid == odid && this.declared == declared
      ensures this.samplingRate == samplingRate && samplingUnresolved == 0
    {
      this.odid, this.declared, this.samplingRate, samplingUnresolved := odid, declared, samplingRate, 0;
    }

    ghost function Facts(template: TemplateRef, inputIf: u32): Corrections.Context
      reads this, declared
    {
      Corrections.Context(declared.View(), declared.declaredZero, odid, samplingRate, template, inputIf)
    }

    /** rateInForce of a domain, which inheritedCorrection hands on. */
    method InForceRate() returns (rate: u32)
      requires declared.Valid()
      ensures InForce(Facts(TemplateRef(0, 0), 0), rate)
    {
      if samplingRate != 0 {
        return samplingRate;
      }
      var scoped, held := declared.ScopedRate(DomainScope(odid));
      if held {
        return scoped;
      }
      return declared.inherited;
    }

    /** correctionFor. A sampler may be answered for by any domain of the device,
        a selector by the record's own alone. */
    method CorrectionFor(id: u32, isSampler: bool) returns (rate: u32, owed: bool)
      requires declared.Valid()
      modifies declared`sampled
      ensures Corrects(Facts(TemplateRef(0, 0), 0), if isSampler then Sampler(id) else Selector(id), rate, owed)
      ensures declared.sampled == (old(declared.sampled) || !(isSampler && id == UNSAMPLED))
      ensures declared.Valid() && declared.View() == old(declared.View())
    {
      var unsampled := isSampler && id == UNSAMPLED;
      if !unsampled {
        declared.sampled := true;
      }
      var decided: bool;
      rate, decided := declared.DeclaredRate(odid, id, isSampler);
      if decided {
        return rate, rate == 0;
      }
      if unsampled {
        return 0, declared.declaredZero;
      }
      rate := InForceRate();
      return rate, rate == 0;
    }

    /** scopedCorrection. */
    method ScopedCorrection(t: TemplateRef, inputIf: u32) returns (rate: u32, held: bool)
      requires declared.Valid()
      ensures var scoped := declared.View().scoped;
              if TemplateScope(odid, t) in scoped then (rate, held) == (scoped[TemplateScope(odid, t)].rate, true)
              else if inputIf != 0 && InterfaceScope(odid, inputIf) in scoped
                then (rate, held) == (scoped[InterfaceScope(odid, inputIf)].rate, true)
                else (rate, held) == (0, false)
    {
      rate, held := declared.ScopedRate(TemplateScope(odid, t));
      if held {
        return;
      }
      if inputIf == 0 {
        return 0, false;
      }
      rate, held := declared.ScopedRate(InterfaceScope(odid, inputIf));
    }

    /** The rate the precedence gives, and one more unresolved where it is owed. */
    ghost predicate Settled(n: Naming, t: TemplateRef, inputIf: u32, rate: u32, unresolved: u64)
      reads this, declared
    {
      exists owed :: Corrects(Facts(t, inputIf), n, rate, owed)
                     && samplingUnresolved == Add64(unresolved, if owed then 1 else 0)
    }

    /** What finishRecord asks for a record that carried no rate. */
    method RateForRecord(n: Naming, t: TemplateRef, inputIf: u32) returns (rate: u32)
      requires declared.Valid()
      modifies this`samplingUnresolved, declared`sampled
      ensures declared.Valid() && declared.View() == old(declared.View())
      ensures Settled(n, t, inputIf, rate, old(samplingUnresolved))
      ensures declared.sampled ==
              (old(declared.sampled) || (n.Sampler? && n.id != UNSAMPLED) || n.Selector?)
    {
      var owed: bool;
      match n {
        case Sampler(id) => rate, owed := CorrectionFor(id, true);
        case Selector(id) => rate, owed := CorrectionFor(id, false);
        case Unnamed =>
          var held: bool;
          rate, held := ScopedCorrection(t, inputIf);
          owed := false;
          if !held {
            rate := InForceRate();
            owed := rate == 0;
          }
      }
      assert Corrects(Facts(t, inputIf), n, rate, owed);
      if owed {
        samplingUnresolved := Add64(samplingUnresolved, 1);
      }
      assert Corrects(Facts(t, inputIf), n, rate, owed);
    }

    /** finishRecord's stamp. A record that carried a rate of its own keeps it and
        asks for none. */
    method StampRate(carried: u32, n: Naming, t: TemplateRef, inputIf: u32) returns (rate: u32)
      requires declared.Valid()
      modifies this`samplingUnresolved, declared`sampled
      ensures declared.Valid() && declared.View() == old(declared.View())
      ensures if carried != 0
              then rate == carried && samplingUnresolved == old(samplingUnresolved)
                   && declared.sampled == old(declared.sampled)
              else Settled(n, t, inputIf, rate, old(samplingUnresolved))
                   && declared.sampled == (old(declared.sampled) || (n.Sampler? && n.id != UNSAMPLED) || n.Selector?)
    {
      hide Corrects;
      if carried != 0 {
        return carried;
      }
      rate := RateForRecord(n, t, inputIf);
    }
  }
}
