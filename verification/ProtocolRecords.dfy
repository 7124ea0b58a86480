/**
 What holds of the transaction records over every run, whatever the scans miss: records are well
 formed, what they and the selector name is stored, a running process holds its own record, and
 every activating transaction is armed.
 */
module ProtocolRecords {
  import opened Common
  import opened Protocol
  import opened ProtocolSafety

  ghost predicate RecordsSound(h: Host) {
    && (h.selector.Some? ==> Stored(h, h.selector.value))
    && (forall i :: i in h.txs ==> RecordKept(h, h.txs[i]))
  }

  predicate LateCheck(check: CheckAt) {
    check.CheckOwnership? || check.Validate? || check.WriteGeneration? || check.ReadFirewall?
  }

  ghost predicate CheckSound(s: State)
    requires s.p.Checking?
  {
    var p, h := s.p, s.h;
    && p.id !in h.txs && p.manifest.version == 1
    && (LateCheck(p.check) ==> p.active != Some(p.generation) && (p.active.Some? ==> Stored(h, p.active.value)))
    && (p.check.ReadFirewall? ==> Stored(h, p.generation))
  }

  ghost predicate ApplySound(s: State)
    requires s.p.Applying?
  {
    var p, h, t := s.p, s.h, s.p.tx;
    && Undecided(t) && RecordKept(h, t)
    && match p.at
       case Prepare => p.id !in h.txs && t.phase.Prepared?
       case StartTimer => Durable(h, p.id, t, Prepared) && t.phase.Prepared?
       case SeeTimer => Durable(h, p.id, t, Prepared) && t.phase.Prepared?
       case Arm => Durable(h, p.id, t, Prepared) && t.phase.Armed? && p.id in s.armed
       case MarkActivating => Durable(h, p.id, t, Armed) && t.phase.Activating?
       case Select => Durable(h, p.id, t, Activating) && t.phase.Activating?
       case Own => Durable(h, p.id, t, Activating) && t.phase.Activating?
       case Load => Durable(h, p.id, t, Activating) && t.phase.Activating?
       case MarkActivated => Durable(h, p.id, t, Activating) && t.phase.Activated?
       case SetTimer => Durable(h, p.id, t, Activated) && t.phase.Activated?
       case Enable => Durable(h, p.id, t, Activated) && t.phase.Activated?
       case Rerecord =>
         && p.id in h.txs && Durable(h, p.id, t, h.txs[p.id].phase)
         && (h.txs[p.id].phase.Armed? || !t.phase.Prepared? ==> p.id in s.armed)
  }

  ghost predicate RollSound(s: State)
    requires s.p.Rolling?
  {
    var p, h, t := s.p, s.h, s.p.tx;
    !p.step.ReadTx? ==>
      && Undecided(t) && p.id in h.txs && h.txs[p.id] == t
      && (FreshStep(p.step) ==> t.freshInstall && Mutable(t))
      && (UpdateStep(p.step) ==> !t.freshInstall && Mutable(t))
  }

  ghost predicate ConfirmSound(s: State)
    requires s.p.Confirming?
  {
    var p, h, t := s.p, s.h, s.p.tx;
    !p.stop.ReadRecord? ==> Undecided(t) && t.phase.Activated? && p.id in h.txs && h.txs[p.id] == t
  }

  ghost predicate ProcSound(s: State) {
    match s.p
    case Idle => true
    case Checking(_, _, _, _, _, _) => CheckSound(s)
    case Applying(_, _, _, _) => ApplySound(s)
    case Rolling(_, _, _, _, _) => RollSound(s)
    case Confirming(_, _, _) => ConfirmSound(s)
    case Cancelling(id, _) => id in s.h.txs && !Undecided(s.h.txs[id])
    case Scanning(_) => true
  }

  ghost predicate ArmedSound(s: State) {
    forall i :: Pending(s.h.txs, i) && !s.h.txs[i].phase.Prepared? ==> i in s.armed
  }

  /** The invariant of every run. */
  ghost predicate Sound(s: State) {
    RecordsSound(s.h) && ProcSound(s) && ArmedSound(s)
  }

  // ---------- kept by every event ----------

  lemma CheckKeepsSound(s: State, f: Fate)
    requires Sound(s) && s.p.Checking?
    ensures Sound(TickCheck(s, f))
  {
    CheckKeepsFiles(s, f);
    CheckKeepsProcSound(s, f);
    var h' := TickCheck(s, f).h;
    assert forall i :: i in h'.txs ==> RecordKept(s.h, h'.txs[i]) && RecordKept(h', h'.txs[i]);
  }

  lemma CheckKeepsProcSound(s: State, f: Fate)
    requires RecordsSound(s.h) && s.p.Checking? && CheckSound(s)
    ensures ProcSound(TickCheck(s, f))
  {
    if LateCheck(s.p.check) {
      LateCheckKeepsProc(s, f);
    } else {
      EarlyCheckKeepsProc(s, f);
    }
  }

  lemma EarlyCheckKeepsProc(s: State, f: Fate)
    requires RecordsSound(s.h) && s.p.Checking? && CheckSound(s) && !LateCheck(s.p.check)
    ensures TickCheck(s, f).p.Idle? || (TickCheck(s, f).p.Checking? && CheckSound(TickCheck(s, f)))
  {
    hide RecordKept;
  }

  lemma LateCheckKeepsProc(s: State, f: Fate)
    requires s.p.Checking? && CheckSound(s) && LateCheck(s.p.check)
    ensures var s' := TickCheck(s, f);
      s'.p.Idle? || (s'.p.Checking? && CheckSound(s')) || (s'.p.Applying? && ApplySound(s'))
  {
  }

  /** What is known of the running apply's own record. */
  ghost predicate OwnArmed(s: State)
    requires s.p.Applying?
  {
    Pending(s.h.txs, s.p.id) && !s.h.txs[s.p.id].phase.Prepared? ==> s.p.id in s.armed
  }

  lemma ApplyKeepsProcSound(s: State, f: Fate)
    requires s.p.Applying? && ApplySound(s) && OwnArmed(s)
    ensures ProcSound(TickApply(s, f))
  {
    if s.p.at.Prepare? || s.p.at.StartTimer? || s.p.at.SeeTimer? || s.p.at.Rerecord? {
      UnarmedKeepsProc(s, f);
    } else if Recording(s.p.at) {
      PhaseKeepsSound(s, f);
    } else {
      ArmedKeepsProc(s, f);
    }
  }

  ghost predicate ApplySounds(s: State) {
    || s.p.Idle?
    || (s.p.Applying? && ApplySound(s))
    || (s.p.Rolling? && s.p.step.ReadTx?)
  }

  lemma UnarmedKeepsProc(s: State, f: Fate)
    requires s.p.Applying? && ApplySound(s)
    requires s.p.at.Prepare? || s.p.at.StartTimer? || s.p.at.SeeTimer? || s.p.at.Rerecord?
    ensures ApplySounds(TickApply(s, f))
  {
  }

  lemma PhaseKeepsSound(s: State, f: Fate)
    requires s.p.Applying? && ApplySound(s) && OwnArmed(s)
    requires s.p.at.Arm? || s.p.at.MarkActivating? || s.p.at.MarkActivated?
    ensures ApplySounds(TickApply(s, f))
  {
  }

  lemma ArmedKeepsProc(s: State, f: Fate)
    requires s.p.Applying? && ApplySound(s) && OwnArmed(s)
    requires Moving(s.p.at) || s.p.at.SetTimer? || s.p.at.Enable?
    ensures ApplySounds(TickApply(s, f))
  {
    hide TickApply, ApplySound, OwnArmed, ApplySounds;
    if Moving(s.p.at) { MovingKeepsSound(s, f); } else { SwitchKeepsSound(s, f); }
  }

  lemma MovingKeepsSound(s: State, f: Fate)
    requires s.p.Applying? && ApplySound(s) && OwnArmed(s) && Moving(s.p.at)
    ensures ApplySounds(TickApply(s, f))
  {
    hide TickApply, ApplySound, OwnArmed, ApplySounds;
    if s.p.at.Load? { LoadKeepsSound(s, f); } else { SelectKeepsSound(s, f); }
  }

  lemma SelectKeepsSound(s: State, f: Fate)
    requires s.p.Applying? && ApplySound(s) && OwnArmed(s) && (s.p.at.Select? || s.p.at.Own?)
    ensures ApplySounds(TickApply(s, f))
  {
  }

  lemma LoadKeepsSound(s: State, f: Fate)
    requires s.p.Applying? && ApplySound(s) && OwnArmed(s) && s.p.at.Load?
    ensures ApplySounds(TickApply(s, f))
  {
  }

  lemma SwitchKeepsSound(s: State, f: Fate)
    requires s.p.Applying? && ApplySound(s) && OwnArmed(s) && (s.p.at.SetTimer? || s.p.at.Enable?)
    ensures ApplySounds(TickApply(s, f))
  {
  }

  /** Writing a record that is sound itself. */
  lemma WriteKeepsRecords(h: Host, id: Id, t: Tx, f: Fate)
    requires RecordsSound(h) && RecordKept(h, t)
    ensures RecordsSound(WithTx(h, id, t, f))
  {
    var h' := WithTx(h, id, t, f);
    forall i | i in h'.txs ensures RecordKept(h', h'.txs[i]) {
      if i in h.txs { assert RecordKept(h, h.txs[i]); }
    }
  }

  lemma SameRecords(h: Host, h': Host)
    requires RecordsSound(h) && h'.txs == h.txs && h'.store == h.store
    requires h'.selector.Some? ==> Stored(h, h'.selector.value)
    ensures RecordsSound(h')
  {
    assert forall i :: i in h'.txs ==> RecordKept(h, h'.txs[i]) && RecordKept(h', h'.txs[i]);
  }

  lemma ApplyKeepsSound(s: State, f: Fate)
    requires Sound(s) && s.p.Applying?
    ensures Sound(TickApply(s, f))
  {
    ApplyKeepsRest(s, f);
    assert OwnArmed(s);
    ApplyKeepsProcSound(s, f);
    hide TickApply, ProcSound;
    if Recording(s.p.at) {
      WriteKeepsRecords(s.h, s.p.id, s.p.tx, f);
      RecordingArms(s);
    } else {
      ApplySelects(s, f);
      SameRecords(s.h, TickApply(s, f).h);
    }
  }

  lemma RecordingArms(s: State)
    requires s.p.Applying? && ApplySound(s) && ArmedSound(s) && Recording(s.p.at)
    ensures !s.p.tx.phase.Prepared? ==> s.p.id in s.armed
  {
    if s.p.id in s.h.txs { assert Pending(s.h.txs, s.p.id); }
  }

  lemma ApplySelects(s: State, f: Fate)
    requires s.p.Applying? && !Recording(s.p.at)
    ensures var h' := TickApply(s, f).h;
      && h'.txs == s.h.txs && h'.store == s.h.store
      && (h'.selector == s.h.selector || h'.selector == Some(s.p.tx.generation))
  {
  }

  ghost predicate RollSounds(s: State, was: State)
    requires was.p.Rolling?
  {
    || (s.p.Rolling? && RollSound(s))
    || s == Done(was, s.h, false)
    || (s == Done(was, s.h, true) && was.p.id in s.h.txs && !Undecided(s.h.txs[was.p.id]))
  }

  lemma RollKeepsProcSound(s: State, f: Fate)
    requires s.p.Rolling? && RollSound(s)
    ensures ProcSound(TickRoll(s, f))
  {
    if s.p.step.ReadTx? {
      ReadKeepsProc(s, f);
    } else if FreshStep(s.p.step) {
      FreshKeepsProcSound(s, f);
    } else if UpdateStep(s.p.step) {
      UpdateKeepsProcSound(s, f);
    } else {
      UnitsKeepProcSound(s, f);
    }
    hide TickRoll;
  }

  lemma ReadKeepsProc(s: State, f: Fate)
    requires s.p.Rolling? && s.p.step.ReadTx?
    ensures RollSounds(TickRoll(s, f), s)
  {
  }

  lemma FreshKeepsProcSound(s: State, f: Fate)
    requires s.p.Rolling? && RollSound(s) && FreshStep(s.p.step)
    ensures RollSounds(TickRoll(s, f), s)
  {
    hide Done;
  }

  lemma UpdateKeepsProcSound(s: State, f: Fate)
    requires s.p.Rolling? && RollSound(s) && UpdateStep(s.p.step)
    ensures RollSounds(TickRoll(s, f), s)
  {
    var h' := TickRoll(s, f).h;
    assert Done(s, h', false).h == h';
    hide Done;
  }

  lemma UnitsKeepProcSound(s: State, f: Fate)
    requires s.p.Rolling? && RollSound(s) && !s.p.step.ReadTx? && !FreshStep(s.p.step) && !UpdateStep(s.p.step)
    ensures RollSounds(TickRoll(s, f), s)
  {
    var h' := TickRoll(s, f).h;
    assert Done(s, h', false).h == h' && Done(s, h', true).h == h';
    hide Done;
  }

  /** A rollback that keeps the records moves the selector to nothing or to the previous generation. */
  ghost predicate Retreats(s: State, h': Host)
    requires s.p.Rolling?
  {
    && h'.txs == s.h.txs && h'.store == s.h.store
    && (h'.selector == s.h.selector || h'.selector.None? || h'.selector == s.p.tx.previous)
  }

  lemma RollWrites(s: State, f: Fate)
    requires s.p.Rolling? && RollSound(s)
    ensures var h' := TickRoll(s, f).h;
      if s.p.step.Finish? then h' == WithTx(s.h, s.p.id, s.p.tx.(rolledBack := true, phase := RolledBack), f)
      else Retreats(s, h')
  {
    hide Done, RollSound, TickFresh, TickUpdate, TickUnits;
    if s.p.step.ReadTx? {
    } else if FreshStep(s.p.step) {
      FreshRetreats(s, f);
    } else if UpdateStep(s.p.step) {
      UpdateRetreats(s, f);
    } else {
      UnitsRetreat(s, f);
    }
  }

  lemma FreshRetreats(s: State, f: Fate)
    requires s.p.Rolling? && FreshStep(s.p.step)
    ensures Retreats(s, TickFresh(s, f).h)
  {
  }

  lemma UpdateRetreats(s: State, f: Fate)
    requires s.p.Rolling? && UpdateStep(s.p.step)
    ensures Retreats(s, TickUpdate(s, f).h)
  {
  }

  lemma UnitsRetreat(s: State, f: Fate)
    requires s.p.Rolling?
    ensures s.p.step.Finish? ==>
      TickUnits(s, f).h == WithTx(s.h, s.p.id, s.p.tx.(rolledBack := true, phase := RolledBack), f)
    ensures !s.p.step.Finish? ==> Retreats(s, TickUnits(s, f).h)
  {
  }

  lemma RollKeepsSound(s: State, f: Fate)
    requires Sound(s) && s.p.Rolling?
    ensures Sound(TickRoll(s, f))
  {
    RollWrites(s, f);
    RollKeepsProcSound(s, f);
    hide TickRoll, ProcSound;
    if !s.p.step.ReadTx? { assert RecordKept(s.h, s.h.txs[s.p.id]); }
    if s.p.step.Finish? {
      WriteKeepsRecords(s.h, s.p.id, s.p.tx.(rolledBack := true, phase := RolledBack), f);
    } else {
      SameRecords(s.h, TickRoll(s, f).h);
    }
  }

  lemma ConfirmKeepsSound(s: State, f: Fate)
    requires Sound(s) && s.p.Confirming?
    ensures Sound(TickConfirm(s, f))
  {
    if s.p.stop.WriteRecord? {
      ConfirmWriteKeepsSound(s, f);
    } else {
      hide RecordsSound;
    }
  }

  lemma ConfirmWriteKeepsSound(s: State, f: Fate)
    requires Sound(s) && s.p.Confirming? && s.p.stop.WriteRecord?
    ensures Sound(TickConfirm(s, f))
  {
    assert RecordKept(s.h, s.h.txs[s.p.id]);
    WriteKeepsRecords(s.h, s.p.id, s.p.tx.(confirmed := true, phase := Confirmed), f);
    hide RecordsSound;
  }

  lemma TickKeepsSound(s: State, f: Fate)
    requires Sound(s)
    ensures Sound(TickAny(s, f))
  {
    match s.p {
      case Idle =>
      case Checking(_, _, _, _, _, _) => CheckKeepsSound(s, f);
      case Applying(_, _, _, _) => ApplyKeepsSound(s, f);
      case Rolling(_, _, _, _, _) => RollKeepsSound(s, f);
      case Confirming(_, _, _) => ConfirmKeepsSound(s, f);
      case Cancelling(_, _) => SameRecords(s.h, TickAny(s, f).h);
      case Scanning(_) =>
    }
  }

  /** Losing the table or a timer, and scans, are nothing to the records. */
  lemma LossKeepsSound(s: State, s': State)
    requires Sound(s)
    requires s' == s.(h := s.h.(live := s'.h.live, timers := s'.h.timers), unread := s'.unread)
    ensures Sound(s')
  {
    SameRecords(s.h, s'.h);
  }

  lemma StepKeepsSound(s: State, e: Event)
    requires Sound(s)
    ensures Sound(Step(s, e))
  {
    match e {
      case Begin(cmd) =>
      case Tick(f) => TickKeepsSound(s, f);
      case Kill =>
      case Reboot => SameRecords(s.h, Step(s, e).h);
      case TableDeleted => LossKeepsSound(s, Step(s, e));
      case TimerElapses(i) => LossKeepsSound(s, Step(s, e));
      case BootLoad(f) => SameRecords(s.h, Step(s, e).h);
      case Unreadable(_) => LossKeepsSound(s, Step(s, e));
    }
  }

  lemma {:induction false} RunKeepsSound(s: State, es: seq<Event>)
    requires Sound(s)
    ensures Sound(Exec(s, es))
  {
    if es != [] {
      RunKeepsSound(s, es[..|es| - 1]);
      StepKeepsSound(Exec(s, es[..|es| - 1]), es[|es| - 1]);
    }
  }

  lemma InitSound()
    ensures Sound(INIT)
  {
  }
}
