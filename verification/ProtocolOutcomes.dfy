/**
 How the commands end when nothing fails any more: the recovery of an apply that failed at any of its
 interactions, a reconcile of any number of transactions, and an apply of what is already selected.
 */
module ProtocolOutcomes {
  import opened Common
  import opened Protocol
  import opened ProtocolSafety
  import opened ProtocolRecords
  import opened ProtocolRuns
  import opened ProtocolRecovery
  import opened ProtocolProgress

  // ---------- one rollback, whoever started it ----------

  /** `q` stands where `s` does, in a rollback that a restore has started. */
  ghost predicate Alike(s: State, q: State) {
    s.p.Rolling? && q.h == s.h && q.p == s.p.(after := Restored)
  }

  /** One interaction of a rollback, except for what follows its end, depends on host and step only. */
  ghost predicate AlikeNext(s: State, s': State, q': State)
    requires s.p.Rolling?
  {
    if q'.p.Idle? then s' == Done(s, q'.h, q'.ok)
    else Alike(s', q') && s' == s.(h := s'.h, p := s'.p) && s'.p.after == s.p.after && s'.p.id == s.p.id
  }

  lemma FreshAlike(s: State, q: State, f: Fate)
    requires Alike(s, q) && FreshStep(s.p.step)
    ensures AlikeNext(s, TickFresh(s, f), TickFresh(q, f))
  {
    hide TickFresh, AlikeNext;
    if s.p.step.ListTable? || s.p.step.DeleteTable? { TableAlike(s, q, f); } else { FilesAlike(s, q, f); }
  }

  lemma TableAlike(s: State, q: State, f: Fate)
    requires Alike(s, q) && (s.p.step.ListTable? || s.p.step.DeleteTable?)
    ensures AlikeNext(s, TickFresh(s, f), TickFresh(q, f))
  {
  }

  lemma FilesAlike(s: State, q: State, f: Fate)
    requires Alike(s, q) && FreshStep(s.p.step) && !s.p.step.ListTable? && !s.p.step.DeleteTable?
    ensures AlikeNext(s, TickFresh(s, f), TickFresh(q, f))
  {
    var h' := TickFresh(s, f).h;
    assert TickFresh(q, f).h == h';
  }

  lemma UpdateAlike(s: State, q: State, f: Fate)
    requires Alike(s, q) && UpdateStep(s.p.step)
    ensures AlikeNext(s, TickUpdate(s, f), TickUpdate(q, f))
  {
    hide UpdateStage;
  }

  lemma UnitsAlike(s: State, q: State, f: Fate)
    requires Alike(s, q) && !s.p.step.ReadTx? && !FreshStep(s.p.step) && !UpdateStep(s.p.step)
    ensures AlikeNext(s, TickUnits(s, f), TickUnits(q, f))
  {
    hide TickUnits, AlikeNext;
    assert s.p.step.Finish? || UnitsStep(s.p.step);
    if s.p.step.Finish? { FinishAlike(s, q, f); } else { SwitchAlike(s, q, f); }
  }

  lemma FinishAlike(s: State, q: State, f: Fate)
    requires Alike(s, q) && s.p.step.Finish?
    ensures AlikeNext(s, TickUnits(s, f), TickUnits(q, f))
  {
  }

  lemma SwitchAlike(s: State, q: State, f: Fate)
    requires Alike(s, q) && UnitsStep(s.p.step)
    ensures AlikeNext(s, TickUnits(s, f), TickUnits(q, f))
  {
    hide Intended, IntentReadable;
  }

  lemma ReadAlike(s: State, q: State, f: Fate)
    requires Alike(s, q) && s.p.step.ReadTx?
    ensures AlikeNext(s, TickRoll(s, f), TickRoll(q, f))
  {
  }

  lemma RollAlike(s: State, q: State, f: Fate)
    requires Alike(s, q)
    ensures AlikeNext(s, TickRoll(s, f), TickRoll(q, f))
  {
    hide TickFresh, TickUpdate, TickUnits, AlikeNext;
    if s.p.step.ReadTx? {
      ReadAlike(s, q, f);
    } else if FreshStep(s.p.step) {
      FreshAlike(s, q, f);
    } else if UpdateStep(s.p.step) {
      UpdateAlike(s, q, f);
    } else {
      UnitsAlike(s, q, f);
    }
  }

  /** So every rollback ends as a restore would, and then does what follows. */
  lemma {:induction false} RollEnds(s: State, q: State)
    requires Alike(s, q)
    ensures var r := Uninterrupted(q);
      r.p.Idle? && Uninterrupted(s) == Uninterrupted(Done(s, r.h, r.ok))
    decreases Work(s.p)
  {
    hide TickRoll;
    var s', q' := TickRoll(s, Works), TickRoll(q, Works);
    RollAlike(s, q, Works);
    TickWorksOff(s, Works);
    TickWorksOff(q, Works);
    assert Uninterrupted(s) == Uninterrupted(s') && Uninterrupted(q) == Uninterrupted(q');
    if !q'.p.Idle? {
      RollEnds(s', q');
      var r := Uninterrupted(q');
      assert Done(s', r.h, r.ok) == Done(s, r.h, r.ok);
    }
  }

  // ---------- what a rollback leaves ----------

  /** A rollback of `t` can be carried out: nothing has moved, or what has moved is recognised. */
  ghost predicate Recoverable(h: Host, t: Tx) {
    || !Mutable(t)
    || (t.freshInstall && FreshTriple(h, t.generation))
    || (!t.freshInstall && t.previous.Some? && Seven(h, t.generation, t.previous.value))
  }

  /** Selector, ownership, table, units and record after the rollback of `t`. */
  ghost function Recovery(h: Host, i: Id, t: Tx): Host {
    if t.freshInstall then
      if Mutable(t) then NothingLeft(h, i, t) else h.(txs := h.txs[i := MarkedRolledBack(t)])
    else if Mutable(t) && t.previous.Some? then PreviousRestored(h, i, t)
    else UnitsRestored(h, i, t)
  }

  ghost predicate Begun(s: State, i: Id, t: Tx) {
    s.p == Rolling(ReadTx, i, NO_TX, false, Restored) && i in s.h.txs && s.h.txs[i] == t && Undecided(t)
    && RecordKept(s.h, t)
  }

  lemma RecoverableEnds(s: State, i: Id, t: Tx)
    requires Begun(s, i, t) && Recoverable(s.h, t)
    ensures Uninterrupted(s) == s.(h := Recovery(s.h, i, t), p := Idle, ok := true)
  {
    var s1 := TickAny(s, Works);
    assert At(s1, FirstStep(t), i, t) && s1 == s.(p := s1.p);
    assert Uninterrupted(s) == Uninterrupted(s1);
    if t.freshInstall {
      if Mutable(t) { FreshComplete(s1, i, t); } else { assert Uninterrupted(s1) == TickAny(s1, Works); }
    } else {
      if Mutable(t) { StageComplete(s1, i, t); } else { UnitsComplete(s1, i, t); }
    }
  }

  lemma UnrecognisedEnds(s: State, i: Id, t: Tx)
    requires Begun(s, i, t) && !Recoverable(s.h, t)
    requires t.freshInstall && Mutable(t) ==> FreshTriple(s.h, t.generation)
    ensures Uninterrupted(s) == s.(p := Idle, ok := false)
  {
    StageExact(s.h, t);
    var s1 := TickAny(s, Works);
    assert At(s1, Stage, i, t);
    var s2 := TickAny(s1, Works);
    assert Uninterrupted(s) == Uninterrupted(s1) == Uninterrupted(s2) == s2;
  }

  // ---------- the recovery of a failed apply ----------

  /** The apply has not finished its next interaction, or has not seen its timer. */
  ghost predicate Fails(s: State, f: Fate)
    requires s.p.Applying?
  {
    !f.Works? || (s.p.at.SeeTimer? && s.p.id !in s.h.timers)
  }

  /** The host once the recovery has written the record as the apply last intended it. */
  function Rerecorded(h: Host, i: Id, t: Tx): Host {
    h.(txs := h.txs[i := t])
  }

  /** How a recovery ends: rolled back, and then without a timer, or pending under its timer. */
  ghost predicate RecoveredFrom(s: State, s': State, i: Id, t: Tx) {
    var h := Rerecorded(s.h, i, t);
    && s'.p.Idle? && !s'.ok
    && (if Recoverable(s.h, t) then s'.h == Recovery(h, i, t).(timers := s.h.timers - {i}) else s'.h == h)
  }

  lemma RollbackOfRecovery(s: State, i: Id, t: Tx)
    requires Inv(s) && s.p == Rolling(ReadTx, i, NO_TX, false, Recovered) && Pending(s.h.txs, i) && s.h.txs[i] == t
    ensures RecoveredFrom(s, Uninterrupted(s), i, t)
  {
    var q := s.(p := s.p.(after := Restored));
    RecoveryBegun(s, q, i, t);
    hide TickRoll, Inv, Recovery, Recoverable, RecordKept;
    RollEnds(s, q);
    assert Rerecorded(s.h, i, t) == s.h;
    if Recoverable(s.h, t) {
      RecoverableEnds(q, i, t);
      CancelEnds(Done(s, Recovery(s.h, i, t), true), i);
    } else {
      UnrecognisedEnds(q, i, t);
    }
  }

  lemma RecoveryBegun(s: State, q: State, i: Id, t: Tx)
    requires Inv(s) && s.p == Rolling(ReadTx, i, NO_TX, false, Recovered) && Pending(s.h.txs, i) && s.h.txs[i] == t
    requires q == s.(p := s.p.(after := Restored))
    ensures Begun(q, i, t) && (t.freshInstall && Mutable(t) ==> FreshTriple(s.h, t.generation))
  {
    NothingElsePending(s, i);
  }

  lemma CancelEnds(s: State, i: Id)
    requires s.p == Cancelling(i, false)
    ensures Uninterrupted(s) == End(s, s.h.(timers := s.h.timers - {i}), false)
  {
    assert Uninterrupted(s) == TickAny(s, Works);
  }

  lemma RecoveryOfRecord(s: State)
    requires Inv(s) && s.p.Applying? && s.p.at.Rerecord?
    ensures RecoveredFrom(s, Uninterrupted(s), s.p.id, s.p.tx)
  {
    hide Inv, TickAny, Recoverable, Recovery;
    var i, t := s.p.id, s.p.tx;
    var s1 := s.(h := Rerecorded(s.h, i, t), p := Rolling(ReadTx, i, NO_TX, false, Recovered));
    RecordTick(s);
    RecordedAlike(s.h, i, t);
    RollbackOfRecovery(s1, i, t);
    assert Uninterrupted(s) == Uninterrupted(s1);
  }

  lemma RecordTick(s: State)
    requires Inv(s) && s.p.Applying? && s.p.at.Rerecord?
    ensures var i, t := s.p.id, s.p.tx;
      && TickAny(s, Works) == s.(h := Rerecorded(s.h, i, t), p := Rolling(ReadTx, i, NO_TX, false, Recovered))
      && Inv(TickAny(s, Works)) && Undecided(t)
  {
    TickKeepsInv(s, Works);
  }

  lemma RecordedAlike(h: Host, i: Id, t: Tx)
    ensures Recoverable(Rerecorded(h, i, t), t) == Recoverable(h, t)
    ensures Rerecorded(Rerecorded(h, i, t), i, t) == Rerecorded(h, i, t)
  {
  }

  lemma FailureRecovers(s: State, f: Fate)
    requires Inv(s) && s.p.Applying? && !s.p.at.Prepare? && !s.p.at.Rerecord? && Fails(s, f)
    ensures var m := TickAny(s, f); Inv(m) && m == s.(h := m.h, p := s.p.(at := Rerecord))
  {
    TickKeepsInv(s, f);
  }

  lemma RecoveringAlone(s: State)
    requires Inv(s) && s.p.Applying? && s.p.at.Rerecord?
    ensures Undecided(s.p.tx) && NoPending(s.h.txs[s.p.id := MarkedRolledBack(s.p.tx)])
  {
    assert Pending(s.h.txs, s.p.id);
    var txs := s.h.txs[s.p.id := MarkedRolledBack(s.p.tx)];
    forall j | j in txs ensures !Undecided(txs[j]) {
      assert j == s.p.id || !Pending(s.h.txs, j);
    }
  }

  lemma RecoveryRecords(h: Host, i: Id, t: Tx)
    ensures Recovery(h, i, t).txs == h.txs[i := MarkedRolledBack(t)]
  {
  }

  /**
   An apply that fails at any interaction and is then left to its recovery is rolled back, and its timer
   stopped, if and only if nothing could have moved yet or the host is recognised; selector,
   ownership, table, units and DDNS timer are then the restored ones. Otherwise it stays pending under
   its timer, with its record as last intended and all else as the failure left it.
   */
  lemma FailedApply(s: State, f: Fate)
    requires Inv(s) && s.p.Applying? && !s.p.at.Prepare? && !s.p.at.Rerecord? && Fails(s, f)
    ensures var m := TickAny(s, f); var s' := Uninterrupted(m); var i, t := s.p.id, s.p.tx;
      && m.p == s.p.(at := Rerecord) && s'.p.Idle? && !s'.ok && i in s'.h.txs
      && (s'.h.txs[i].rolledBack <==> Recoverable(m.h, t))
      && (s'.h.txs[i].rolledBack ==>
            s'.h == Recovery(Rerecorded(m.h, i, t), i, t).(timers := m.h.timers - {i}) && NoPending(s'.h.txs))
      && (!s'.h.txs[i].rolledBack ==> s'.h == Rerecorded(m.h, i, t) && Pending(s'.h.txs, i))
  {
    hide Inv, TickAny, Recoverable, Recovery, NoPending;
    var m, i, t := TickAny(s, f), s.p.id, s.p.tx;
    FailureRecovers(s, f);
    RecoveringAlone(m);
    RecoveryOfRecord(m);
    RecoveryRecords(Rerecorded(m.h, i, t), i, t);
    assert m.h.txs[i := t][i := MarkedRolledBack(t)] == m.h.txs[i := MarkedRolledBack(t)];
  }

  /** The failing interaction leaves selector and ownership or table of an update apart. */
  predicate Strands(s: State, f: Fate)
    requires s.p.Applying?
  {
    && !s.p.tx.freshInstall
    && (|| (s.p.at.Select? && f.FailsAfter?)
        || (s.p.at.Own? && (f.FailsBefore? || s.h.live.Table?))
        || (s.p.at.Load? && f.FailsBefore? && s.h.live.Table?))
  }

  /** Which failures these are can be told from the interaction that fails. */
  lemma RecoverableExactly(s: State, f: Fate)
    requires Inv(s) && s.p.Applying? && !s.p.at.Prepare? && !s.p.at.Rerecord? && Fails(s, f)
    ensures Recoverable(TickAny(s, f).h, s.p.tx) <==> !Strands(s, f)
  {
    hide TickApply, Recoverable;
    if Moving(s.p.at) { MovingRecoverable(s, f); } else { StayingRecoverable(s, f); }
  }

  /** An update's triple where an apply of it may stand after its selector has moved. */
  lemma StayingRecoverable(s: State, f: Fate)
    requires Inv(s) && s.p.Applying? && !s.p.at.Prepare? && !s.p.at.Rerecord? && !Moving(s.p.at)
    ensures Recoverable(TickApply(s, f).h, s.p.tx)
  {
    hide TickApply, Recoverable;
    assert SameTriple(s.h, TickApply(s, f).h) by { ApplyKeepsRest(s, f); }
    StandingRecoverable(s);
    SameRecoverable(s.h, TickApply(s, f).h, s.p.tx);
  }

  lemma SameRecoverable(h: Host, h': Host, t: Tx)
    requires SameTriple(h, h')
    ensures Recoverable(h, t) == Recoverable(h', t)
  {
  }

  lemma StandingRecoverable(s: State)
    requires Inv(s) && s.p.Applying? && !s.p.at.Prepare? && !s.p.at.Rerecord? && !Moving(s.p.at)
    ensures Recoverable(s.h, s.p.tx)
  {
    assert Pending(s.h.txs, s.p.id);
    NothingElsePending(s, s.p.id);
  }

  lemma MovingRecoverable(s: State, f: Fate)
    requires Inv(s) && s.p.Applying? && Moving(s.p.at) && Fails(s, f)
    ensures Recoverable(TickApply(s, f).h, s.p.tx) <==> !Strands(s, f)
  {
    hide HostKept;
    assert HostKept(s.h, s.last);
    SelectedStored(s.h, s.p.tx, s.last);
  }

  lemma SelectedStored(h: Host, t: Tx, last: Option<Generation>)
    requires HostKept(h, last)
    ensures h.selector.Some? ==> h.selector.value in h.store
  {
  }

  /** Interaction `n` of an update fails so that selector and ownership or table are left apart. */
  predicate StrandsAt(h: Host, n: nat, f: Fate) {
    && h.selector.Some?
    && (|| (n == 5 && f.FailsAfter?)
        || (n == 6 && (f.FailsBefore? || h.live.Table?))
        || (n == 7 && f.FailsBefore? && h.live.Table?))
  }

  /** `Apply(i, c, m)` whose checks and first `n` interactions work and whose next ends in `f`. */
  function FailingApply(s: State, i: Id, c: Generation, m: Manifest, n: nat, f: Fate): State {
    Exec(s, [Begin(Apply(i, c, m))] + Ticks(6 + n) + [Tick(f)])
  }

  lemma FailureReached(s: State, i: Id, c: Generation, m: Manifest, n: nat, f: Fate)
    requires Inv(s) && CanApply(s, i, c, m) && n <= 10
    ensures Inv(ApplyAfter(s, i, c, m, n)) && FailingApply(s, i, c, m, n, f) == TickAny(ApplyAfter(s, i, c, m, n), f)
  {
    hide Inv, CanApply, TickAny, Underway, Ticks;
    var e := Begin(Apply(i, c, m));
    var es := [e] + Ticks(6 + n);
    assert (es + [Tick(f)])[..|es|] == es;
    BeginFirst(s, e, 6 + n);
    CanApplyApplicable(s, i, c, m);
    ReachesPlace(s, i, c, m, n);
    assert !ApplyAfter(s, i, c, m, n).blind by { Sighted(s, i, c, m, n); }
    RunKeepsInv(s, es);
  }

  lemma Sighted(s: State, i: Id, c: Generation, m: Manifest, n: nat)
    requires Inv(s) && n <= 10
    ensures !ApplyAfter(s, i, c, m, n).blind
  {
  }

  /** The host's selector, ownership, table, units, timers and store after an apply that came to nothing. */
  ghost predicate Unapplied(h: Host, h': Host, i: Id, c: Generation, m: Manifest, n: nat) {
    var desired := h.selector.Some? && h.selector.value in h.store && h.store[h.selector.value].ddnsDesired;
    && h'.selector == h.selector && h'.owner == h.owner && h'.fwEnabled == h.fwEnabled
    && h'.live == (if n < 4 || h.selector.None? then h.live else Table([h.selector.value]))
    && h'.ddns == (if n < 4 && h.selector.None? then h.ddns else Unit(desired, desired))
    && h'.timers == h.timers - {i} && h'.store == h.store[c := m]
    && h'.txs == h.txs[i := MarkedRolledBack(Applied(h, c))]
  }

  /**
   On a quiescent host, an apply whose interaction `n` with its transaction fails, and whose recovery is
   let run, leaves everything but its record as it was before, unless the failure is one of the three
   that leave an update's selector and ownership or table apart; then it stays pending under its timer.
   */
  lemma FailureUndone(s: State, i: Id, c: Generation, m: Manifest, n: nat, f: Fate)
    requires Inv(s) && CanApply(s, i, c, m) && 1 <= n <= 10 && !f.Works?
    ensures var s' := Uninterrupted(FailingApply(s, i, c, m, n, f));
      && s'.p.Idle? && !s'.ok
      && (!StrandsAt(s.h, n, f) ==> Unapplied(s.h, s'.h, i, c, m, n) && NoPending(s'.h.txs))
      && (StrandsAt(s.h, n, f) ==> Pending(s'.h.txs, i) && i in s'.h.timers && s'.h.selector == Some(c))
  {
    hide Inv, TickAny, Recovery, Recoverable, FailingApply, Underway, ApplyAfter, Unapplied, Strands, StrandsAt;
    var u := ApplyAfter(s, i, c, m, n);
    var u', t := TickAny(u, f), Applied(s.h, c).(phase := IntendedPhase(n));
    FailureReached(s, i, c, m, n, f);
    ApplyStands(s, i, c, m, n, f);
    FailedApply(u, f);
    RecoverableExactly(u, f);
    FailureTouches(s, i, c, m, n, f);
    if !StrandsAt(s.h, n, f) {
      RecoveryUnapplies(s, u'.h, i, c, m, n);
    }
  }

  lemma ApplyStands(s: State, i: Id, c: Generation, m: Manifest, n: nat, f: Fate)
    requires 1 <= n <= 10
    ensures var u := ApplyAfter(s, i, c, m, n);
      && u.p == Applying(Place(n), i, Applied(s.h, c).(phase := IntendedPhase(n)), m.ddnsDesired)
      && !u.p.at.Prepare? && !u.p.at.Rerecord? && (Strands(u, f) <==> StrandsAt(s.h, n, f))
  {
  }

  /** What such a failure leaves of the host's state before the apply. */
  ghost predicate Touched(h: Host, h': Host, i: Id, c: Generation, m: Manifest, n: nat) {
    && h'.store == h.store[c := m] && h'.timers - {i} == h.timers - {i}
    && i in h'.txs && h'.txs == h.txs[i := h'.txs[i]]
    && (n < 4 ==> h'.selector == h.selector && h'.owner == h.owner && h'.live == h.live && h'.ddns == h.ddns)
    && (n < 4 ==> h'.fwEnabled == h.fwEnabled)
  }

  lemma FailureTouches(s: State, i: Id, c: Generation, m: Manifest, n: nat, f: Fate)
    requires 1 <= n <= 10 && !f.Works?
    ensures var u := TickAny(ApplyAfter(s, i, c, m, n), f);
      && Touched(s.h, u.h, i, c, m, n)
      && (StrandsAt(s.h, n, f) ==> u.h.selector == Some(c) && i in u.h.timers)
  {
    hide TickApply, Touched;
    if n < 4 {
      EarlyFailureTouches(s, i, c, m, n, f);
    } else if n < 8 {
      MidFailureTouches(s, i, c, m, n, f);
    } else {
      LateFailureTouches(s, i, c, m, n, f);
    }
  }

  lemma EarlyFailureTouches(s: State, i: Id, c: Generation, m: Manifest, n: nat, f: Fate)
    requires 1 <= n < 4 && !f.Works?
    ensures Touched(s.h, TickApply(ApplyAfter(s, i, c, m, n), f).h, i, c, m, n)
  {
  }

  lemma LateFailureTouches(s: State, i: Id, c: Generation, m: Manifest, n: nat, f: Fate)
    requires 8 <= n <= 10 && !f.Works?
    ensures Touched(s.h, TickApply(ApplyAfter(s, i, c, m, n), f).h, i, c, m, n)
  {
  }

  lemma MidFailureTouches(s: State, i: Id, c: Generation, m: Manifest, n: nat, f: Fate)
    requires 4 <= n < 8 && !f.Works?
    ensures var u := TickApply(ApplyAfter(s, i, c, m, n), f);
      && Touched(s.h, u.h, i, c, m, n)
      && (StrandsAt(s.h, n, f) ==> u.h.selector == Some(c) && i in u.h.timers)
  {
  }

  /** A quiescent host on which `c` is not selected. */
  ghost predicate Resting(h: Host, c: Generation) {
    && h.selector != Some(c) && h.owner == OwnerOf(h.selector) && (h.selector.None? ==> h.live.Absent?)
    && (h.selector.Some? ==> h.selector.value in h.store && LiveIs(h, h.selector.value))
  }

  lemma RecoveryUnapplies(s: State, h: Host, i: Id, c: Generation, m: Manifest, n: nat)
    requires Inv(s) && CanApply(s, i, c, m) && Touched(s.h, h, i, c, m, n)
    ensures var t := Applied(s.h, c).(phase := IntendedPhase(n));
      Unapplied(s.h, Recovery(Rerecorded(h, i, t), i, t).(timers := h.timers - {i}), i, c, m, n)
  {
    assert Resting(s.h, c);
    hide Inv, CanApply, Touched, Unapplied, Recovery, Resting;
    if s.h.selector.Some? { UpdateUnapplies(s.h, h, i, c, m, n); } else { FreshUnapplies(s.h, h, i, c, m, n); }
  }

  lemma UpdateUnapplies(h0: Host, h: Host, i: Id, c: Generation, m: Manifest, n: nat)
    requires Resting(h0, c) && Touched(h0, h, i, c, m, n) && h0.selector.Some?
    ensures var t := Applied(h0, c).(phase := IntendedPhase(n));
      Unapplied(h0, Recovery(Rerecorded(h, i, t), i, t).(timers := h.timers - {i}), i, c, m, n)
  {
  }

  lemma FreshUnapplies(h0: Host, h: Host, i: Id, c: Generation, m: Manifest, n: nat)
    requires Resting(h0, c) && Touched(h0, h, i, c, m, n) && h0.selector.None?
    ensures var t := Applied(h0, c).(phase := IntendedPhase(n));
      Unapplied(h0, Recovery(Rerecorded(h, i, t), i, t).(timers := h.timers - {i}), i, c, m, n)
  {
  }

  // ---------- reconciling ----------

  function Reconciling(s: State, order: seq<Id>): State {
    Uninterrupted(Step(s, Begin(Reconcile(order))))
  }

  /** One restore after the other. */
  function Restores(s: State, order: seq<Id>): State
    decreases |order|
  {
    if order == [] then s else Restores(Restoring(s, order[0]), order[1..])
  }

  /** Each of them succeeds. */
  predicate AllRestored(s: State, order: seq<Id>)
    decreases |order|
  {
    order == [] || (Restoring(s, order[0]).ok && AllRestored(Restoring(s, order[0]), order[1..]))
  }

  /** A reconcile that has come to `order` ends as restores of `order` would, from any state of that host. */
  lemma {:induction false} ReconcileGoesOn(s: State, q: State, order: seq<Id>, failed: bool)
    requires q.p.Idle? && q.h == s.h && order != []
    requires s.p == Rolling(ReadTx, order[0], NO_TX, false, NextPending(order[1..], failed))
    ensures Restores(q, order).p.Idle?
    ensures Uninterrupted(s) == EndReconcile(s, Restores(q, order).h, AllRestored(q, order) && !failed)
    decreases |order|
  {
    hide TickRoll;
    var q1 := Step(q, Begin(Restore(order[0])));
    assert Alike(s, q1);
    RollEnds(s, q1);
    var r := Restoring(q, order[0]);
    if |order| > 1 {
      ReconcileGoesOn(Done(s, r.h, r.ok), r, order[1..], failed || !r.ok);
    } else {
      assert Restores(r, []) == r;
    }
  }

  /**
   A reconcile that is let run leaves the host that restoring its transactions one after the other leaves;
   it goes on past one that fails, succeeds exactly when each of them did, and is then what lets the
   firewall load at boot.
   */
  lemma ReconcileExact(s: State, order: seq<Id>)
    requires s.p.Idle? && Lists(order, s.h.txs, s.unread)
    ensures var s' := Reconciling(s, order);
      && s'.p.Idle? && s'.h == Restores(s, order).h && (s'.ok <==> AllRestored(s, order))
      && s'.boot == (if !s.boot.Booting? then Up else if s'.ok then Reconciled else Booting)
  {
    var s1 := Step(s, Begin(Reconcile(order)));
    var s2 := TickAny(s1, Works);
    assert Uninterrupted(s1) == Uninterrupted(s2);
    if order != [] { ReconcileGoesOn(s2, s, order, false); }
  }

  /** Of one recoverable transaction: it ends rolled back. */
  lemma RestoringEnds(s: State, i: Id)
    requires s.p.Idle? && Pending(s.h.txs, i) && RecordKept(s.h, s.h.txs[i]) && Recoverable(s.h, s.h.txs[i])
    ensures Restoring(s, i) == s.(h := Recovery(s.h, i, s.h.txs[i]), p := Idle, ok := true, boot := Up)
  {
    RecoverableEnds(Step(s, Begin(Restore(i))), i, s.h.txs[i]);
  }

  lemma ReconcileOfOne(s: State, i: Id)
    requires Inv(s) && s.p.Idle? && s.boot.Booting? && Pending(s.h.txs, i) && i !in s.unread
    requires Recoverable(s.h, s.h.txs[i])
    ensures var s' := Reconciling(s, [i]);
      && s'.p.Idle? && s'.ok && s'.boot.Reconciled? && s'.h == Recovery(s.h, i, s.h.txs[i]) && NoPending(s'.h.txs)
  {
    NothingElsePending(s, i);
    assert Lists([i], s.h.txs, s.unread);
    assert NoPending(s.h.txs[i := MarkedRolledBack(s.h.txs[i])]) by { OthersDecided(s.h.txs, i); }
    RecoveryRecords(s.h, i, s.h.txs[i]);
    hide Inv, Reconciling, Recovery, Recoverable, Lists;
    ReconcileExact(s, [i]);
    RestoringEnds(s, i);
    var r := Restoring(s, i);
    assert Restores(r, []) == r && AllRestored(r, []);
    assert Restores(s, [i]) == r && AllRestored(s, [i]);
  }

  lemma OthersDecided(txs: map<Id, Tx>, i: Id)
    requires forall j, k :: Pending(txs, j) && Pending(txs, k) ==> j == k
    requires Pending(txs, i)
    ensures NoPending(txs[i := MarkedRolledBack(txs[i])])
  {
    forall j | j in txs ensures j == i || !Undecided(txs[j]) {
      assert j == i || !Pending(txs, j);
    }
  }

  /**
   After a reboot with one pending transaction that can be recovered, the reconcile rolls it back and the
   firewall unit then loads what it selects.
   */
  lemma BootRecovers(s: State, i: Id)
    requires Inv(s) && Pending(s.h.txs, i) && i !in s.unread
    requires var t := s.h.txs[i]; t.freshInstall || Recoverable(s.h.(live := Absent), t)
    ensures var m := Step(s, Reboot); var t := s.h.txs[i];
      var s1 := Reconciling(m, [i]); var s2 := Step(s1, BootLoad(Works));
      && s1.ok && s1.boot.Reconciled? && s1.h == Recovery(m.h, i, t) && NoPending(s1.h.txs)
      && s2.boot.Up? && s2.h.selector == s1.h.selector
      && s2.h.live == (if s1.h.selector.Some? then Table([s1.h.selector.value]) else Absent)
  {
    var m, t := Step(s, Reboot), s.h.txs[i];
    RebootKeepsInv(s);
    NothingElsePending(m, i);
    RebootRecoverable(s.h, m.h, t);
    ReconcileOfOne(m, i);
    RecoveredLive(m, i);
  }

  /** What the recovered host selects is stored, and nothing is live where nothing is selected. */
  lemma RecoveredLive(s: State, i: Id)
    requires Inv(s) && Pending(s.h.txs, i) && Recoverable(s.h, s.h.txs[i]) && s.h.live.Absent?
    ensures var h := Recovery(s.h, i, s.h.txs[i]);
      if h.selector.Some? then h.selector.value in h.store else h.live.Absent?
  {
  }

  lemma RebootRecoverable(h: Host, h': Host, t: Tx)
    requires h'.selector == h.selector && h'.owner == h.owner && h'.live.Absent?
    ensures Recoverable(h', t) == Recoverable(h.(live := Absent), t)
  {
  }

  // ---------- applying what is already selected ----------

  /** The selected generation is stored as it was made, owned, and live unless its table was lost. */
  ghost predicate Intact(h: Host, c: Generation, m: Manifest) {
    && c in h.store && h.store[c] == m && h.owner == Ours(c)
    && (h.live.Absent? || h.live == Table([c]))
  }

  /** An apply of the selected generation, its scan done, past the checks of directory and ownership. */
  lemma SelectedChecks(s: State, i: Id, c: Generation, m: Manifest)
    requires s.p.Idle? && NoneSeen(s.h.txs, s.unread) && i !in s.h.txs && m.version == 1 && s.h.selector == Some(c)
    ensures var s' := Looked(s).(boot := Up);
      ApplyingOf(s, i, c, m) == Uninterrupted(s'.(p := Checking(CheckStored, i, c, m, Some(c), false)))
  {
    var s1 := Step(s, Begin(Apply(i, c, m)));
    var s2 := TickAny(s1, Works);
    assert Uninterrupted(s1) == Uninterrupted(s2) == Uninterrupted(TickAny(s2, Works));
  }

  lemma StoredChecks(s: State, i: Id, c: Generation, m: Manifest)
    requires s.p == Checking(CheckStored, i, c, m, Some(c), false)
    ensures Uninterrupted(s) == if Intact(s.h, c, m) then
        Uninterrupted(s.(p := Checking(ReadDdns, i, c, m, Some(c), s.h.live.Table?)))
      else End(s, s.h, false)
  {
    var s1 := TickAny(s, Works);
    assert Uninterrupted(s) == Uninterrupted(s1);
    if s1.p.Checking? {
      var s2 := TickAny(s1, Works);
      assert Uninterrupted(s1) == Uninterrupted(s2);
      if s2.p.Checking? { assert Uninterrupted(s2) == Uninterrupted(TickAny(s2, Works)); }
    }
  }

  lemma DdnsRepaired(s: State, i: Id, c: Generation, m: Manifest)
    requires s.p == Checking(ReadDdns, i, c, m, Some(c), true)
    ensures Uninterrupted(s) == End(s, s.h.(ddns := Unit(m.ddnsDesired, m.ddnsDesired)), true)
  {
    var s1 := TickAny(s, Works);
    assert Uninterrupted(s) == Uninterrupted(s1);
    if s1.p.Checking? { assert Uninterrupted(s1) == TickAny(s1, Works); }
  }

  /** The record of an apply of what is selected already but whose table was lost. */
  function Reapplied(h: Host, c: Generation): Tx {
    Tx(Activated, c, None, true, h.fwEnabled, false, false)
  }

  lemma LostReactivated(s: State, i: Id, c: Generation, m: Manifest)
    requires s.p == Checking(ReadDdns, i, c, m, Some(c), false) && s.boot.Up? && s.h.live.Absent?
    requires c in s.h.store && s.h.store[c] == m
    ensures Uninterrupted(s)
         == s.(h := ActivatedHost(s.h, i, Reapplied(s.h, c), m.ddnsDesired), p := Idle, ok := true,
               armed := s.armed + {i})
  {
    hide Underway, Ticks, Exec;
    var s1 := TickAny(s, Works);
    var s2 := TickAny(s1, Works);
    assert s2 == s.(p := Checking(Validate, i, c, m, None, false));
    assert Uninterrupted(s) == Uninterrupted(s1) == Uninterrupted(s2);
    StoringComplete(s, i, c, m, None);
    TicksAhead(s2, 3);
    assert s.h.store[c := m] == s.h.store;
    assert Stocked(s, c, m) == s;
    ActivationComplete(s, i, Reapplied(s.h, c), m.ddnsDesired);
  }

  /**
   Applying what is already selected fails and changes nothing if its directory, ownership or table is not
   intact; otherwise it sets the DDNS timer right, or, when the table was lost, activates the generation
   again under a transaction that records no previous one.
   */
  lemma ReapplyExact(s: State, i: Id, c: Generation, m: Manifest)
    requires s.p.Idle? && NoneSeen(s.h.txs, s.unread) && i !in s.h.txs && m.version == 1 && s.h.selector == Some(c)
    ensures var s' := ApplyingOf(s, i, c, m);
      && s'.p.Idle? && (s'.ok <==> Intact(s.h, c, m))
      && s'.h == (if !Intact(s.h, c, m) then s.h
                  else if s.h.live.Table? then s.h.(ddns := Unit(m.ddnsDesired, m.ddnsDesired))
                  else ActivatedHost(s.h, i, Reapplied(s.h, c), m.ddnsDesired))
  {
    hide TickAny, Step, Uninterrupted, Exec;
    var s1 := Looked(s).(boot := Up);
    SelectedChecks(s, i, c, m);
    StoredChecks(s1.(p := Checking(CheckStored, i, c, m, Some(c), false)), i, c, m);
    if Intact(s.h, c, m) {
      var s2 := s1.(p := Checking(ReadDdns, i, c, m, Some(c), s.h.live.Table?));
      if s.h.live.Table? { DdnsRepaired(s2, i, c, m); } else { LostReactivated(s2, i, c, m); }
    }
  }

  /** So rolling such an apply back removes a generation that was confirmed. */
  lemma ReapplyRollback(s: State, i: Id, c: Generation, m: Manifest)
    requires s.p.Idle? && NoneSeen(s.h.txs, s.unread) && i !in s.h.txs && m.version == 1 && s.h.selector == Some(c)
    requires Intact(s.h, c, m) && s.h.live.Absent?
    ensures var s' := Restoring(ApplyingOf(s, i, c, m), i);
      s'.p.Idle? && s'.ok && Cleared(s'.h) && s'.h.fwEnabled == s.h.fwEnabled && s'.h.ddns == Unit(false, false)
  {
    ReapplyExact(s, i, c, m);
    hide ApplyingOf;
    FreshRollbackCompletes(ApplyingOf(s, i, c, m), i);
  }

  /** The scan sees nothing pending, and the selected generation is intact or another may replace it. */
  ghost predicate Acceptable(s: State, i: Id, c: Generation, m: Manifest) {
    && NoneSeen(s.h.txs, s.unread)
    && (if s.h.selector == Some(c) then Intact(s.h, c, m) else Applicable(s, i, c, m))
  }

  /**
   On any host an apply that is let run succeeds if and only if its scan sees nothing pending and the
   selected generation is intact, or another one may replace it; otherwise the host stays as it is.
   */
  lemma ApplyExact(s: State, i: Id, c: Generation, m: Manifest)
    requires s.p.Idle? && i !in s.h.txs && m.version == 1
    ensures var s' := ApplyingOf(s, i, c, m);
      && s'.p.Idle? && (!s'.ok ==> s'.h == s.h)
      && (s'.ok <==> Acceptable(s, i, c, m))
  {
    if !NoneSeen(s.h.txs, s.unread) {
      ScanRefuses(s, i, c, m);
    } else if s.h.selector == Some(c) {
      ReapplyExact(s, i, c, m);
    } else if Applicable(s, i, c, m) {
      ApplyCompletes(s, i, c, m);
    } else {
      OtherRefused(s, i, c, m);
    }
  }

  lemma ScanRefuses(s: State, i: Id, c: Generation, m: Manifest)
    requires s.p.Idle? && i !in s.h.txs && m.version == 1 && !NoneSeen(s.h.txs, s.unread)
    ensures ApplyingOf(s, i, c, m) == End(s, s.h, false).(boot := Up)
  {
    var s1 := Step(s, Begin(Apply(i, c, m)));
    assert Uninterrupted(s1) == TickAny(s1, Works);
  }

  lemma OtherRefused(s: State, i: Id, c: Generation, m: Manifest)
    requires s.p.Idle? && i !in s.h.txs && m.version == 1 && NoneSeen(s.h.txs, s.unread)
    requires s.h.selector != Some(c) && !Applicable(s, i, c, m)
    ensures var s' := ApplyingOf(s, i, c, m); s'.p.Idle? && !s'.ok && s'.h == s.h
  {
    OwnershipReached(s, i, c, m);
    hide Step;
    var s3 := Looked(s).(p := Checking(CheckOwnership, i, c, m, s.h.selector, false), boot := Up);
    var s4 := TickAny(s3, Works);
    assert Uninterrupted(s3) == Uninterrupted(s4);
    if s4.p.Checking? {
      var s5 := TickAny(s4, Works);
      assert Uninterrupted(s4) == Uninterrupted(s5) == Uninterrupted(TickAny(s5, Works));
    }
  }

  lemma OwnershipReached(s: State, i: Id, c: Generation, m: Manifest)
    requires s.p.Idle? && i !in s.h.txs && m.version == 1 && NoneSeen(s.h.txs, s.unread) && s.h.selector != Some(c)
    ensures ApplyingOf(s, i, c, m)
      == Uninterrupted(Looked(s).(p := Checking(CheckOwnership, i, c, m, s.h.selector, false), boot := Up))
  {
    var s1 := Step(s, Begin(Apply(i, c, m)));
    var s2 := TickAny(s1, Works);
    assert Uninterrupted(s1) == Uninterrupted(s2) == Uninterrupted(TickAny(s2, Works));
  }
}
