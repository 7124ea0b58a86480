/**
 Safety of the activation protocol over every run: whatever fails, is killed or is lost, whenever no
 transaction is pending the selector, the ownership record and the live table agree with the most
 recently confirmed transaction.
 */
module ProtocolSafety {
  import opened Common
  import opened Protocol

  // ---------- the invariant on the host ----------

  ghost predicate Stored(h: Host, g: Generation) {
    g in h.store && h.store[g].version == 1
  }

  ghost predicate WellFormed(t: Tx) {
    && (t.confirmed <==> t.phase.Confirmed?)
    && (t.rolledBack <==> t.phase.RolledBack?)
    && (t.freshInstall <==> t.previous.None?)
    && t.previous != Some(t.generation)
  }

  ghost predicate RecordsKept(h: Host) {
    && (h.selector.Some? ==> Stored(h, h.selector.value))
    && (forall i :: i in h.txs ==> RecordKept(h, h.txs[i]))
    && (forall i, j :: Pending(h.txs, i) && Pending(h.txs, j) ==> i == j)
  }

  ghost predicate RecordKept(h: Host, t: Tx) {
    && WellFormed(t)
    && Stored(h, t.generation)
    && (t.previous.Some? ==> Stored(h, t.previous.value))
  }

  ghost function OwnerOf(selector: Option<Generation>): Option<Owner> {
    if selector.None? then None else Ours(selector.value)
  }

  /** The host agrees with itself, and selects nothing that was never confirmed. */
  ghost predicate Rest(h: Host, last: Option<Generation>) {
    && (h.selector.None? || h.selector == last)
    && h.owner == OwnerOf(h.selector)
    && (h.live.Absent? || (h.selector.Some? && h.live == Table([h.selector.value])))
  }

  /** `live` is absent or carries exactly `g`. */
  ghost predicate LiveIs(h: Host, g: Generation) {
    h.live.Absent? || h.live == Table([g])
  }

  /** What an apply of `c` with previous generation `previous` starts from. */
  ghost predicate Base(h: Host, c: Generation, previous: Option<Generation>, last: Option<Generation>) {
    && Rest(h, last)
    && previous != Some(c)
    && (previous.Some? ==> h.selector == previous)
    && (previous.None? ==> h.selector.None? || (h.selector == Some(c) && h.live.Absent?))
  }

  /** Fresh install: each of the three is absent or the candidate's. */
  ghost predicate FreshTriple(h: Host, c: Generation) {
    && (h.selector.None? || h.selector == Some(c))
    && (h.owner.None? || h.owner == Ours(c))
    && LiveIs(h, c)
  }

  /** Update: the ten triples that a run can reach between candidate `c` and previous `p`. */
  ghost predicate UpdateTriple(h: Host, c: Generation, p: Generation) {
    || (h.selector == Some(c) && h.owner == Ours(c) && (LiveIs(h, c) || LiveIs(h, p)))
    || (h.selector == Some(c) && h.owner == Ours(p) && LiveIs(h, p))
    || (h.selector == Some(p) && h.owner == Ours(c) && (LiveIs(h, c) || LiveIs(h, p)))
    || (h.selector == Some(p) && h.owner == Ours(p) && LiveIs(h, p))
  }

  ghost predicate PendingKept(h: Host, t: Tx, last: Option<Generation>) {
    if !Mutable(t) then Base(h, t.generation, t.previous, last)
    else if t.freshInstall then FreshTriple(h, t.generation)
    else t.previous.Some? && t.previous == last && UpdateTriple(h, t.generation, t.previous.value)
  }

  ghost predicate HostKept(h: Host, last: Option<Generation>) {
    && RecordsKept(h)
    && (NoPending(h.txs) ==> Rest(h, last))
    && (forall i :: Pending(h.txs, i) ==> PendingKept(h, h.txs[i], last))
  }

  // ---------- the invariant on the running process ----------

  ghost predicate CheckKept(s: State)
    requires s.p.Checking?
  {
    var p, h := s.p, s.h;
    && p.id !in h.txs
    && p.manifest.version == 1
    && (!p.check.ScanPending? ==> NoPending(h.txs))
    && ((p.check.CheckStored? || p.check.CheckOwner? || p.check.ListLive? || p.check.ReadDdns?
        || p.check.RepairTimer?) ==> h.selector == Some(p.generation))
    && (p.check.ReadDdns? && !p.present ==> h.live.Absent?)
    && ((p.check.CheckOwnership? || p.check.Validate? || p.check.WriteGeneration? || p.check.ReadFirewall?)
        ==> Base(h, p.generation, p.active, s.last))
    && (p.check.ReadFirewall? ==> Stored(h, p.generation))
  }

  /** The record on disk, which may still carry an earlier phase than the process's copy. */
  ghost predicate Durable(h: Host, id: Id, t: Tx, phase: Phase) {
    id in h.txs && h.txs[id] == t.(phase := phase)
  }

  /** The triple while `c` has been selected and `owned` says whether it has been recorded as owner. */
  ghost predicate Selected(h: Host, t: Tx, owned: bool) {
    && h.selector == Some(t.generation)
    && (if owned then h.owner == Ours(t.generation)
        else if t.previous.None? then h.owner.None? || h.owner == Ours(t.generation)
        else h.owner == Ours(t.previous.value))
    && (if t.previous.None? then h.live.Absent? else LiveIs(h, t.previous.value))
  }

  /** `c` is selected, owned and, unless its table was lost, live. */
  ghost predicate Everywhere(h: Host, c: Generation) {
    h.selector == Some(c) && h.owner == Ours(c) && LiveIs(h, c)
  }

  ghost predicate ApplyKept(s: State)
    requires s.p.Applying?
  {
    var p, h, t := s.p, s.h, s.p.tx;
    && Undecided(t) && WellFormed(t)
    && match p.at
       case Prepare =>
         && p.id !in h.txs && NoPending(h.txs) && t.phase.Prepared?
         && Base(h, t.generation, t.previous, s.last) && Stored(h, t.generation)
       case StartTimer => Durable(h, p.id, t, Prepared) && t.phase.Prepared?
       case SeeTimer => Durable(h, p.id, t, Prepared) && t.phase.Prepared?
       case Arm => Durable(h, p.id, t, Prepared) && t.phase.Armed? && p.id in s.armed
       case MarkActivating => Durable(h, p.id, t, Armed) && t.phase.Activating?
       case Select => Durable(h, p.id, t, Activating) && t.phase.Activating?
           && Base(h, t.generation, t.previous, s.last)
       case Own => Durable(h, p.id, t, Activating) && t.phase.Activating? && Selected(h, t, false)
       case Load => Durable(h, p.id, t, Activating) && t.phase.Activating? && Selected(h, t, true)
       case MarkActivated =>
         && Durable(h, p.id, t, Activating) && t.phase.Activated?
         && Everywhere(h, t.generation)
       case SetTimer => Durable(h, p.id, t, Activated) && t.phase.Activated? && Everywhere(h, t.generation)
       case Enable => Durable(h, p.id, t, Activated) && t.phase.Activated? && Everywhere(h, t.generation)
       case Rerecord =>
         && p.id in h.txs && Durable(h, p.id, t, h.txs[p.id].phase)
         && (Mutable(h.txs[p.id]) ==> Mutable(t))
         && (h.txs[p.id].phase.Armed? || !t.phase.Prepared? ==> p.id in s.armed)
  }

  /** What a rollback that has met no error has established when it reaches the units. */
  ghost predicate Undone(h: Host, t: Tx) {
    if !Mutable(t) then true
    else if t.previous.None? then h.selector.None? && h.owner.None? && h.live.Absent?
    else h.selector == t.previous && h.owner == Ours(t.previous.value) && LiveIs(h, t.previous.value)
  }

  /** Firewall enablement as recorded, and the DDNS timer as the previous generation intends it. */
  ghost predicate UnitsBack(h: Host, t: Tx) {
    h.fwEnabled == t.fwWasEnabled && h.ddns == Unit(Intended(h, t), Intended(h, t))
  }

  ghost predicate StepKept(h: Host, t: Tx, step: RollAt, errs: bool)
    requires WellFormed(t)
  {
    match step
    case ReadTx => true
    case ListTable => t.freshInstall && Mutable(t)
    case DeleteTable => t.freshInstall && Mutable(t)
    case ReadSelector => t.freshInstall && Mutable(t) && (!errs ==> h.live.Absent?)
    case RemoveSelector => t.freshInstall && Mutable(t) && (!errs ==> h.live.Absent?)
    case ReadOwner => t.freshInstall && Mutable(t) && (!errs ==> h.live.Absent? && h.selector.None?)
    case RemoveOwner => t.freshInstall && Mutable(t) && (!errs ==> h.live.Absent? && h.selector.None?)
    case Stage => !t.freshInstall && Mutable(t)
    case Reselect => !t.freshInstall && Mutable(t) && h.selector == Some(t.generation)
        && h.owner == Ours(t.generation) && LiveIs(h, t.generation)
    case Reload =>
      && !t.freshInstall && Mutable(t) && h.selector == t.previous
      && (|| (h.owner == Ours(t.generation) && LiveIs(h, t.generation))
          || (h.owner == Ours(t.previous.value) && h.live.Absent?))
    case Reown =>
      && !t.freshInstall && Mutable(t) && h.selector == t.previous && LiveIs(h, t.previous.value)
      && (h.owner == Ours(t.generation) || h.owner == Ours(t.previous.value))
    case Restage => !t.freshInstall && Mutable(t) && Undone(h, t)
    case Enablement => !errs ==> Undone(h, t)
    case Intent => !t.freshInstall && (!errs ==> Undone(h, t) && h.fwEnabled == t.fwWasEnabled)
    case Timer => !errs ==> Undone(h, t) && h.fwEnabled == t.fwWasEnabled
    case Finish => !errs && Undone(h, t) && (!t.freshInstall || Mutable(t) ==> UnitsBack(h, t))
  }

  ghost predicate RollOwn(s: State)
    requires s.p.Rolling?
  {
    var p, h, t := s.p, s.h, s.p.tx;
    !p.step.ReadTx? ==>
      && Undecided(t) && WellFormed(t)
      && p.id in h.txs && h.txs[p.id] == t
      && StepKept(h, t, p.step, p.errs)
  }

  /** A reconcile that has not failed yet still has every pending transaction before it. */
  ghost predicate Covers(p: Proc, txs: map<Id, Tx>)
    requires p.Rolling?
  {
    p.after.NextPending? && !p.after.failed ==> forall i :: Pending(txs, i) ==> i == p.id || i in p.after.rest
  }

  ghost predicate RollKept(s: State)
    requires s.p.Rolling?
  {
    RollOwn(s) && Covers(s.p, s.h.txs)
  }

  ghost predicate ConfirmKept(s: State)
    requires s.p.Confirming?
  {
    var p, h, t := s.p, s.h, s.p.tx;
    && (!p.stop.ReadRecord? ==> Undecided(t) && t.phase.Activated? && p.id in h.txs && h.txs[p.id] == t)
    && (p.stop.WriteRecord? ==>
          h.selector == Some(t.generation) && h.owner == Ours(t.generation) && LiveIs(h, t.generation))
  }

  ghost predicate ProcKept(s: State) {
    match s.p
    case Idle => true
    case Checking(_, _, _, _, _, _) => CheckKept(s)
    case Applying(_, _, _, _) => ApplyKept(s)
    case Rolling(_, _, _, _, _) => RollKept(s)
    case Confirming(_, _, _) => ConfirmKept(s)
    case Cancelling(id, _) => id in s.h.txs && !Undecided(s.h.txs[id])
    case Scanning(_) => true
  }

  /** The invariant of the runs in which no scan has missed an undecided transaction. */
  ghost predicate Inv(s: State) {
    && !s.blind
    && HostKept(s.h, s.last)
    && ProcKept(s)
    && (s.boot.Reconciled? ==> s.p.Idle? && NoPending(s.h.txs))
    && (forall i :: Pending(s.h.txs, i) && !s.h.txs[i].phase.Prepared? ==> i in s.armed)
  }

  // ---------- changes that keep the host invariant ----------

  /** Units and timers are no part of the host invariant. */
  ghost predicate SameFiles(h: Host, h': Host) {
    h'.selector == h.selector && h'.owner == h.owner && h'.live == h.live && h'.store == h.store && h'.txs == h.txs
  }

  lemma UnitsKeepHost(h: Host, h': Host, last: Option<Generation>)
    requires HostKept(h, last) && SameFiles(h, h')
    ensures HostKept(h', last)
  {
    assert forall i :: Pending(h'.txs, i) ==> PendingKept(h, h.txs[i], last);
  }

  lemma LossKeepsHost(h: Host, last: Option<Generation>)
    requires HostKept(h, last)
    ensures HostKept(h.(live := Absent), last)
  {
    var h' := h.(live := Absent);
    assert forall i :: Pending(h'.txs, i) ==> PendingKept(h, h.txs[i], last) && PendingKept(h', h.txs[i], last);
  }

  /** While `id` is pending, the triple may move as long as its own record still explains it. */
  lemma MoveKeepsHost(h: Host, h': Host, id: Id, last: Option<Generation>)
    requires HostKept(h, last) && Pending(h.txs, id)
    requires h'.store == h.store && h'.txs == h.txs
    requires h'.selector.Some? ==> Stored(h, h'.selector.value)
    requires PendingKept(h', h.txs[id], last)
    ensures HostKept(h', last)
  {
    assert forall i :: Pending(h'.txs, i) ==> i == id;
    assert forall i :: i in h'.txs ==> RecordKept(h, h.txs[i]) && RecordKept(h', h'.txs[i]);
  }

  /** Writing the record of the only transaction that is, or becomes, pending. */
  lemma WriteKeepsHost(h: Host, id: Id, t: Tx, last: Option<Generation>, last': Option<Generation>)
    requires HostKept(h, last) && RecordKept(h, t)
    requires Pending(h.txs, id) || NoPending(h.txs)
    requires Undecided(t) ==> last' == last && PendingKept(h, t, last)
    requires !Undecided(t) ==> Rest(h, last')
    ensures HostKept(h.(txs := h.txs[id := t]), last')
  {
    var h' := h.(txs := h.txs[id := t]);
    forall i | Pending(h'.txs, i) ensures i == id {
      if i != id { assert Pending(h.txs, i) && !NoPending(h.txs); }
    }
    assert forall i :: i in h'.txs ==> RecordKept(h', h'.txs[i]) by {
      forall i | i in h'.txs ensures RecordKept(h', h'.txs[i]) {
        if i != id { assert RecordKept(h, h.txs[i]); }
      }
    }
    if Undecided(t) {
      assert Pending(h'.txs, id);
    }
  }

  lemma StoreKeepsHost(h: Host, g: Generation, m: Manifest, last: Option<Generation>)
    requires HostKept(h, last) && g !in h.store
    ensures HostKept(h.(store := h.store[g := m]), last)
  {
    var h' := h.(store := h.store[g := m]);
    assert forall i :: i in h'.txs ==> RecordKept(h, h.txs[i]) && RecordKept(h', h'.txs[i]);
    assert forall i :: Pending(h'.txs, i) ==> PendingKept(h, h.txs[i], last) && PendingKept(h', h'.txs[i], last);
  }

  lemma NothingElsePending(s: State, id: Id)
    requires Inv(s) && Pending(s.h.txs, id)
    ensures !NoPending(s.h.txs) && PendingKept(s.h, s.h.txs[id], s.last) && RecordKept(s.h, s.h.txs[id])
    ensures !s.boot.Reconciled?
    ensures !s.h.txs[id].phase.Prepared? ==> id in s.armed
  {
  }

  // ---------- the invariant is kept by every event ----------

  /** What the checks of an apply rely on, besides their own invariant. */
  ghost predicate Known(s: State) {
    && (NoPending(s.h.txs) ==> Rest(s.h, s.last))
    && (s.h.selector.Some? ==> Stored(s.h, s.h.selector.value))
  }

  lemma CheckKeepsProc(s: State, f: Fate)
    requires s.p.Checking? && CheckKept(s) && Known(s) && !s.blind && !TickCheck(s, f).blind
    ensures var s' := TickCheck(s, f);
      s'.p.Idle? || (s'.p.Checking? && CheckKept(s')) || (s'.p.Applying? && ApplyKept(s'))
  {
  }

  lemma CheckKeepsFiles(s: State, f: Fate)
    requires s.p.Checking?
    ensures TickCheck(s, f).(h := s.h, p := s.p, ok := s.ok, blind := s.blind) == s
    ensures var h' := TickCheck(s, f).h;
      || SameFiles(s.h, h')
      || (s.p.generation !in s.h.store && h' == s.h.(store := s.h.store[s.p.generation := s.p.manifest]))
  {
  }

  lemma CheckKeepsInv(s: State, f: Fate)
    requires Inv(s) && s.p.Checking? && !TickCheck(s, f).blind
    ensures Inv(TickCheck(s, f))
  {
    CheckKeepsProc(s, f);
    CheckKeepsFiles(s, f);
    var h' := TickCheck(s, f).h;
    if SameFiles(s.h, h') {
      UnitsKeepHost(s.h, h', s.last);
    } else {
      StoreKeepsHost(s.h, s.p.generation, s.p.manifest, s.last);
    }
  }

  /** The state an apply starts from is one an activating transaction may be in. */
  lemma BaseOpens(h: Host, t: Tx, last: Option<Generation>)
    requires WellFormed(t) && Base(h, t.generation, t.previous, last)
    ensures PendingKept(h, t, last)
  {
  }

  /** What is known of the running apply's own record. */
  ghost predicate OwnRecord(s: State)
    requires s.p.Applying?
  {
    Pending(s.h.txs, s.p.id) ==>
      var t := s.h.txs[s.p.id];
      RecordKept(s.h, t) && PendingKept(s.h, t, s.last) && (!t.phase.Prepared? ==> s.p.id in s.armed)
  }

  ghost predicate ApplyGoesOn(s: State) {
    || s.p.Idle?
    || (s.p.Applying? && ApplyKept(s))
    || (s.p.Rolling? && s.p.step.ReadTx? && s.p.after.Recovered?)
  }

  ghost predicate Recording(at: ApplyAt) {
    at.Prepare? || at.Arm? || at.MarkActivating? || at.MarkActivated? || at.Rerecord?
  }

  ghost predicate Moving(at: ApplyAt) {
    at.Select? || at.Own? || at.Load?
  }

  lemma RecordingKeepsProc(s: State, f: Fate)
    requires s.p.Applying? && ApplyKept(s) && OwnRecord(s) && Recording(s.p.at)
    ensures ApplyGoesOn(TickApply(s, f))
  {
    hide TickApply, ApplyKept, ApplyGoesOn, OwnRecord;
    if s.p.at.Prepare? || s.p.at.Rerecord? {
      OutermostKeepProc(s, f);
    } else {
      PhaseKeepsProc(s, f);
    }
  }

  lemma OutermostKeepProc(s: State, f: Fate)
    requires s.p.Applying? && ApplyKept(s) && (s.p.at.Prepare? || s.p.at.Rerecord?)
    ensures ApplyGoesOn(TickApply(s, f))
  {
  }

  lemma PhaseKeepsProc(s: State, f: Fate)
    requires s.p.Applying? && ApplyKept(s) && OwnRecord(s)
    requires s.p.at.Arm? || s.p.at.MarkActivating? || s.p.at.MarkActivated?
    ensures ApplyGoesOn(TickApply(s, f))
  {
  }

  lemma MovingKeepsProc(s: State, f: Fate)
    requires s.p.Applying? && ApplyKept(s) && OwnRecord(s) && Moving(s.p.at)
    ensures ApplyGoesOn(TickApply(s, f))
  {
    hide TickApply, ApplyKept, ApplyGoesOn, OwnRecord;
    if s.p.at.Load? { LoadKeepsProc(s, f); } else { SelectKeepsProc(s, f); }
  }

  lemma SelectKeepsProc(s: State, f: Fate)
    requires s.p.Applying? && ApplyKept(s) && OwnRecord(s) && (s.p.at.Select? || s.p.at.Own?)
    ensures ApplyGoesOn(TickApply(s, f))
  {
  }

  lemma LoadKeepsProc(s: State, f: Fate)
    requires s.p.Applying? && ApplyKept(s) && OwnRecord(s) && s.p.at.Load?
    ensures ApplyGoesOn(TickApply(s, f))
  {
  }

  lemma UnitsKeepProc(s: State, f: Fate)
    requires s.p.Applying? && ApplyKept(s) && OwnRecord(s) && !Recording(s.p.at) && !Moving(s.p.at)
    ensures ApplyGoesOn(TickApply(s, f))
  {
    hide TickApply, ApplyKept, ApplyGoesOn, OwnRecord;
    if s.p.at.StartTimer? || s.p.at.SeeTimer? { ArmingKeepsProc(s, f); } else { SwitchKeepsProc(s, f); }
  }

  lemma ArmingKeepsProc(s: State, f: Fate)
    requires s.p.Applying? && ApplyKept(s) && (s.p.at.StartTimer? || s.p.at.SeeTimer?)
    ensures ApplyGoesOn(TickApply(s, f))
  {
  }

  lemma SwitchKeepsProc(s: State, f: Fate)
    requires s.p.Applying? && ApplyKept(s) && OwnRecord(s) && (s.p.at.SetTimer? || s.p.at.Enable?)
    ensures ApplyGoesOn(TickApply(s, f))
  {
  }

  lemma ApplyKeepsRest(s: State, f: Fate)
    requires s.p.Applying?
    ensures Recording(s.p.at) ==> TickApply(s, f).h == WithTx(s.h, s.p.id, s.p.tx, f)
    ensures !Recording(s.p.at) ==> TickApply(s, f).h.txs == s.h.txs
    ensures !Recording(s.p.at) && !Moving(s.p.at) ==> SameFiles(s.h, TickApply(s, f).h)
  {
  }

  lemma RecordingKeepsHost(s: State, f: Fate)
    requires HostKept(s.h, s.last) && s.p.Applying? && ApplyKept(s) && OwnRecord(s) && Recording(s.p.at)
    ensures HostKept(WithTx(s.h, s.p.id, s.p.tx, f), s.last)
    ensures Undecided(s.p.tx) && (Pending(s.h.txs, s.p.id) || NoPending(s.h.txs))
    ensures !s.p.tx.phase.Prepared? ==> s.p.id in s.armed
  {
    var h, t := s.h, s.p.tx;
    if !s.p.at.Prepare? && Mutable(t) && !Mutable(h.txs[s.p.id]) {
      BaseOpens(h, t, s.last);
    }
    if Took(f) {
      WriteKeepsHost(h, s.p.id, t, s.last, s.last);
    }
  }

  lemma MovingKeepsHost(s: State, f: Fate)
    requires HostKept(s.h, s.last) && s.p.Applying? && ApplyKept(s) && OwnRecord(s) && Moving(s.p.at)
    ensures HostKept(TickApply(s, f).h, s.last)
  {
    MoveKeepsHost(s.h, TickApply(s, f).h, s.p.id, s.last);
  }

  lemma ApplyKeepsInv(s: State, f: Fate)
    requires Inv(s) && s.p.Applying?
    ensures Inv(TickApply(s, f))
  {
    ApplyKeepsRest(s, f);
    if Recording(s.p.at) {
      RecordingKeepsProc(s, f);
      RecordingKeepsHost(s, f);
    } else if Moving(s.p.at) {
      MovingKeepsProc(s, f);
      MovingKeepsHost(s, f);
    } else {
      UnitsKeepProc(s, f);
      UnitsKeepHost(s.h, TickApply(s, f).h, s.last);
    }
  }

  lemma DoneKeepsInv(s: State, h: Host, ok: bool)
    requires s.p.Rolling? && HostKept(h, s.last) && !s.boot.Reconciled? && !s.blind
    requires forall i :: Pending(h.txs, i) && !h.txs[i].phase.Prepared? ==> i in s.armed
    requires ok ==> s.p.id in h.txs && !Undecided(h.txs[s.p.id])
    requires Covers(s.p, h.txs)
    ensures Inv(Done(s, h, ok))
  {
    if ok && s.p.after.NextPending? && !s.p.after.failed && s.p.after.rest == [] {
      forall i | i in h.txs ensures !Undecided(h.txs[i]) {
        assert Pending(h.txs, i) == Undecided(h.txs[i]);
      }
    }
  }

  /** What is known of the transaction being rolled back. */
  ghost predicate RollRecord(s: State)
    requires s.p.Rolling?
  {
    Undecided(s.p.tx) && Pending(s.h.txs, s.p.id) && s.h.txs[s.p.id] == s.p.tx
    && RecordKept(s.h, s.p.tx) && PendingKept(s.h, s.p.tx, s.last)
  }

  ghost predicate FreshGoesOn(s: State, s': State)
    requires s.p.Rolling?
  {
    && s'.p.Rolling? && RollOwn(s') && s'.p.after == s.p.after && s'.p.id == s.p.id && !s'.p.step.ReadTx?
    && s'.h.txs == s.h.txs && s'.h.store == s.h.store && s' == s.(h := s'.h, p := s'.p)
    && PendingKept(s'.h, s.p.tx, s.last)
    && (s'.h.selector.None? || s'.h.selector == s.h.selector)
  }

  lemma FreshKeepsProc(s: State, f: Fate)
    requires s.p.Rolling? && FreshStep(s.p.step) && RollOwn(s) && RollRecord(s)
    ensures FreshGoesOn(s, TickFresh(s, f))
  {
    hide TickFresh, RollOwn, RollRecord, FreshGoesOn;
    if s.p.step.ListTable? || s.p.step.DeleteTable? {
      TableKeepsProc(s, f);
    } else {
      FilesKeepProc(s, f);
    }
  }

  lemma TableKeepsProc(s: State, f: Fate)
    requires s.p.Rolling? && RollOwn(s) && RollRecord(s) && (s.p.step.ListTable? || s.p.step.DeleteTable?)
    ensures FreshGoesOn(s, TickFresh(s, f))
  {
  }

  lemma FilesKeepProc(s: State, f: Fate)
    requires s.p.Rolling? && FreshStep(s.p.step) && RollOwn(s) && RollRecord(s)
    requires !s.p.step.ListTable? && !s.p.step.DeleteTable?
    ensures FreshGoesOn(s, TickFresh(s, f))
  {
  }

  lemma FreshKeepsInv(s: State, f: Fate)
    requires Inv(s) && s.p.Rolling? && FreshStep(s.p.step)
    ensures Inv(TickFresh(s, f))
  {
    NothingElsePending(s, s.p.id);
    FreshKeepsProc(s, f);
    MoveKeepsHost(s.h, TickFresh(s, f).h, s.p.id, s.last);
  }

  /** The step of an update rollback that continues has the same transaction. */
  ghost predicate SameRoll(s: State, s': State)
    requires s.p.Rolling?
  {
    && s'.p.Rolling? && s'.p.after == s.p.after && s'.p.id == s.p.id && !s'.p.step.ReadTx?
    && s' == s.(h := s'.h, p := s'.p)
  }

  lemma UpdateKeepsProc(s: State, f: Fate)
    requires s.p.Rolling? && UpdateStep(s.p.step) && RollOwn(s) && RollRecord(s)
    ensures var s' := TickUpdate(s, f);
      (SameRoll(s, s') && RollOwn(s')) || s' == Done(s, s'.h, false)
  {
    var h' := TickUpdate(s, f).h;
    assert Done(s, h', false).h == h';
  }

  lemma UpdateKeepsTriple(s: State, f: Fate)
    requires s.p.Rolling? && UpdateStep(s.p.step) && RollOwn(s) && RollRecord(s)
    ensures var h' := TickUpdate(s, f).h;
      && h'.txs == s.h.txs && h'.store == s.h.store
      && PendingKept(h', s.p.tx, s.last)
      && (h'.selector == s.h.selector || h'.selector == s.p.tx.previous)
  {
  }

  lemma UpdateKeepsInv(s: State, f: Fate)
    requires Inv(s) && s.p.Rolling? && UpdateStep(s.p.step)
    ensures Inv(TickUpdate(s, f))
  {
    NothingElsePending(s, s.p.id);
    UpdateKeepsProc(s, f);
    UpdateKeepsTriple(s, f);
    var s' := TickUpdate(s, f);
    MoveKeepsHost(s.h, s'.h, s.p.id, s.last);
    if s' == Done(s, s'.h, false) {
      DoneKeepsInv(s, s'.h, false);
    }
  }

  ghost predicate UnitsStep(step: RollAt) {
    step.Enablement? || step.Intent? || step.Timer?
  }

  lemma RollUnitsKeepProc(s: State, f: Fate)
    requires s.p.Rolling? && UnitsStep(s.p.step) && RollOwn(s) && RollRecord(s)
    ensures var s' := TickUnits(s, f);
      SameFiles(s.h, s'.h) && ((SameRoll(s, s') && RollOwn(s')) || s' == Done(s, s'.h, false))
  {
    var h' := TickUnits(s, f).h;
    assert Done(s, h', false).h == h';
  }

  lemma RollUnitsKeepInv(s: State, f: Fate)
    requires Inv(s) && s.p.Rolling? && UnitsStep(s.p.step)
    ensures Inv(TickUnits(s, f))
  {
    NothingElsePending(s, s.p.id);
    RollUnitsKeepProc(s, f);
    var s' := TickUnits(s, f);
    UnitsKeepHost(s.h, s'.h, s.last);
    if s' == Done(s, s'.h, false) {
      DoneKeepsInv(s, s'.h, false);
    }
  }

  /** A rollback that reaches its last write leaves a host that agrees with itself. */
  lemma UndoneRests(h: Host, t: Tx, last: Option<Generation>)
    requires WellFormed(t) && PendingKept(h, t, last) && Undone(h, t)
    ensures Rest(h, last)
  {
  }

  lemma FinishKeepsInv(s: State, f: Fate)
    requires Inv(s) && s.p.Rolling? && s.p.step.Finish?
    ensures Inv(TickUnits(s, f))
  {
    NothingElsePending(s, s.p.id);
    var t := s.p.tx.(rolledBack := true, phase := RolledBack);
    UndoneRests(s.h, s.p.tx, s.last);
    WriteKeepsHost(s.h, s.p.id, t, s.last, s.last);
    DoneKeepsInv(s, WithTx(s.h, s.p.id, t, f), f.Works?);
  }

  lemma RollKeepsInv(s: State, f: Fate)
    requires Inv(s) && s.p.Rolling?
    ensures Inv(TickRoll(s, f))
  {
    if s.p.step.ReadTx? {
      DoneKeepsInv(s, s.h, false);
      if s.p.id in s.h.txs {
        if Undecided(s.h.txs[s.p.id]) {
          NothingElsePending(s, s.p.id);
        } else {
          DoneKeepsInv(s, s.h, true);
        }
      }
    } else if FreshStep(s.p.step) {
      FreshKeepsInv(s, f);
    } else if UpdateStep(s.p.step) {
      UpdateKeepsInv(s, f);
    } else if UnitsStep(s.p.step) {
      RollUnitsKeepInv(s, f);
    } else {
      FinishKeepsInv(s, f);
    }
  }

  lemma ConfirmReadsKeepInv(s: State, f: Fate)
    requires Inv(s) && s.p.Confirming? && !s.p.stop.WriteRecord?
    ensures Inv(TickConfirm(s, f))
  {
    if !s.p.stop.ReadRecord? {
      NothingElsePending(s, s.p.id);
    }
  }

  lemma ConfirmWriteKeepsInv(s: State, f: Fate)
    requires Inv(s) && s.p.Confirming? && s.p.stop.WriteRecord?
    ensures Inv(TickConfirm(s, f))
  {
    NothingElsePending(s, s.p.id);
    if Took(f) {
      WriteKeepsHost(s.h, s.p.id, s.p.tx.(confirmed := true, phase := Confirmed), s.last, Some(s.p.tx.generation));
    }
  }

  lemma TickKeepsInv(s: State, f: Fate)
    requires Inv(s) && !TickAny(s, f).blind
    ensures Inv(TickAny(s, f))
  {
    match s.p {
      case Idle =>
      case Checking(_, _, _, _, _, _) => CheckKeepsInv(s, f);
      case Applying(_, _, _, _) => ApplyKeepsInv(s, f);
      case Rolling(_, _, _, _, _) => RollKeepsInv(s, f);
      case Confirming(stop, _, _) =>
        if stop.WriteRecord? { ConfirmWriteKeepsInv(s, f); } else { ConfirmReadsKeepInv(s, f); }
      case Cancelling(_, _) => UnitsKeepHost(s.h, TickAny(s, f).h, s.last);
      case Scanning(order) => ScanKeepsInv(s, f);
    }
  }

  lemma ScanKeepsInv(s: State, f: Fate)
    requires Inv(s) && s.p.Scanning? && !TickAny(s, f).blind
    ensures Inv(TickAny(s, f))
  {
    if f.Works? && Lists(s.p.order, s.h.txs, s.unread) {
      forall i | Pending(s.h.txs, i) ensures i in s.p.order {
        assert Seen(s.h.txs, s.unread, i);
      }
    }
  }

  /** The loss of the table is compatible with every point at which a process can stand. */
  lemma LossKeepsProc(s: State)
    requires ProcKept(s)
    ensures ProcKept(s.(h := s.h.(live := Absent)))
  {
  }

  lemma RebootKeepsInv(s: State)
    requires Inv(s)
    ensures Inv(Step(s, Reboot))
  {
    LossKeepsHost(s.h, s.last);
    UnitsKeepHost(s.h.(live := Absent), Step(s, Reboot).h, s.last);
  }

  lemma BootLoadKeepsInv(s: State, f: Fate)
    requires Inv(s)
    ensures Inv(Step(s, BootLoad(f)))
  {
    var h' := Step(s, BootLoad(f)).h;
    if h' != s.h {
      assert Rest(h', s.last) && RecordsKept(h') by {
        assert forall i :: i in h'.txs ==> RecordKept(s.h, h'.txs[i]) && RecordKept(h', h'.txs[i]);
      }
    }
  }

  lemma LossKeepsInv(s: State)
    requires Inv(s)
    ensures Inv(Step(s, TableDeleted))
  {
    LossKeepsHost(s.h, s.last);
    LossKeepsProc(s);
  }

  lemma TimerKeepsProc(s: State, i: Id)
    requires ProcKept(s)
    ensures ProcKept(s.(h := s.h.(timers := s.h.timers - {i})))
  {
  }

  lemma TimerKeepsInv(s: State, i: Id)
    requires Inv(s)
    ensures Inv(Step(s, TimerElapses(i)))
  {
    UnitsKeepHost(s.h, Step(s, TimerElapses(i)).h, s.last);
    TimerKeepsProc(s, i);
  }

  lemma StartKeepsInv(s: State, cmd: Command)
    requires Inv(s) && s.p.Idle?
    ensures Inv(Start(s, cmd))
  {
  }

  /** What a scan would miss is no part of the invariant. */
  lemma UnreadKeepsProc(s: State, s': State)
    requires ProcKept(s) && s' == s.(unread := s'.unread)
    ensures ProcKept(s')
  {
  }

  lemma StepKeepsInv(s: State, e: Event)
    requires Inv(s) && !Step(s, e).blind
    ensures Inv(Step(s, e))
  {
    match e {
      case Begin(cmd) => if s.p.Idle? { StartKeepsInv(s, cmd); }
      case Tick(f) => TickKeepsInv(s, f);
      case Kill =>
      case Reboot => RebootKeepsInv(s);
      case TableDeleted => LossKeepsInv(s);
      case TimerElapses(i) => TimerKeepsInv(s, i);
      case BootLoad(f) => BootLoadKeepsInv(s, f);
      case Unreadable(_) => UnreadKeepsProc(s, Step(s, e));
    }
  }

  /** A scan that has missed something stays on record. */
  lemma BlindStays(s: State, e: Event)
    requires s.blind
    ensures Step(s, e).blind
  {
  }

  lemma {:induction false} RunKeepsInv(s: State, es: seq<Event>)
    requires Inv(s) && !Exec(s, es).blind
    ensures Inv(Exec(s, es))
  {
    if es != [] {
      var m, e := Exec(s, es[..|es| - 1]), es[|es| - 1];
      if m.blind { BlindStays(m, e); }
      RunKeepsInv(s, es[..|es| - 1]);
      StepKeepsInv(m, e);
    }
  }

  /** A run that has missed nothing had missed nothing earlier. */
  lemma {:induction false} SightedBefore(s: State, es: seq<Event>, k: nat)
    requires k <= |es| && !Exec(s, es).blind
    ensures !Exec(s, es[..k]).blind
  {
    if k == |es| {
      assert es[..k] == es;
    } else {
      var m := Exec(s, es[..|es| - 1]);
      if m.blind { BlindStays(m, es[|es| - 1]); }
      SightedBefore(s, es[..|es| - 1], k);
      assert es[..|es| - 1][..k] == es[..k];
    }
  }

  lemma InitKept()
    ensures Inv(INIT)
  {
  }
}
