/**
 What a rollback recovers. An update rollback accepts exactly seven triples of selector, ownership
 and live table; they are closed under every event, and one uninterrupted rollback from any of them
 restores the previous generation. The states in which an apply can stop outside of them are the
 three named below, two of which no later event leaves.
 */
module ProtocolRecovery {
  import opened Common
  import opened Protocol
  import opened ProtocolSafety
  import opened ProtocolRecords
  import opened ProtocolRuns

  // ---------- the seven triples ----------

  ghost predicate Triple(h: Host, selector: Generation, owner: Generation, live: Live) {
    h.selector == Some(selector) && h.owner == Ours(owner) && h.live == live
  }

  ghost predicate Seven(h: Host, c: Generation, p: Generation) {
    || Triple(h, c, c, Table([c])) || Triple(h, c, c, Absent)
    || Triple(h, p, c, Table([c])) || Triple(h, p, c, Absent) || Triple(h, p, c, Table([p]))
    || Triple(h, p, p, Table([p])) || Triple(h, p, p, Absent)
  }

  /** The triples at which an apply can stop and its rollback refuses to start. */
  ghost predicate Refused(h: Host, c: Generation, p: Generation) {
    || Triple(h, c, p, Table([p])) || Triple(h, c, p, Absent)
    || Triple(h, c, c, Table([p]))
  }

  /** On any host, foreign or not, the rollback stage is recognised in the seven triples only. */
  lemma StageExact(h: Host, t: Tx)
    requires t.previous.Some? && t.previous.value != t.generation
    ensures UpdateStage(h, t).Some? <==> Seven(h, t.generation, t.previous.value)
    ensures UpdateStage(h, t) == Some(3) <==> Triple(h, t.previous.value, t.previous.value, Table([t.previous.value]))
  {
    if h.live.Table? && |h.live.markers| == 1 {
      assert h.live.markers == [h.live.markers[0]];
    }
  }

  /** `i` is an update whose mutations may have begun, and `i`'s own apply is no longer running. */
  ghost predicate Interrupted(s: State, i: Id) {
    && Pending(s.h.txs, i) && Mutable(s.h.txs[i]) && !s.h.txs[i].freshInstall
    && s.h.txs[i].previous.Some?
    && !(s.p.Applying? && s.p.id == i)
  }

  /**
   Wherever an interrupted update stands, it is one of the seven triples or one of the three. That
   this holds at every stopping point is carried by the invariant, which lists the ten, and so by
   RunKeepsInv.
   */
  lemma StopsAreKnown(s: State, i: Id)
    requires Inv(s) && Interrupted(s, i)
    ensures var t := s.h.txs[i];
      Seven(s.h, t.generation, t.previous.value) || Refused(s.h, t.generation, t.previous.value)
  {
    NothingElsePending(s, i);
  }

  /** A process that has gone far enough to hold a pending transaction holds its own. */
  lemma ProcessHolds(s: State)
    requires Inv(s)
    ensures s.p.Applying? ==> NoPending(s.h.txs) || Pending(s.h.txs, s.p.id)
    ensures s.p.Rolling? && !s.p.step.ReadTx? ==> Pending(s.h.txs, s.p.id) && s.p.tx == s.h.txs[s.p.id]
    ensures s.p.Confirming? && !s.p.stop.ReadRecord? ==> Pending(s.h.txs, s.p.id) && s.p.tx == s.h.txs[s.p.id]
  {
  }

  lemma OnlyItsOwnProcess(s: State, i: Id)
    requires Inv(s) && Interrupted(s, i)
    ensures !s.p.Applying?
    ensures s.p.Rolling? && !s.p.step.ReadTx? ==> s.p.id == i && s.p.tx == s.h.txs[i]
    ensures s.p.Confirming? && !s.p.stop.ReadRecord? ==> s.p.id == i && s.p.tx == s.h.txs[i]
    ensures s.p.Checking? ==> s.p.check.ScanPending?
    ensures WellFormed(s.h.txs[i])
  {
    NothingElsePending(s, i);
    ProcessHolds(s);
  }

  // ---------- what one event can do to an interrupted update ----------

  ghost predicate StillInterrupted(s: State, s': State, i: Id)
    requires i in s.h.txs
  {
    Interrupted(s', i) && s'.h.txs[i] == s.h.txs[i]
  }

  function MarkedRolledBack(t: Tx): Tx {
    t.(rolledBack := true, phase := RolledBack)
  }

  /** The previous generation is selected, owned and live unless lost, and the units are its own. */
  ghost predicate BroughtBack(h: Host, t: Tx) {
    && t.previous.Some? && h.selector == t.previous && h.owner == Ours(t.previous.value)
    && LiveIs(h, t.previous.value) && UnitsBack(h, t)
  }

  ghost predicate Cleared(h: Host) {
    h.selector.None? && h.owner.None? && h.live.Absent?
  }

  /** The write that decides a rollback finds the host restored. */
  lemma FinishRestores(s: State, f: Fate)
    requires Inv(s) && s.p.Rolling? && s.p.step.Finish?
    ensures var h', t := TickRoll(s, f).h, s.p.tx;
      && h' == WithTx(s.h, s.p.id, MarkedRolledBack(t), f)
      && (!t.freshInstall ==> BroughtBack(h', t))
      && (t.freshInstall && Mutable(t) ==> Cleared(h') && UnitsBack(h', t))
  {
    NothingElsePending(s, s.p.id);
    RollWrites(s, f) by { assert RollSound(s); }
    hide TickRoll;
  }

  /**
   Whatever event decides a pending transaction as rolled back, from any state of a run, the host is
   restored at that moment: for an update selector, ownership, live table, enablement and DDNS timer
   are those of the previous generation; for a fresh install that may have mutated nothing is left.
   */
  lemma RollbackRestores(s: State, e: Event, i: Id)
    requires Inv(s) && Pending(s.h.txs, i)
    requires i in Step(s, e).h.txs && Step(s, e).h.txs[i].rolledBack
    ensures var h', t := Step(s, e).h, s.h.txs[i];
      && h'.txs[i] == MarkedRolledBack(t) && NoPending(h'.txs)
      && (!t.freshInstall ==> BroughtBack(h', t))
      && (t.freshInstall && Mutable(t) ==> Cleared(h') && UnitsBack(h', t))
  {
    OnlyFinishDecides(s, e, i);
    FinishRestores(s, e.fate);
  }

  lemma OnlyFinishDecides(s: State, e: Event, i: Id)
    requires Inv(s) && Pending(s.h.txs, i)
    requires i in Step(s, e).h.txs && Step(s, e).h.txs[i].rolledBack
    ensures e.Tick? && s.p.Rolling? && s.p.step.Finish? && s.p.id == i && s.p.tx == s.h.txs[i] && Took(e.fate)
    ensures Step(s, e) == TickRoll(s, e.fate) && NoPending(Step(s, e).h.txs)
  {
    InvSound(s);
    OnlyTicksDecide(s, e, i);
    if s.p.Rolling? {
      FinishDecides(s, e.fate, i);
    } else {
      OthersDecideNot(s, e.fate, i);
    }
  }

  lemma OnlyTicksDecide(s: State, e: Event, i: Id)
    requires Pending(s.h.txs, i)
    requires i in Step(s, e).h.txs && Step(s, e).h.txs[i].rolledBack
    ensures e.Tick? && !s.p.Idle? && !s.p.Cancelling? && !s.p.Scanning?
  {
  }

  lemma OthersDecideNot(s: State, f: Fate, i: Id)
    requires Sound(s) && Pending(s.h.txs, i) && (s.p.Checking? || s.p.Applying? || s.p.Confirming?)
    ensures i in TickAny(s, f).h.txs && !TickAny(s, f).h.txs[i].rolledBack
  {
    match s.p {
      case Checking(_, _, _, _, _, _) => CheckKeepsFiles(s, f);
      case Applying(_, _, _, _) => ApplyKeepsRest(s, f);
      case _ =>
    }
  }

  lemma FinishDecides(s: State, f: Fate, i: Id)
    requires Inv(s) && Pending(s.h.txs, i) && s.p.Rolling?
    requires i in TickRoll(s, f).h.txs && TickRoll(s, f).h.txs[i].rolledBack
    ensures s.p.step.Finish? && s.p.id == i && s.p.tx == s.h.txs[i] && Took(f) && NoPending(TickRoll(s, f).h.txs)
  {
    assert RollSound(s);
    RollWrites(s, f);
    hide TickRoll;
    NothingElsePending(s, i);
    var txs := TickRoll(s, f).h.txs;
    forall j | j in txs ensures !Undecided(txs[j]) {
      assert j == i || !Pending(s.h.txs, j);
    }
  }

  /**
   The record stays, or is decided: rolled back out of one of the seven triples onto a restored host,
   or confirmed while selector and ownership are still the candidate's.
   */
  ghost predicate RecordMoves(s: State, s': State, i: Id)
    requires Interrupted(s, i)
  {
    var t := s.h.txs[i];
    && i in s'.h.txs
    && (|| StillInterrupted(s, s', i)
        || (s'.h.txs[i] == MarkedRolledBack(t) && Seven(s.h, t.generation, t.previous.value) && BroughtBack(s'.h, t))
        || (s'.h.txs[i] == t.(confirmed := true, phase := Confirmed) && s.h.selector == Some(t.generation)
            && s.h.owner == Ours(t.generation)))
  }

  /** The triple stays, loses its live table, or moves towards the previous generation within the seven. */
  ghost predicate TripleMoves(s: State, s': State, i: Id)
    requires Interrupted(s, i)
  {
    var t := s.h.txs[i];
    || SameTriple(s.h, s'.h)
    || SameTriple(s.h.(live := Absent), s'.h)
    || (&& Seven(s.h, t.generation, t.previous.value) && Seven(s'.h, t.generation, t.previous.value)
        && (s'.h.selector == s.h.selector || s'.h.selector == t.previous))
  }

  lemma UpdateStepMoves(s: State, f: Fate, i: Id)
    requires Interrupted(s, i) && s.p.Rolling? && UpdateStep(s.p.step) && s.p.id == i
    requires RollOwn(s) && RollRecord(s)
    ensures TripleMoves(s, TickUpdate(s, f), i)
  {
    UpdateKeepsTriple(s, f);
  }

  lemma UpdateStepOnInterrupted(s: State, f: Fate, i: Id)
    requires Inv(s) && Interrupted(s, i) && s.p.Rolling? && UpdateStep(s.p.step)
    ensures RecordMoves(s, TickUpdate(s, f), i) && TripleMoves(s, TickUpdate(s, f), i)
  {
    OnlyItsOwnProcess(s, i);
    NothingElsePending(s, i);
    UpdateKeepsTriple(s, f);
    UpdateKeepsProc(s, f);
    UpdateStepMoves(s, f, i);
  }

  lemma RollOnInterrupted(s: State, f: Fate, i: Id)
    requires Inv(s) && Interrupted(s, i) && s.p.Rolling?
    ensures RecordMoves(s, TickRoll(s, f), i) && TripleMoves(s, TickRoll(s, f), i)
  {
    OnlyItsOwnProcess(s, i);
    NothingElsePending(s, i);
    if !s.p.step.ReadTx? {
      if UpdateStep(s.p.step) {
        UpdateStepOnInterrupted(s, f, i);
      } else if UnitsStep(s.p.step) {
        RollUnitsKeepProc(s, f);
      } else {
        FinishRestores(s, f);
      }
    }
  }

  lemma ConfirmOnInterrupted(s: State, f: Fate, i: Id)
    requires Inv(s) && Interrupted(s, i) && s.p.Confirming?
    ensures RecordMoves(s, TickConfirm(s, f), i) && SameTriple(s.h, TickConfirm(s, f).h)
  {
    OnlyItsOwnProcess(s, i);
  }

  lemma EventOnInterrupted(s: State, e: Event, i: Id)
    requires Inv(s) && Interrupted(s, i)
    ensures RecordMoves(s, Step(s, e), i) && TripleMoves(s, Step(s, e), i)
  {
    OnlyItsOwnProcess(s, i);
    NothingElsePending(s, i);
    if e.Tick? {
      match s.p {
        case Checking(_, _, _, _, _, _) => CheckKeepsFiles(s, e.fate);
        case Rolling(_, _, _, _, _) => RollOnInterrupted(s, e.fate, i);
        case Confirming(_, _, _) => ConfirmOnInterrupted(s, e.fate, i);
        case _ =>
      }
    }
  }

  /** The invariant of the runs that miss nothing implies that of every run. */
  lemma InvSound(s: State)
    requires Inv(s)
    ensures Sound(s)
  {
    match s.p {
      case Checking(_, _, _, _, _, _) =>
      case Applying(_, _, _, _) => ApplyInvSound(s);
      case _ =>
    }
  }

  lemma ApplyInvSound(s: State)
    requires HostKept(s.h, s.last) && s.p.Applying? && ApplyKept(s)
    ensures ApplySound(s)
  {
  }

  // ---------- closure over runs ----------

  /** The seven triples are closed under every rollback step, kill, reboot and loss of the table. */
  lemma {:induction false} SevenClosed(s: State, es: seq<Event>, i: Id)
    requires Inv(s) && Interrupted(s, i) && !Exec(s, es).blind
    requires Seven(s.h, s.h.txs[i].generation, s.h.txs[i].previous.value)
    ensures var s' := Exec(s, es); var t := s.h.txs[i];
      && Inv(s') && i in s'.h.txs
      && (!Undecided(s'.h.txs[i]) || (StillInterrupted(s, s', i) && Seven(s'.h, t.generation, t.previous.value)))
  {
    hide Step, Inv;
    RunKeepsInv(s, es);
    if es != [] {
      SightedBefore(s, es, |es| - 1);
      var es' := es[..|es| - 1];
      var m, e := Exec(s, es'), es[|es| - 1];
      SevenClosed(s, es', i);
      if Undecided(m.h.txs[i]) {
        EventOnInterrupted(m, e, i);
      } else {
        InvSound(m);
        StepKeepsDecision(m, e, i);
      }
    }
  }

  /** Once a rollback has moved the selector, the transaction is never confirmed. */
  lemma {:induction false} MovedIsNeverConfirmed(s: State, es: seq<Event>, i: Id)
    requires Inv(s) && Interrupted(s, i) && !Exec(s, es).blind && s.h.selector == s.h.txs[i].previous
    ensures var s' := Exec(s, es);
      && Inv(s') && i in s'.h.txs && !s'.h.txs[i].confirmed
      && (s'.h.txs[i].rolledBack || (StillInterrupted(s, s', i) && s'.h.selector == s.h.selector))
  {
    hide Step;
    RunKeepsInv(s, es);
    NothingElsePending(s, i);
    if es != [] {
      SightedBefore(s, es, |es| - 1);
      var es' := es[..|es| - 1];
      var m, e := Exec(s, es'), es[|es| - 1];
      MovedIsNeverConfirmed(s, es', i);
      if Undecided(m.h.txs[i]) {
        EventOnInterrupted(m, e, i);
      } else {
        InvSound(m);
        StepKeepsDecision(m, e, i);
        assert RecordKept(m.h, m.h.txs[i]);
      }
    }
  }

  /**
   An update stopped after its selector moved but before its ownership record did stays pending
   forever: no retry, confirmation, kill, reboot or loss of the table leads out of it.
   */
  lemma {:induction false} StuckForever(s: State, es: seq<Event>, i: Id)
    requires Inv(s) && Interrupted(s, i) && !Exec(s, es).blind
    requires s.h.selector == Some(s.h.txs[i].generation) && s.h.owner == Ours(s.h.txs[i].previous.value)
    ensures var s' := Exec(s, es);
      && Inv(s') && StillInterrupted(s, s', i)
      && s'.h.selector == s.h.selector && s'.h.owner == s.h.owner
  {
    hide Step;
    RunKeepsInv(s, es);
    NothingElsePending(s, i);
    if es != [] {
      SightedBefore(s, es, |es| - 1);
      StuckForever(s, es[..|es| - 1], i);
      EventOnInterrupted(Exec(s, es[..|es| - 1]), es[|es| - 1], i);
    }
  }

  /** The third refused triple is left only by losing the live table, which brings it into the seven. */
  lemma LossUnblocks(s: State, i: Id, e: Event)
    requires Inv(s) && Interrupted(s, i)
    requires Triple(s.h, s.h.txs[i].generation, s.h.txs[i].generation, Table([s.h.txs[i].previous.value]))
    requires e.TableDeleted? || e.Reboot?
    ensures Interrupted(Step(s, e), i)
    ensures Seven(Step(s, e).h, s.h.txs[i].generation, s.h.txs[i].previous.value)
  {
  }
}
