/**
 What holds over the runs of the protocol from a host on which cnftctl has never run. Over every run:
 one decision per transaction, supervision before mutation, and storage of what is named. Over every
 run in which no scan has missed an undecided transaction: agreement whenever nothing is pending, one
 pending transaction, and a boot that loads only from a quiescent host.
 */
module ProtocolRuns {
  import opened Common
  import opened Protocol
  import opened ProtocolSafety
  import opened ProtocolRecords

  /** Any state that some run of commands, failures, kills, reboots and losses leads to. */
  ghost predicate Reachable(s: State) {
    exists es :: s == Exec(INIT, es)
  }

  lemma ReachableSound(s: State)
    requires Reachable(s)
    ensures Sound(s)
  {
    var es :| s == Exec(INIT, es);
    InitSound();
    RunKeepsSound(INIT, es);
  }

  lemma ReachableKept(s: State)
    requires Reachable(s) && !s.blind
    ensures Inv(s)
  {
    var es :| s == Exec(INIT, es);
    InitKept();
    RunKeepsInv(INIT, es);
  }

  lemma ReachableStep(s: State, e: Event)
    requires Reachable(s)
    ensures Reachable(Step(s, e))
  {
    var es :| s == Exec(INIT, es);
    var es' := es + [e];
    assert es'[..|es'| - 1] == es;
    assert Step(s, e) == Exec(INIT, es');
  }

  /**
   Whenever no transaction is pending, the selector is absent or names the most recently confirmed
   generation, the ownership record agrees with it, the live table is absent or is exactly that
   generation, and the selected generation is stored.
   */
  lemma QuiescentSafety(s: State)
    requires Reachable(s) && !s.blind && NoPending(s.h.txs)
    ensures s.h.selector.None? || s.h.selector == s.last
    ensures s.h.owner == OwnerOf(s.h.selector)
    ensures s.h.live.Table? ==> s.h.selector.Some? && s.h.live.markers == [s.h.selector.value]
    ensures s.h.selector.Some? ==> s.h.selector.value in s.h.store
  {
    ReachableKept(s);
  }

  lemma AtMostOnePending(s: State, i: Id, j: Id)
    requires Reachable(s) && !s.blind && Pending(s.h.txs, i) && Pending(s.h.txs, j)
    ensures i == j
  {
    ReachableKept(s);
  }

  /** The generations a rollback or a boot would load are stored, with a readable manifest. */
  lemma GenerationsStored(s: State, i: Id)
    requires Reachable(s) && i in s.h.txs
    ensures Stored(s.h, s.h.txs[i].generation)
    ensures s.h.txs[i].previous.Some? ==> Stored(s.h, s.h.txs[i].previous.value)
    ensures s.h.selector.Some? ==> Stored(s.h, s.h.selector.value)
  {
    ReachableSound(s);
    assert RecordKept(s.h, s.h.txs[i]);
  }

  // ---------- one decision per transaction ----------

  /** Confirmed and rolled back exclude each other and are exactly the phases of those names. */
  lemma DecisionIsPhase(s: State, i: Id)
    requires Reachable(s) && i in s.h.txs
    ensures var t := s.h.txs[i];
      && !(t.confirmed && t.rolledBack)
      && (t.confirmed <==> t.phase.Confirmed?)
      && (t.rolledBack <==> t.phase.RolledBack?)
  {
    ReachableSound(s);
    assert RecordKept(s.h, s.h.txs[i]);
  }

  lemma StepKeepsDecision(s: State, e: Event, i: Id)
    requires Sound(s) && i in s.h.txs && !Undecided(s.h.txs[i])
    ensures i in Step(s, e).h.txs && Step(s, e).h.txs[i] == s.h.txs[i]
  {
    if e.Tick? {
      match s.p {
        case Checking(_, _, _, _, _, _) => CheckKeepsFiles(s, e.fate);
        case Applying(_, _, _, _) => ApplyKeepsRest(s, e.fate);
        case Rolling(_, _, _, _, _) => RollWrites(s, e.fate);
        case _ =>
      }
    }
  }

  /** A decided record never changes again, whatever happens later. */
  lemma {:induction false} DecisionIsFinal(s: State, es: seq<Event>, i: Id)
    requires Sound(s) && i in s.h.txs && !Undecided(s.h.txs[i])
    ensures i in Exec(s, es).h.txs && Exec(s, es).h.txs[i] == s.h.txs[i]
  {
    if es != [] {
      DecisionIsFinal(s, es[..|es| - 1], i);
      RunKeepsSound(s, es[..|es| - 1]);
      StepKeepsDecision(Exec(s, es[..|es| - 1]), es[|es| - 1], i);
    }
  }

  /** Rolling back a decided transaction changes nothing on the host. */
  lemma RollbackAfterDecision(s: State, i: Id, f: Fate)
    requires s.p.Idle? && i in s.h.txs && !Undecided(s.h.txs[i])
    ensures var s' := Exec(s, [Begin(Restore(i)), Tick(f)]); s'.p.Idle? && s'.h == s.h && s'.ok == f.Works?
  {
    var es := [Begin(Restore(i)), Tick(f)];
    assert es[..1] == [Begin(Restore(i))];
    assert [Begin(Restore(i))][..0] == [];
    assert Exec(s, []) == s;
    assert Exec(s, es[..1]) == Step(s, Begin(Restore(i)));
  }

  // ---------- supervision precedes mutation ----------

  ghost predicate SameTriple(h: Host, h': Host) {
    h'.selector == h.selector && h'.owner == h.owner && h'.live == h.live
  }

  /** Some transaction is durably activating or activated, and its timer was seen active. */
  ghost predicate Supervised(s: State) {
    exists i :: Pending(s.h.txs, i) && Mutable(s.h.txs[i]) && i in s.armed
  }

  lemma ApplySupervised(s: State, f: Fate)
    requires Sound(s) && s.p.Applying? && !SameTriple(s.h, TickApply(s, f).h)
    ensures Supervised(s)
  {
    ApplyKeepsRest(s, f);
    assert Moving(s.p.at);
    assert Pending(s.h.txs, s.p.id);
  }

  lemma RollSupervised(s: State, f: Fate)
    requires Sound(s) && s.p.Rolling? && !SameTriple(s.h, TickRoll(s, f).h)
    ensures Supervised(s)
  {
    hide TickRoll, SameTriple;
    if !FreshStep(s.p.step) && !UpdateStep(s.p.step) { OnlyMovesAreMoves(s, f); }
    assert Pending(s.h.txs, s.p.id);
  }

  lemma OnlyMovesAreMoves(s: State, f: Fate)
    requires s.p.Rolling? && !FreshStep(s.p.step) && !UpdateStep(s.p.step)
    ensures SameTriple(s.h, TickRoll(s, f).h)
  {
    hide Done;
  }

  /** No cnftctl command moves selector, ownership or live table except under supervision. */
  lemma SupervisionPrecedesMutation(s: State, f: Fate)
    requires Reachable(s) && !SameTriple(s.h, Step(s, Tick(f)).h)
    ensures Supervised(s)
  {
    ReachableSound(s);
    match s.p {
      case Checking(_, _, _, _, _, _) => CheckKeepsFiles(s, f);
      case Applying(_, _, _, _) => ApplySupervised(s, f);
      case Rolling(_, _, _, _, _) => RollSupervised(s, f);
      case _ =>
    }
  }

  lemma CheckKeepsTimers(s: State, f: Fate)
    requires s.p.Checking?
    ensures TickCheck(s, f).h.timers == s.h.timers
  {
  }

  lemma ConfirmKeepsTimers(s: State, f: Fate)
    requires s.p.Confirming?
    ensures TickConfirm(s, f).h.timers == s.h.timers
  {
  }

  /** A command stops a rollback timer only once its transaction is durably decided. */
  lemma TimerOutlivesDecision(s: State, f: Fate, i: Id)
    requires Reachable(s) && i in s.h.timers && i !in Step(s, Tick(f)).h.timers
    ensures i in s.h.txs && !Undecided(s.h.txs[i])
  {
    hide TickApply, TickRoll, TickCheck, TickConfirm, Reachable;
    ReachableSound(s);
    match s.p {
      case Checking(_, _, _, _, _, _) => CheckKeepsTimers(s, f);
      case Confirming(_, _, _) => ConfirmKeepsTimers(s, f);
      case _ =>
    }
  }

  lemma OnlySeeingArms(s: State, e: Event, i: Id)
    requires Sound(s) && i !in s.armed && i in Step(s, e).armed
    ensures i in s.h.timers && Pending(s.h.txs, i) && s.h.txs[i].phase.Prepared?
  {
    hide TickApply, TickRoll, TickCheck, TickConfirm;
    if s.p.Checking? && e.Tick? { CheckKeepsFiles(s, e.fate); }
    if s.p.Confirming? && e.Tick? { ConfirmKeepsArmed(s, e.fate); }
    assert s.p.Applying? && e.Tick?;
    SeeingArms(s, e.fate, i);
  }

  lemma ConfirmKeepsArmed(s: State, f: Fate)
    requires s.p.Confirming?
    ensures TickConfirm(s, f).armed == s.armed
  {
  }

  lemma SeeingArms(s: State, f: Fate, i: Id)
    requires s.p.Applying? && i !in s.armed && i in TickApply(s, f).armed
    ensures s.p.at.SeeTimer? && i == s.p.id && i in s.h.timers
  {
  }

  /**
   A transaction counts as armed only because, at some earlier point of the run, its timer was
   active while its record was durably prepared and nothing had been activated yet.
   */
  lemma {:induction false} ArmedWasSeen(es: seq<Event>, i: Id) returns (k: nat)
    requires i in Exec(INIT, es).armed
    ensures k < |es|
    ensures var s := Exec(INIT, es[..k]);
      i in s.h.timers && Pending(s.h.txs, i) && s.h.txs[i].phase.Prepared? && i !in s.armed
  {
    var n := |es| - 1;
    var s := Exec(INIT, es[..n]);
    if i in s.armed {
      k := ArmedWasSeen(es[..n], i);
      assert es[..n][..k] == es[..k];
    } else {
      k := n;
      InitSound();
      RunKeepsSound(INIT, es[..n]);
      OnlySeeingArms(s, es[n], i);
    }
  }

  // ---------- reconciliation and boot ----------

  /** A command that is a reconcile. */
  predicate Reconciling(p: Proc) {
    p.Scanning? || (p.Rolling? && p.after.NextPending?)
  }

  /** A reconcile that reports success leaves nothing pending. */
  lemma ReconcileLeavesNone(s: State, f: Fate)
    requires Reachable(s) && Reconciling(s.p) && !Step(s, Tick(f)).blind
    ensures var s' := Step(s, Tick(f)); s'.p.Idle? && s'.ok ==> NoPending(s'.h.txs)
  {
    if s.blind { BlindStays(s, Tick(f)); }
    ReachableKept(s);
    ReachableStep(s, Tick(f));
    var s' := Step(s, Tick(f));
    if s.p.Rolling? && s'.p.Idle? && s'.ok {
      RollKeepsInv(s, f);
      forall i | i in s'.h.txs ensures !Undecided(s'.h.txs[i]) {
        ReconcileEnds(s, f, i);
      }
    }
  }

  lemma ReconcileEnds(s: State, f: Fate, i: Id)
    requires Inv(s) && s.p.Rolling? && s.p.after.NextPending?
    requires TickRoll(s, f).p.Idle? && TickRoll(s, f).ok
    ensures !Pending(TickRoll(s, f).h.txs, i)
  {
    assert s.p.step.ReadTx? || s.p.step.Finish? by { OnlyTheseEnd(s, f); }
    if Pending(s.h.txs, i) {
      assert i == s.p.id;
    }
  }

  lemma OnlyTheseEnd(s: State, f: Fate)
    requires s.p.Rolling? && s.p.after.NextPending? && TickRoll(s, f).p.Idle? && TickRoll(s, f).ok
    ensures s.p.step.ReadTx? || s.p.step.Finish?
    ensures s.p.after.rest == [] && !s.p.after.failed
  {
  }

  /** The boot-time load starts only from a quiescent host, and loads the confirmed generation. */
  lemma BootLoadsConfirmed(s: State, f: Fate)
    requires Reachable(s) && !s.blind && Step(s, BootLoad(f)).h.live != s.h.live
    ensures NoPending(s.h.txs) && s.last.Some?
    ensures s.h.selector == s.last && Step(s, BootLoad(f)).h.live == Table([s.last.value])
  {
    ReachableKept(s);
  }
}
