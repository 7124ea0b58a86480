/**
 What one uninterrupted command achieves: rollbacks that finish, the exact condition under which an
 update rollback does, and applies that can be confirmed or undone.
 */
module ProtocolProgress {
  import opened Common
  import opened Protocol
  import opened ProtocolSafety
  import opened ProtocolRecords
  import opened ProtocolRuns
  import opened ProtocolRecovery

  /** `Restore(i)` run to its end with every interaction working. */
  function Restoring(s: State, i: Id): State {
    Uninterrupted(Step(s, Begin(Restore(i))))
  }

  /** The units and the record as a finished rollback leaves them. */
  function UnitsRestored(h: Host, i: Id, t: Tx): Host {
    h.(fwEnabled := t.fwWasEnabled,
       ddns := Unit(Intended(h, t), Intended(h, t)),
       txs := h.txs[i := MarkedRolledBack(t)])
  }

  function PreviousRestored(h: Host, i: Id, t: Tx): Host
    requires t.previous.Some?
  {
    var p := t.previous.value;
    UnitsRestored(h.(selector := Some(p), owner := Ours(p), live := Table([p])), i, t)
  }

  function NothingLeft(h: Host, i: Id, t: Tx): Host {
    UnitsRestored(h.(selector := None, owner := None, live := Absent), i, t)
  }

  /** A rollback of `t` standing at `step`, having met no error, started by a restore. */
  ghost predicate At(s: State, step: RollAt, i: Id, t: Tx) {
    s.p == Rolling(step, i, t, false, Restored)
  }

  lemma UnitsComplete(s: State, i: Id, t: Tx)
    requires At(s, Enablement, i, t) && (t.freshInstall || IntentReadable(s.h, t))
    ensures Uninterrupted(s) == s.(h := UnitsRestored(s.h, i, t), p := Idle, ok := true)
  {
    var h1 := s.h.(fwEnabled := t.fwWasEnabled);
    var s2 := s.(h := h1, p := Rolling(Timer, i, t, false, Restored));
    var s3 := s.(h := h1.(ddns := Unit(Intended(h1, t), Intended(h1, t))), p := Rolling(Finish, i, t, false, Restored));
    EnablementComplete(s, i, t);
    TimerComplete(s2, i, t);
    hide TickAny;
    assert Uninterrupted(s2) == Uninterrupted(s3);
  }

  lemma EnablementComplete(s: State, i: Id, t: Tx)
    requires At(s, Enablement, i, t) && (t.freshInstall || IntentReadable(s.h, t))
    ensures Uninterrupted(s)
         == Uninterrupted(s.(h := s.h.(fwEnabled := t.fwWasEnabled), p := Rolling(Timer, i, t, false, Restored)))
  {
    var s1 := TickAny(s, Works);
    assert Uninterrupted(s) == Uninterrupted(s1);
    if !t.freshInstall {
      assert Uninterrupted(s1) == Uninterrupted(TickAny(s1, Works));
    }
  }

  lemma TimerComplete(s: State, i: Id, t: Tx)
    requires At(s, Timer, i, t)
    ensures var h' := s.h.(ddns := Unit(Intended(s.h, t), Intended(s.h, t)));
      && TickAny(s, Works) == s.(h := h', p := Rolling(Finish, i, t, false, Restored))
      && Uninterrupted(TickAny(s, Works))
         == s.(h := h'.(txs := s.h.txs[i := MarkedRolledBack(t)]), p := Idle, ok := true)
  {
    var s1 := TickAny(s, Works);
    assert Uninterrupted(s1) == Uninterrupted(TickAny(s1, Works));
  }

  lemma RestageComplete(s: State, i: Id, t: Tx)
    requires At(s, Restage, i, t) && !t.freshInstall && t.previous.Some? && IntentReadable(s.h, t)
    requires Triple(s.h, t.previous.value, t.previous.value, Table([t.previous.value]))
        && t.previous != Some(t.generation)
    ensures Uninterrupted(s) == s.(h := PreviousRestored(s.h, i, t), p := Idle, ok := true)
  {
    StageExact(s.h, t);
    UnitsComplete(TickAny(s, Works), i, t);
  }

  lemma ReownComplete(s: State, i: Id, t: Tx)
    requires At(s, Reown, i, t) && !t.freshInstall && t.previous.Some? && IntentReadable(s.h, t)
        && t.previous != Some(t.generation)
    requires s.h.selector == t.previous && s.h.live == Table([t.previous.value])
    ensures Uninterrupted(s) == s.(h := PreviousRestored(s.h, i, t), p := Idle, ok := true)
  {
    RestageComplete(TickAny(s, Works), i, t);
  }

  lemma ReloadComplete(s: State, i: Id, t: Tx)
    requires At(s, Reload, i, t) && !t.freshInstall && t.previous.Some? && IntentReadable(s.h, t)
        && t.previous != Some(t.generation)
    requires s.h.selector == t.previous
    ensures Uninterrupted(s) == s.(h := PreviousRestored(s.h, i, t), p := Idle, ok := true)
  {
    ReownComplete(TickAny(s, Works), i, t);
  }

  lemma ReselectComplete(s: State, i: Id, t: Tx)
    requires At(s, Reselect, i, t) && !t.freshInstall && t.previous.Some? && IntentReadable(s.h, t)
        && t.previous != Some(t.generation)
    ensures Uninterrupted(s) == s.(h := PreviousRestored(s.h, i, t), p := Idle, ok := true)
  {
    ReloadComplete(TickAny(s, Works), i, t);
  }

  lemma StageComplete(s: State, i: Id, t: Tx)
    requires At(s, Stage, i, t) && !t.freshInstall && t.previous.Some? && IntentReadable(s.h, t)
        && t.previous != Some(t.generation)
    requires Seven(s.h, t.generation, t.previous.value)
    ensures Uninterrupted(s) == s.(h := PreviousRestored(s.h, i, t), p := Idle, ok := true)
  {
    StageExact(s.h, t);
    var s' := TickAny(s, Works);
    match s'.p.step {
      case Reselect => ReselectComplete(s', i, t);
      case Reload => ReloadComplete(s', i, t);
      case Reown => ReownComplete(s', i, t);
      case Restage => RestageComplete(s', i, t);
    }
  }

  /**
   One uninterrupted rollback from any of the seven triples restores the previous generation
   entirely: selector, ownership, live table, DDNS timer intent and firewall enablement.
   */
  lemma UpdateRollbackCompletes(s: State, i: Id)
    requires Sound(s) && s.p.Idle? && Interrupted(s, i)
    requires Seven(s.h, s.h.txs[i].generation, s.h.txs[i].previous.value)
    ensures var s' := Restoring(s, i);
      s'.p.Idle? && s'.ok && s'.h == PreviousRestored(s.h, i, s.h.txs[i])
  {
    assert RecordKept(s.h, s.h.txs[i]);
    var s1 := Step(s, Begin(Restore(i)));
    var s2 := TickAny(s1, Works);
    assert At(s2, Stage, i, s.h.txs[i]);
    StageComplete(s2, i, s.h.txs[i]);
    assert Uninterrupted(s1) == Uninterrupted(s2);
  }

  // ---------- retries ----------

  /** What can happen while a rollback is retried: anything but another apply or a confirmation. */
  predicate Retry(e: Event) {
    !(e.Begin? && (e.cmd.Apply? || e.cmd.Confirm?))
  }

  predicate Retrying(p: Proc) {
    p.Idle? || p.Rolling? || p.Scanning? || p.Cancelling?
  }

  /** The update is still interrupted within the seven, or rolled back onto a restored host. */
  ghost predicate Converging(s: State, i: Id, t: Tx) {
    && Retrying(s.p) && i in s.h.txs && t.previous.Some?
    && (|| (s.h.txs[i] == t && Interrupted(s, i) && Seven(s.h, t.generation, t.previous.value))
        || (s.h.txs[i] == MarkedRolledBack(t) && NoPending(s.h.txs) && BroughtBack(s.h, t)))
  }

  lemma RetryStays(s: State, e: Event)
    requires Retrying(s.p) && Retry(e)
    ensures Retrying(Step(s, e).p)
  {
    if e.Tick? && s.p.Rolling? { RollRetries(s, e.fate); }
    hide TickRoll;
  }

  lemma RollRetries(s: State, f: Fate)
    requires s.p.Rolling?
    ensures var p := TickRoll(s, f).p; p.Idle? || p.Rolling? || p.Cancelling?
  {
    hide TickFresh, TickUpdate, TickUnits, Done;
    DoneRetries(s);
    if s.p.step.ReadTx? {
    } else if FreshStep(s.p.step) {
      FreshRetries(s, f);
    } else if UpdateStep(s.p.step) {
      UpdateRetries(s, f);
    } else {
      UnitsRetry(s, f);
    }
  }

  lemma DoneRetries(s: State)
    requires s.p.Rolling?
    ensures forall h, ok :: var p := Done(s, h, ok).p; p.Idle? || p.Rolling? || p.Cancelling?
  {
  }

  lemma FreshRetries(s: State, f: Fate)
    requires s.p.Rolling?
    ensures TickFresh(s, f).p.Rolling?
  {
  }

  lemma UpdateRetries(s: State, f: Fate)
    requires s.p.Rolling?
    ensures var p := TickUpdate(s, f).p; p.Idle? || p.Rolling? || p.Cancelling?
  {
    DoneRetries(s);
    hide Done, UpdateStage;
  }

  lemma UnitsRetry(s: State, f: Fate)
    requires s.p.Rolling?
    ensures var p := TickUnits(s, f).p; p.Idle? || p.Rolling? || p.Cancelling?
  {
    DoneRetries(s);
    hide Done;
  }

  /** With nothing pending, a retry touches neither the files nor the units. */
  lemma RestIsKept(s: State, e: Event, t: Tx)
    requires Inv(s) && Retrying(s.p) && Retry(e) && NoPending(s.h.txs) && BroughtBack(s.h, t)
    ensures Step(s, e).h.txs == s.h.txs && BroughtBack(Step(s, e).h, t)
  {
    ProcessHolds(s);
    hide TickFresh, TickUpdate, TickUnits;
  }

  lemma StepConverges(s: State, e: Event, i: Id, t: Tx)
    requires Inv(s) && Converging(s, i, t) && Retry(e)
    ensures Converging(Step(s, e), i, t)
  {
    RetryStays(s, e);
    if Pending(s.h.txs, i) {
      EventOnInterrupted(s, e, i);
      if Step(s, e).h.txs[i].rolledBack {
        RollbackRestores(s, e, i);
      } else {
        RetryConfirmsNothing(s, e, i);
        hide Step;
      }
    } else {
      RestIsKept(s, e, t);
      hide Step;
    }
  }

  lemma RetryConfirmsNothing(s: State, e: Event, i: Id)
    requires Inv(s) && Interrupted(s, i) && Retrying(s.p) && Retry(e) && i in Step(s, e).h.txs
    ensures Step(s, e).h.txs[i].confirmed ==> s.h.txs[i].confirmed
  {
    InvSound(s);
    if e.Tick? && s.p.Rolling? { RollWrites(s, e.fate); }
    hide TickRoll;
  }

  lemma {:induction false} RetriesStay(s: State, es: seq<Event>, i: Id, t: Tx)
    requires Inv(s) && Converging(s, i, t) && !Exec(s, es).blind
    requires forall k :: 0 <= k < |es| ==> Retry(es[k])
    ensures Inv(Exec(s, es)) && Converging(Exec(s, es), i, t)
  {
    hide Step, Converging, Inv;
    RunKeepsInv(s, es);
    if es != [] {
      SightedBefore(s, es, |es| - 1);
      RunKeepsInv(s, es[..|es| - 1]);
      RetriesStay(s, es[..|es| - 1], i, t);
      StepConverges(Exec(s, es[..|es| - 1]), es[|es| - 1], i, t);
    }
  }

  /**
   From any of the seven triples, any schedule of rollbacks, reconciles, failures, kills, reboots and
   losses, followed by one rollback whose interactions all work, ends with the transaction rolled
   back and the previous generation selected, owned and, unless its table was lost after the
   decision, live; with the enablement that was recorded and the DDNS timer it intends.
   */
  lemma RetriesConverge(s: State, es: seq<Event>, i: Id)
    requires Inv(s) && Interrupted(s, i) && Retrying(s.p) && !Exec(s, es + [Kill]).blind
    requires Seven(s.h, s.h.txs[i].generation, s.h.txs[i].previous.value)
    requires forall k :: 0 <= k < |es| ==> Retry(es[k])
    ensures var m := Exec(s, es + [Kill]); var t := s.h.txs[i]; var s' := Restoring(m, i);
      && s'.p.Idle? && s'.ok && i in s'.h.txs && s'.h.txs[i] == MarkedRolledBack(t)
      && BroughtBack(s'.h, t)
      && i in m.h.txs && (Undecided(m.h.txs[i]) ==> s'.h == PreviousRestored(m.h, i, t))
      && (!Undecided(m.h.txs[i]) ==> s'.h == m.h)
  {
    var t := s.h.txs[i];
    RetriesStay(s, es + [Kill], i, t);
    var m := Exec(s, es + [Kill]);
    assert (es + [Kill])[..|es|] == es;
    assert m.p.Idle?;
    InvSound(m);
    if m.h.txs[i] == t {
      UpdateRollbackCompletes(m, i);
      IsBroughtBack(m.h, i, t);
    } else {
      RestoreOfDecided(m, i);
    }
  }

  lemma IsBroughtBack(h: Host, i: Id, t: Tx)
    requires t.previous.Some?
    ensures BroughtBack(PreviousRestored(h, i, t), t)
  {
  }

  lemma RestoreOfDecided(s: State, i: Id)
    requires s.p.Idle? && i in s.h.txs && !Undecided(s.h.txs[i])
    ensures Restoring(s, i) == s.(boot := Up, ok := true)
  {
    var s1 := Step(s, Begin(Restore(i)));
    assert Uninterrupted(s1) == Uninterrupted(TickAny(s1, Works));
  }

  /** A rollback of an interrupted update succeeds if and only if it starts in one of the seven. */
  lemma UpdateRollbackExact(s: State, i: Id)
    requires Sound(s) && s.p.Idle? && Interrupted(s, i)
    ensures var s' := Restoring(s, i); var t := s.h.txs[i];
      s'.ok <==> Seven(s.h, t.generation, t.previous.value)
    ensures !Seven(s.h, s.h.txs[i].generation, s.h.txs[i].previous.value) ==> Restoring(s, i).h == s.h
  {
    var t := s.h.txs[i];
    assert RecordKept(s.h, t);
    if Seven(s.h, t.generation, t.previous.value) {
      UpdateRollbackCompletes(s, i);
    } else {
      StageExact(s.h, t);
      var s1 := Step(s, Begin(Restore(i)));
      var s2 := TickAny(s1, Works);
      assert At(s2, Stage, i, t);
      var s3 := TickAny(s2, Works);
      assert s3.p.Idle?;
      assert Uninterrupted(s1) == Uninterrupted(s2) == Uninterrupted(s3) == s3;
    }
  }

  /** On any host whose triple the stage table does not know, an update rollback touches nothing. */
  lemma ForeignUpdateUntouched(s: State, i: Id, f1: Fate, f2: Fate)
    requires s.p.Idle? && Pending(s.h.txs, i) && Mutable(s.h.txs[i]) && !s.h.txs[i].freshInstall
    requires UpdateStage(s.h, s.h.txs[i]).None?
    ensures var s' := Exec(s, [Begin(Restore(i)), Tick(f1), Tick(f2)]);
      s'.p.Idle? && !s'.ok && s'.h == s.h
  {
    var es := [Begin(Restore(i)), Tick(f1), Tick(f2)];
    assert es[..2] == [Begin(Restore(i)), Tick(f1)];
    assert es[..2][..1] == [Begin(Restore(i))];
    assert [Begin(Restore(i))][..0] == [];
    assert Exec(s, []) == s;
    assert Exec(s, es[..2][..1]) == Step(s, Begin(Restore(i)));
  }

  // ---------- fresh installs ----------

  /** A fresh rollback touches each of the three only when it names its own generation. */
  ghost predicate OwnOnly(h: Host, h': Host, c: Generation) {
    && (h'.selector == h.selector || (h.selector == Some(c) && h'.selector.None?))
    && (h'.owner == h.owner || (h.owner == Ours(c) && h'.owner.None?))
    && (h'.live == h.live || (h.live.Table? && c in h.live.markers && h'.live.Absent?))
  }

  /** What a fresh rollback has read and, holding the lock, may rely on. */
  ghost predicate HasRead(s: State)
    requires s.p.Rolling?
  {
    var h, c := s.h, s.p.tx.generation;
    && (s.p.step.DeleteTable? ==> h.live.Absent? || c in h.live.markers)
    && (s.p.step.RemoveSelector? ==> h.selector.None? || h.selector == Some(c))
    && (s.p.step.RemoveOwner? ==> h.owner == Ours(c))
  }

  /** `s` has come from `h` by part of a fresh rollback of `t`, and has kept to its own. */
  ghost predicate Framed(h: Host, s: State, i: Id, t: Tx) {
    && OwnOnly(h, s.h, t.generation) && s.h.store == h.store && i in h.txs && h.txs[i] == t
    && (s.h.txs == h.txs || (s.h.txs == h.txs[i := MarkedRolledBack(t)] && Cleared(s.h)))
  }

  /** Where such a rollback can stand. */
  ghost predicate FreshStands(s: State, i: Id, t: Tx) {
    || s.p.Idle?
    || (s.p.Rolling? && s.p.id == i && s.p.after.Restored?
        && (s.p.step.ReadTx? || (s.p.tx == t && !UpdateStep(s.p.step) && RollOwn(s) && HasRead(s))))
  }

  lemma OwnOnlyOn(a: Host, b: Host, d: Host, c: Generation)
    requires OwnOnly(a, b, c) && OwnOnly(b, d, c)
    ensures OwnOnly(a, d, c)
  {
  }

  lemma FreshStepFramed(s: State, f: Fate)
    requires s.p.Rolling? && FreshStep(s.p.step) && RollOwn(s) && HasRead(s)
    ensures var s' := TickFresh(s, f);
      && OwnOnly(s.h, s'.h, s.p.tx.generation)
      && s'.h.txs == s.h.txs && s'.h.store == s.h.store
      && s'.p.Rolling? && s'.p == s.p.(step := s'.p.step, errs := s'.p.errs)
      && !s'.p.step.ReadTx? && !UpdateStep(s'.p.step) && RollOwn(s') && HasRead(s')
  {
    hide TickFresh, OwnOnly, RollOwn, HasRead;
    if s.p.step.ListTable? || s.p.step.DeleteTable? { TableStepFramed(s, f); } else { FilesStepFramed(s, f); }
  }

  ghost predicate FreshMoves(s: State, s': State)
    requires s.p.Rolling?
  {
    && OwnOnly(s.h, s'.h, s.p.tx.generation)
    && s'.h.txs == s.h.txs && s'.h.store == s.h.store
    && s'.p.Rolling? && s'.p == s.p.(step := s'.p.step, errs := s'.p.errs)
    && !s'.p.step.ReadTx? && !UpdateStep(s'.p.step) && RollOwn(s') && HasRead(s')
  }

  lemma TableStepFramed(s: State, f: Fate)
    requires s.p.Rolling? && (s.p.step.ListTable? || s.p.step.DeleteTable?) && RollOwn(s) && HasRead(s)
    ensures FreshMoves(s, TickFresh(s, f))
  {
  }

  lemma FilesStepFramed(s: State, f: Fate)
    requires s.p.Rolling? && FreshStep(s.p.step) && !s.p.step.ListTable? && !s.p.step.DeleteTable?
    requires RollOwn(s) && HasRead(s)
    ensures FreshMoves(s, TickFresh(s, f))
  {
  }

  ghost predicate UnitsMove(s: State, s': State)
    requires s.p.Rolling?
  {
    && SameTriple(s.h, s'.h) && s'.h.store == s.h.store
    && (s'.p.Idle? || (s'.p.Rolling? && s'.p == s.p.(step := s'.p.step, errs := s'.p.errs)
                       && !s'.p.step.ReadTx? && !FreshStep(s'.p.step) && !UpdateStep(s'.p.step) && RollOwn(s')))
    && (s'.h.txs == s.h.txs || (s'.h.txs == s.h.txs[s.p.id := MarkedRolledBack(s.p.tx)] && Cleared(s'.h)))
    && (s'.p.Rolling? ==> s'.h.txs == s.h.txs)
  }

  /** The units and the last write touch none of the three, and the last write finds them gone. */
  lemma UnitsStepFramed(s: State, f: Fate)
    requires s.p.Rolling? && s.p.tx.freshInstall && Mutable(s.p.tx) && s.p.after.Restored?
    requires !FreshStep(s.p.step) && !UpdateStep(s.p.step) && !s.p.step.ReadTx? && RollOwn(s)
    ensures UnitsMove(s, TickUnits(s, f))
  {
    hide TickUnits, UnitsMove, RollOwn;
    if s.p.step.Finish? { FinishFramed(s, f); } else { SwitchFramed(s, f); }
  }

  lemma FinishFramed(s: State, f: Fate)
    requires s.p.Rolling? && s.p.tx.freshInstall && Mutable(s.p.tx) && s.p.after.Restored?
    requires s.p.step.Finish? && RollOwn(s)
    ensures UnitsMove(s, TickUnits(s, f))
  {
  }

  lemma SwitchFramed(s: State, f: Fate)
    requires s.p.Rolling? && s.p.tx.freshInstall && Mutable(s.p.tx) && s.p.after.Restored?
    requires (s.p.step.Enablement? || s.p.step.Intent? || s.p.step.Timer?) && RollOwn(s)
    ensures UnitsMove(s, TickUnits(s, f))
  {
  }

  lemma ReadStepFramed(s: State, f: Fate, i: Id, t: Tx)
    requires s.p.Rolling? && s.p.step.ReadTx? && s.p.id == i && s.p.after.Restored?
    requires i in s.h.txs && s.h.txs[i] == t && Undecided(t) && t.freshInstall && t.previous.None? && Mutable(t)
    ensures var s' := TickRoll(s, f); s'.h == s.h && FreshStands(s', i, t)
  {
  }

  lemma TickFramed(h: Host, s: State, f: Fate, i: Id, t: Tx)
    requires Undecided(t) && t.freshInstall && t.previous.None? && Mutable(t)
    requires Framed(h, s, i, t) && FreshStands(s, i, t) && (!s.p.Idle? ==> s.h.txs == h.txs)
    ensures var s' := TickAny(s, f);
      Framed(h, s', i, t) && FreshStands(s', i, t) && (!s'.p.Idle? ==> s'.h.txs == h.txs)
  {
    if s.p.Rolling? {
      hide TickFresh, TickUnits, TickUpdate;
      if s.p.step.ReadTx? {
        ReadStepFramed(s, f, i, t);
        hide TickRoll;
      } else if FreshStep(s.p.step) {
        FreshStepFramed(s, f);
        OwnOnlyOn(h, s.h, TickFresh(s, f).h, t.generation);
        hide RollOwn, HasRead;
      } else {
        UnitsStepFramed(s, f);
        hide RollOwn;
      }
    }
  }

  /** The interactions of one command, each with its own outcome. */
  function Fated(fates: seq<Fate>): seq<Event> {
    seq(|fates|, k requires 0 <= k < |fates| => Tick(fates[k]))
  }

  /**
   On any host, its own or foreign, a rollback of a fresh install removes each of table, selector and
   ownership only where it names the transaction's generation, and does not mark the transaction
   rolled back while any of the three is still there; wherever it stops and whatever fails.
   */
  lemma {:induction false} ForeignFreshFramed(s: State, i: Id, fates: seq<Fate>)
    requires s.p.Idle? && Pending(s.h.txs, i) && Mutable(s.h.txs[i])
    requires s.h.txs[i].freshInstall && s.h.txs[i].previous.None?
    ensures var s' := Exec(s, [Begin(Restore(i))] + Fated(fates)); var t := s.h.txs[i];
      && OwnOnly(s.h, s'.h, t.generation) && s'.h.store == s.h.store
      && (s'.h.txs == s.h.txs || (s'.h.txs == s.h.txs[i := MarkedRolledBack(t)] && Cleared(s'.h)))
      && FreshStands(s', i, t) && (!s'.p.Idle? ==> s'.h.txs == s.h.txs)
  {
    var es := [Begin(Restore(i))] + Fated(fates);
    var t := s.h.txs[i];
    if fates == [] {
      assert es == [Begin(Restore(i))] && es[..0] == [];
      assert Exec(s, []) == s;
      assert Exec(s, es) == Step(s, Begin(Restore(i)));
    } else {
      var n := |fates| - 1;
      ForeignFreshFramed(s, i, fates[..n]);
      assert es[..|es| - 1] == [Begin(Restore(i))] + Fated(fates[..n]);
      assert es[|es| - 1] == Tick(fates[n]);
      var m := Exec(s, es[..|es| - 1]);
      TickFramed(s.h, m, fates[n], i, t);
      hide TickAny, FreshStands, Framed;
      assert Exec(s, es) == TickAny(m, fates[n]);
      assert Framed(s.h, TickAny(m, fates[n]), i, t);
      FramedParts(s.h, TickAny(m, fates[n]), i, t);
    }
  }

  lemma FramedParts(h: Host, s: State, i: Id, t: Tx)
    requires Framed(h, s, i, t)
    ensures OwnOnly(h, s.h, t.generation) && s.h.store == h.store
    ensures s.h.txs == h.txs || (s.h.txs == h.txs[i := MarkedRolledBack(t)] && Cleared(s.h))
  {
  }

  /** So what is foreign stays, and keeps the transaction from ending. */
  lemma ForeignFreshUndecided(s: State, i: Id, fates: seq<Fate>)
    requires s.p.Idle? && Pending(s.h.txs, i) && Mutable(s.h.txs[i])
    requires s.h.txs[i].freshInstall && s.h.txs[i].previous.None?
    requires var c := s.h.txs[i].generation;
      || (s.h.selector.Some? && s.h.selector != Some(c)) || (s.h.owner.Some? && s.h.owner != Ours(c))
      || (s.h.live.Table? && c !in s.h.live.markers)
    ensures var s' := Exec(s, [Begin(Restore(i))] + Fated(fates)); var c := s.h.txs[i].generation;
      && s'.h.txs == s.h.txs
      && (s.h.selector.Some? && s.h.selector != Some(c) ==> s'.h.selector == s.h.selector)
      && (s.h.owner.Some? && s.h.owner != Ours(c) ==> s'.h.owner == s.h.owner)
      && (s.h.live.Table? && c !in s.h.live.markers ==> s'.h.live == s.h.live)
  {
    hide Exec, FreshStands;
    ForeignFreshFramed(s, i, fates);
  }

  lemma OwnerComplete(s: State, i: Id, t: Tx)
    requires At(s, ReadOwner, i, t) && t.freshInstall && (s.h.owner.None? || s.h.owner == Ours(t.generation))
    ensures Uninterrupted(s) == s.(h := UnitsRestored(s.h.(owner := None), i, t), p := Idle, ok := true)
  {
    var s1 := TickAny(s, Works);
    var s2 := if s.h.owner.Some? then TickAny(s1, Works) else s1;
    assert At(s2, Enablement, i, t) && s2.h == s.h.(owner := None);
    UnitsComplete(s2, i, t);
    assert Uninterrupted(s) == Uninterrupted(s1) == Uninterrupted(s2);
  }

  lemma FreshComplete(s: State, i: Id, t: Tx)
    requires At(s, ListTable, i, t) && t.freshInstall && FreshTriple(s.h, t.generation)
    ensures Uninterrupted(s) == s.(h := NothingLeft(s.h, i, t), p := Idle, ok := true)
  {
    var s1 := TickAny(s, Works);
    var s2 := if s.h.live.Table? then TickAny(s1, Works) else s1;
    assert At(s2, ReadSelector, i, t) && s2.h == s.h.(live := Absent);
    var s3 := TickAny(s2, Works);
    var s4 := TickAny(s3, Works);
    assert At(s4, ReadOwner, i, t) && s4.h == s.h.(live := Absent, selector := None);
    OwnerComplete(s4, i, t);
    assert Uninterrupted(s) == Uninterrupted(s1) == Uninterrupted(s2) == Uninterrupted(s3) == Uninterrupted(s4);
  }

  /** From each of the eight combinations a fresh rollback that is let run removes all three. */
  lemma FreshRollbackCompletes(s: State, i: Id)
    requires s.p.Idle? && Pending(s.h.txs, i) && s.h.txs[i].freshInstall && Mutable(s.h.txs[i])
    requires FreshTriple(s.h, s.h.txs[i].generation)
    ensures var s' := Restoring(s, i);
      s'.p.Idle? && s'.ok && s'.h == NothingLeft(s.h, i, s.h.txs[i])
  {
    var s1 := Step(s, Begin(Restore(i)));
    var s2 := TickAny(s1, Works);
    assert At(s2, ListTable, i, s.h.txs[i]);
    FreshComplete(s2, i, s.h.txs[i]);
    assert Uninterrupted(s1) == Uninterrupted(s2);
  }

  /** Whatever happens to a pending fresh install that may have mutated, it is one of the eight. */
  lemma EightStay(s: State, i: Id)
    requires Reachable(s) && !s.blind && Pending(s.h.txs, i) && s.h.txs[i].freshInstall && Mutable(s.h.txs[i])
    ensures FreshTriple(s.h, s.h.txs[i].generation)
  {
    ReachableKept(s);
    NothingElsePending(s, i);
  }

  /** Before activation a fresh rollback writes the record and nothing else. */
  lemma EarlyFreshRollback(s: State, i: Id)
    requires s.p.Idle? && Pending(s.h.txs, i) && s.h.txs[i].freshInstall && !Mutable(s.h.txs[i])
    ensures var s' := Restoring(s, i);
      s'.p.Idle? && s'.ok && s'.h == s.h.(txs := s.h.txs[i := MarkedRolledBack(s.h.txs[i])])
  {
    var s1 := Step(s, Begin(Restore(i)));
    var s2 := TickAny(s1, Works);
    assert At(s2, Finish, i, s.h.txs[i]);
    var s3 := TickAny(s2, Works);
    assert Uninterrupted(s1) == Uninterrupted(s2) == Uninterrupted(s3) == s3;
  }

  // ---------- applies ----------

  /** `Apply(i, c, m)` run to its end with every interaction working. */
  function ApplyingOf(s: State, i: Id, c: Generation, m: Manifest): State {
    Uninterrupted(Step(s, Begin(Apply(i, c, m))))
  }

  function ConfirmingOf(s: State, i: Id): State {
    Uninterrupted(Step(s, Begin(Confirm(i))))
  }

  /** A table is live that selector, ownership record and its own marker do not name as one. */
  ghost predicate ForeignTable(h: Host) {
    && h.live.Table?
    && (h.selector.None? || h.owner != Ours(h.selector.value) || h.selector.value !in h.live.markers)
  }

  /** An apply of `c` passes its checks if each of them works: its scan sees nothing pending. */
  ghost predicate Applicable(s: State, i: Id, c: Generation, m: Manifest) {
    && s.p.Idle? && NoneSeen(s.h.txs, s.unread) && i !in s.h.txs
    && s.h.selector != Some(c) && m.version == 1
    && (c in s.h.store ==> s.h.store[c] == m)
    && !ForeignTable(s.h)
  }

  /** The state after a scan that has seen nothing pending. */
  function Looked(s: State): State {
    s.(blind := s.blind || !NoPending(s.h.txs))
  }

  lemma CanApplyApplicable(s: State, i: Id, c: Generation, m: Manifest)
    requires Inv(s) && CanApply(s, i, c, m)
    ensures Applicable(s, i, c, m) && Looked(s) == s
  {
  }

  /** A quiescent host on which generation `c` is not selected and may be stored. */
  ghost predicate CanApply(s: State, i: Id, c: Generation, m: Manifest) {
    && s.p.Idle? && NoPending(s.h.txs) && i !in s.h.txs
    && s.h.selector != Some(c) && m.version == 1
    && (c in s.h.store ==> s.h.store[c] == m)
  }

  /** The transaction an apply of `c` records, in its final phase. */
  function Applied(h: Host, c: Generation): Tx {
    Tx(Activated, c, h.selector, h.selector.None?, h.fwEnabled, false, false)
  }

  /** The host on which the apply recorded as `t` has ended. */
  function ActivatedHost(h: Host, i: Id, t: Tx, desired: bool): Host {
    var c := t.generation;
    h.(selector := Some(c), owner := Ours(c), live := Table([c]), txs := h.txs[i := t], timers := h.timers + {i},
       fwEnabled := true, ddns := Unit(desired, desired))
  }

  function AppliedHost(h: Host, i: Id, c: Generation, m: Manifest): Host {
    ActivatedHost(h.(store := h.store[c := m]), i, Applied(h, c), m.ddnsDesired)
  }

  /** The interactions of an apply with its transaction. */
  function Place(n: nat): ApplyAt {
    match n
    case 0 => Prepare case 1 => StartTimer case 2 => SeeTimer case 3 => Arm case 4 => MarkActivating
    case 5 => Select case 6 => Own case 7 => Load case 8 => MarkActivated case 9 => SetTimer
    case _ => Enable
  }

  /** The phase on disk and the phase intended before interaction `n`. */
  function RecordedPhase(n: nat): Phase {
    if n < 4 then Prepared else if n < 5 then Armed else if n < 9 then Activating else Activated
  }

  function IntendedPhase(n: nat): Phase {
    if n < 3 then Prepared else if n < 4 then Armed else if n < 8 then Activating else Activated
  }

  /** Where an apply recorded as `t` stands after `n` of its interactions have worked. */
  function Underway(s: State, i: Id, t: Tx, desired: bool, n: nat): State
    requires n <= 10
  {
    var c := t.generation;
    s.(h := s.h.(
         selector := if n < 6 then s.h.selector else Some(c),
         owner := if n < 7 then s.h.owner else Ours(c),
         live := if n < 8 then s.h.live else Table([c]),
         txs := if n < 1 then s.h.txs else s.h.txs[i := t.(phase := RecordedPhase(n))],
         timers := if n < 2 then s.h.timers else s.h.timers + {i},
         ddns := if n < 10 then s.h.ddns else Unit(desired, desired)),
       p := Applying(Place(n), i, t.(phase := IntendedPhase(n)), desired),
       armed := if n < 3 then s.armed else s.armed + {i})
  }

  lemma ArmingTick(s: State, i: Id, t: Tx, desired: bool, n: nat)
    requires n < 3
    ensures TickApply(Underway(s, i, t, desired, n), Works) == Underway(s, i, t, desired, n + 1)
  {
    assert s.h.txs[i := t.(phase := RecordedPhase(n))][i := t.(phase := RecordedPhase(n + 1))]
        == s.h.txs[i := t.(phase := RecordedPhase(n + 1))];
  }

  lemma PhasesTick(s: State, i: Id, t: Tx, desired: bool, n: nat)
    requires 3 <= n < 5
    ensures TickApply(Underway(s, i, t, desired, n), Works) == Underway(s, i, t, desired, n + 1)
  {
    assert s.h.txs[i := t.(phase := RecordedPhase(n))][i := t.(phase := RecordedPhase(n + 1))]
        == s.h.txs[i := t.(phase := RecordedPhase(n + 1))];
  }

  lemma FilesTick(s: State, i: Id, t: Tx, desired: bool, n: nat)
    requires 5 <= n < 7
    ensures TickApply(Underway(s, i, t, desired, n), Works) == Underway(s, i, t, desired, n + 1)
  {
  }

  lemma LoadTick(s: State, i: Id, t: Tx, desired: bool)
    requires t.generation in s.h.store
    ensures TickApply(Underway(s, i, t, desired, 7), Works) == Underway(s, i, t, desired, 8)
  {
  }

  lemma MarkingTick(s: State, i: Id, t: Tx, desired: bool)
    ensures TickApply(Underway(s, i, t, desired, 8), Works) == Underway(s, i, t, desired, 9)
  {
    assert s.h.txs[i := t.(phase := Activating)][i := t.(phase := Activated)]
        == s.h.txs[i := t.(phase := Activated)];
  }

  lemma SwitchTick(s: State, i: Id, t: Tx, desired: bool)
    ensures TickApply(Underway(s, i, t, desired, 9), Works) == Underway(s, i, t, desired, 10)
  {
  }

  lemma UnderwayTick(s: State, i: Id, t: Tx, desired: bool, n: nat)
    requires n < 10 && t.generation in s.h.store
    ensures TickAny(Underway(s, i, t, desired, n), Works) == Underway(s, i, t, desired, n + 1)
  {
    hide TickApply;
    if n < 3 {
      ArmingTick(s, i, t, desired, n);
    } else if n < 5 {
      PhasesTick(s, i, t, desired, n);
    } else if n < 7 {
      FilesTick(s, i, t, desired, n);
    } else {
      LoadTick(s, i, t, desired);
      MarkingTick(s, i, t, desired);
      SwitchTick(s, i, t, desired);
    }
  }

  lemma {:induction false} UnderwayTicks(s: State, i: Id, t: Tx, desired: bool, n: nat)
    requires n <= 10 && t.generation in s.h.store
    ensures Exec(Underway(s, i, t, desired, 0), Ticks(n)) == Underway(s, i, t, desired, n)
  {
    hide TickAny, Underway;
    if n > 0 {
      UnderwayTicks(s, i, t, desired, n - 1);
      UnderwayTick(s, i, t, desired, n - 1);
      assert Ticks(n)[..n - 1] == Ticks(n - 1);
    } else {
      assert Ticks(0) == [];
    }
  }

  lemma EnablingTick(s: State, i: Id, t: Tx, desired: bool)
    requires t.phase.Activated?
    ensures TickAny(Underway(s, i, t, desired, 10), Works)
         == s.(h := ActivatedHost(s.h, i, t, desired), p := Idle, ok := true, armed := s.armed + {i})
  {
    assert t.(phase := Activated) == t;
  }

  lemma ActivationComplete(s: State, i: Id, t: Tx, desired: bool)
    requires t.generation in s.h.store && t.phase.Activated?
    ensures Uninterrupted(Underway(s, i, t, desired, 0))
         == s.(h := ActivatedHost(s.h, i, t, desired), p := Idle, ok := true, armed := s.armed + {i})
  {
    hide TickAny, Exec, Ticks, ActivatedHost;
    UnderwayTicks(s, i, t, desired, 10);
    TicksAhead(Underway(s, i, t, desired, 0), 10);
    EnablingTick(s, i, t, desired);
    var s1 := Underway(s, i, t, desired, 10);
    assert Uninterrupted(s1) == TickAny(s1, Works);
  }

  /** The candidate has been stored, or was. */
  function Stocked(s: State, c: Generation, m: Manifest): State {
    s.(h := s.h.(store := s.h.store[c := m]), boot := Up)
  }

  lemma OwnershipComplete(s: State, i: Id, c: Generation, m: Manifest)
    requires Applicable(s, i, c, m)
    ensures Exec(Step(s, Begin(Apply(i, c, m))), Ticks(3))
         == Looked(s).(p := Checking(Validate, i, c, m, s.h.selector, false), boot := Up)
  {
    ThreeTicks(Step(s, Begin(Apply(i, c, m))));
  }

  lemma StoringComplete(s: State, i: Id, c: Generation, m: Manifest, active: Option<Generation>)
    requires c in s.h.store ==> s.h.store[c] == m
    ensures Exec(s.(p := Checking(Validate, i, c, m, active, false), boot := Up), Ticks(3))
         == Underway(Stocked(s, c, m), i, NewTx(c, active, s.h.fwEnabled).(phase := Activated), m.ddnsDesired, 0)
  {
    ThreeTicks(s.(p := Checking(Validate, i, c, m, active, false), boot := Up));
    if c in s.h.store {
      assert s.h.store[c := m] == s.h.store;
    }
  }

  /** The apply of `c` on `s` after its checks and `n` more interactions. */
  function ApplyAfter(s: State, i: Id, c: Generation, m: Manifest, n: nat): State
    requires n <= 10
  {
    Underway(Stocked(s, c, m), i, Applied(s.h, c), m.ddnsDesired, n)
  }

  lemma ReachesPlace(s: State, i: Id, c: Generation, m: Manifest, n: nat)
    requires Applicable(s, i, c, m) && n <= 10
    ensures Exec(Step(s, Begin(Apply(i, c, m))), Ticks(6 + n)) == ApplyAfter(Looked(s), i, c, m, n)
  {
    hide Step, Exec, Ticks, Underway;
    var s1 := Step(s, Begin(Apply(i, c, m)));
    OwnershipComplete(s, i, c, m);
    StoringComplete(Looked(s), i, c, m, s.h.selector);
    TicksAdd(s1, 3, 3);
    UnderwayTicks(Stocked(Looked(s), c, m), i, Applied(s.h, c), m.ddnsDesired, n);
    TicksAdd(s1, 6, n);
  }

  /** An uninterrupted apply activates its candidate everywhere, supervised by an active timer. */
  lemma ApplyCompletes(s: State, i: Id, c: Generation, m: Manifest)
    requires Applicable(s, i, c, m)
    ensures ApplyingOf(s, i, c, m)
         == Looked(s).(h := AppliedHost(s.h, i, c, m), p := Idle, ok := true, boot := Up, armed := s.armed + {i})
  {
    hide Step, Underway, Ticks, Exec, Uninterrupted;
    ReachesPlace(s, i, c, m, 0);
    TicksAhead(Step(s, Begin(Apply(i, c, m))), 6);
    ActivationComplete(Stocked(Looked(s), c, m), i, Applied(s.h, c), m.ddnsDesired);
  }

  /** On a quiescent host, it keeps the invariant. */
  lemma QuiescentApply(s: State, i: Id, c: Generation, m: Manifest)
    requires Inv(s) && CanApply(s, i, c, m)
    ensures var s' := ApplyingOf(s, i, c, m);
      s' == s.(h := AppliedHost(s.h, i, c, m), p := Idle, ok := true, boot := Up, armed := s.armed + {i})
    ensures Inv(ApplyingOf(s, i, c, m))
  {
    CanApplyApplicable(s, i, c, m);
    ApplyCompletes(s, i, c, m);
    StepKeepsInv(s, Begin(Apply(i, c, m)));
    UninterruptedKeepsInv(Step(s, Begin(Apply(i, c, m))));
  }

  lemma {:induction false} BlindToTheEnd(s: State)
    requires s.blind
    ensures Uninterrupted(s).blind
    decreases Work(s.p)
  {
    if !s.p.Idle? {
      TickWorksOff(s, Works);
      BlindStays(s, Tick(Works));
      BlindToTheEnd(TickAny(s, Works));
    }
  }

  lemma {:induction false} UninterruptedKeepsInv(s: State)
    requires Inv(s) && !Uninterrupted(s).blind
    ensures Inv(Uninterrupted(s)) && Uninterrupted(s).p.Idle?
    decreases Work(s.p)
  {
    if !s.p.Idle? {
      TickWorksOff(s, Works);
      if TickAny(s, Works).blind { BlindToTheEnd(TickAny(s, Works)); }
      TickKeepsInv(s, Works);
      UninterruptedKeepsInv(TickAny(s, Works));
    }
  }

  /** Restoring undoes an apply: what was selected, owned and enabled before is so again. */
  lemma RestoreUndoesApply(s: State, i: Id, c: Generation, m: Manifest)
    requires Inv(s) && CanApply(s, i, c, m)
    ensures var s' := Restoring(ApplyingOf(s, i, c, m), i);
      && s'.p.Idle? && s'.ok && NoPending(s'.h.txs)
      && s'.h.selector == s.h.selector && s'.h.owner == s.h.owner && s'.h.fwEnabled == s.h.fwEnabled
      && s'.h.live == (if s.h.selector.Some? then Table([s.h.selector.value]) else Absent)
      && s'.h.ddns.enabled == (s.h.selector.Some? && s.h.store[s.h.selector.value].ddnsDesired)
      && s'.last == s.last
  {
    QuiescentApply(s, i, c, m);
    var m1 := ApplyingOf(s, i, c, m);
    if s.h.selector.Some? {
      UpdateRollbackCompletes(m1, i);
    } else {
      FreshRollbackCompletes(m1, i);
    }
    RestoringKeepsLast(m1, i);
  }

  lemma RestoringKeepsLast(s: State, i: Id)
    requires s.p.Idle?
    ensures Restoring(s, i).last == s.last
  {
    RollingKeepsLast(Step(s, Begin(Restore(i))));
  }

  lemma {:induction false} RollingKeepsLast(s: State)
    requires s.p.Rolling? || s.p.Idle? || s.p.Cancelling?
    ensures Uninterrupted(s).last == s.last
    decreases Work(s.p)
  {
    hide TickRoll;
    if s.p.Rolling? { RollRetries(s, Works); }
    if !s.p.Idle? {
      TickWorksOff(s, Works);
      RollingKeepsLast(TickAny(s, Works));
    }
  }

  /** Confirming an apply makes its generation the confirmed one and stops its timer. */
  lemma ConfirmCommitsApply(s: State, i: Id, c: Generation, m: Manifest)
    requires Inv(s) && CanApply(s, i, c, m)
    ensures var s' := ConfirmingOf(ApplyingOf(s, i, c, m), i);
      && s'.p.Idle? && s'.ok && NoPending(s'.h.txs) && i !in s'.h.timers
      && s'.last == Some(c) && Triple(s'.h, c, c, Table([c])) && s'.h.fwEnabled
      && s'.h.store == s.h.store[c := m]
      && s'.h.txs == s.h.txs[i := Applied(s.h, c).(confirmed := true, phase := Confirmed)]
  {
    QuiescentApply(s, i, c, m);
    var m1 := ApplyingOf(s, i, c, m);
    var s1 := Step(m1, Begin(Confirm(i)));
    ThreeTicks(s1);
    var s4 := Exec(s1, Ticks(3));
    assert s4.p == Cancelling(i, true);
    TicksAhead(s1, 3);
    assert Uninterrupted(s4) == TickAny(s4, Works);
    var t := Applied(s.h, c);
    assert s.h.txs[i := t][i := t.(confirmed := true, phase := Confirmed)]
        == s.h.txs[i := t.(confirmed := true, phase := Confirmed)];
  }

  // ---------- what the checks decide ----------

  /** The transaction can be confirmed: it is activated and all three name its generation, or it is already. */
  ghost predicate Confirmable(h: Host, i: Id) {
    && i in h.txs && !h.txs[i].rolledBack
    && (|| h.txs[i].confirmed
        || (&& h.txs[i].phase.Activated? && h.selector == Some(h.txs[i].generation)
            && h.owner == Ours(h.txs[i].generation)
            && h.live.Table? && h.txs[i].generation in h.live.markers))
  }

  /**
   On any host an uninterrupted confirmation succeeds if and only if the transaction can be confirmed;
   otherwise it changes nothing, and when it succeeds only the record and the timer change.
   */
  lemma ConfirmExact(s: State, i: Id)
    requires s.p.Idle?
    ensures var s' := ConfirmingOf(s, i);
      && s'.p.Idle? && (s'.ok <==> Confirmable(s.h, i))
      && (!s'.ok ==> s'.h == s.h)
      && (s'.ok ==> s'.h == s.h.(timers := s.h.timers - {i}, txs := s'.h.txs))
      && (s'.ok && s.h.txs[i].confirmed ==> s'.h.txs == s.h.txs)
      && (s'.ok && !s.h.txs[i].confirmed ==>
            s'.h.txs == s.h.txs[i := s.h.txs[i].(confirmed := true, phase := Confirmed)])
  {
    var s1 := Step(s, Begin(Confirm(i)));
    var s2 := TickAny(s1, Works);
    assert Uninterrupted(s1) == Uninterrupted(s2);
    if s2.p.Confirming? {
      VerifiedConfirm(s2, i);
    } else if s2.p.Cancelling? {
      assert Uninterrupted(s2) == TickAny(s2, Works);
    }
  }

  lemma VerifiedConfirm(s: State, i: Id)
    requires s.p.Confirming? && s.p.stop.Verify? && s.p.id == i
    ensures var s' := Uninterrupted(s); var c := s.p.tx.generation;
      if s.h.selector == Some(c) && s.h.owner == Ours(c) && s.h.live.Table? && c in s.h.live.markers
      then
        && s'.p.Idle? && s'.ok
        && s'.h == s.h.(timers := s.h.timers - {i},
                        txs := s.h.txs[i := s.p.tx.(confirmed := true, phase := Confirmed)])
      else s'.p.Idle? && !s'.ok && s'.h == s.h
  {
    var s1 := TickAny(s, Works);
    assert Uninterrupted(s) == Uninterrupted(s1);
    if s1.p.Confirming? {
      var s2 := TickAny(s1, Works);
      assert Uninterrupted(s1) == Uninterrupted(s2) == TickAny(s2, Works);
    }
  }

  /** Where an apply can stand on a host whose table is not its own. */
  ghost predicate RefusedStands(s: State, c: Generation) {
    || s.p.Idle?
    || (s.p.Checking? && s.p.generation == c
        && (|| s.p.check.ScanPending? || s.p.check.ReadActive?
            || (s.p.check.CheckStored? && s.h.selector == Some(c))
            || (s.p.check.CheckOwner? && s.h.selector == Some(c))
            || (s.p.check.ListLive? && s.h.selector == Some(c) && s.h.owner == Ours(c))
            || (s.p.check.CheckOwnership? && s.p.active == s.h.selector)))
  }

  lemma RefusedTick(s: State, f: Fate, c: Generation)
    requires RefusedStands(s, c) && ForeignTable(s.h)
    ensures var s' := TickAny(s, f); s'.h == s.h && RefusedStands(s', c)
  {
  }

  /**
   An apply on a host whose table it does not own, because selector, ownership record and table do not
   name one generation, changes nothing there, wherever it stops and whatever fails.
   */
  lemma {:induction false} ForeignTableRefused(s: State, i: Id, c: Generation, m: Manifest, fates: seq<Fate>)
    requires s.p.Idle? && ForeignTable(s.h)
    ensures var s' := Exec(s, [Begin(Apply(i, c, m))] + Fated(fates)); s'.h == s.h && RefusedStands(s', c)
  {
    var es := [Begin(Apply(i, c, m))] + Fated(fates);
    if fates == [] {
      assert es == [Begin(Apply(i, c, m))] && es[..0] == [];
      assert Exec(s, []) == s;
      assert Exec(s, es) == Step(s, Begin(Apply(i, c, m)));
    } else {
      var n := |fates| - 1;
      ForeignTableRefused(s, i, c, m, fates[..n]);
      assert es[..|es| - 1] == [Begin(Apply(i, c, m))] + Fated(fates[..n]);
      assert es[|es| - 1] == Tick(fates[n]);
      RefusedTick(Exec(s, es[..|es| - 1]), fates[n], c);
      hide TickAny, RefusedStands;
      assert Exec(s, es) == TickAny(Exec(s, es[..|es| - 1]), fates[n]);
    }
  }

  // ---------- the refused triples are reached ----------

  lemma KilledAfter(s: State, i: Id, c: Generation, m: Manifest, n: nat)
    requires Inv(s) && CanApply(s, i, c, m) && n <= 10
    ensures var s' := Exec(s, [Begin(Apply(i, c, m))] + Ticks(6 + n) + [Kill]);
      Inv(s') && s' == Step(ApplyAfter(s, i, c, m, n), Kill)
  {
    var e := Begin(Apply(i, c, m));
    var es := [e] + Ticks(6 + n) + [Kill];
    assert es[..|es| - 1] == [e] + Ticks(6 + n);
    BeginFirst(s, e, 6 + n);
    CanApplyApplicable(s, i, c, m);
    ReachesPlace(s, i, c, m, n);
    RunKeepsInv(s, es);
  }

  /** Only scans can miss something. */
  lemma TickSees(s: State, f: Fate)
    requires !s.p.Checking? && !s.p.Scanning?
    ensures TickAny(s, f).blind == s.blind && !TickAny(s, f).p.Checking? && !TickAny(s, f).p.Scanning?
  {
    hide TickRoll, TickCheck, TickApply;
    if s.p.Rolling? { RollRetries(s, f); }
  }

  lemma {:induction false} UninterruptedSees(s: State)
    requires !s.p.Checking? && !s.p.Scanning?
    ensures Uninterrupted(s).blind == s.blind
    decreases Work(s.p)
  {
    hide TickAny;
    if !s.p.Idle? {
      TickWorksOff(s, Works);
      TickSees(s, Works);
      UninterruptedSees(TickAny(s, Works));
    }
  }

  lemma {:induction false} BeginFirst(s: State, e: Event, n: nat)
    ensures Exec(s, [e] + Ticks(n)) == Exec(Step(s, e), Ticks(n))
  {
    hide Step;
    if n > 0 {
      BeginFirst(s, e, n - 1);
      assert ([e] + Ticks(n))[..n] == [e] + Ticks(n - 1) && Ticks(n)[..n - 1] == Ticks(n - 1);
    } else {
      assert Ticks(0) == [] && [e] + Ticks(0) == [e] && [e][..0] == [];
    }
  }

  /**
   From every quiescent host that selects some `p`, an apply killed between moving the selector and
   recording ownership leaves the triple (c, p, live), which nothing leads out of.
   */
  lemma KilledBeforeOwning(s: State, i: Id, c: Generation, m: Manifest, later: seq<Event>)
    requires Inv(s) && CanApply(s, i, c, m) && s.h.selector.Some?
    requires !Exec(Exec(s, [Begin(Apply(i, c, m))] + Ticks(12) + [Kill]), later).blind
    ensures var s' := Exec(s, [Begin(Apply(i, c, m))] + Ticks(12) + [Kill]);
      && Inv(s') && s'.p.Idle? && Interrupted(s', i) && s'.h.txs[i].previous == s.h.selector
      && Triple(s'.h, c, s.h.selector.value, s.h.live)
      && Pending(Exec(s', later).h.txs, i) && Exec(s', later).h.selector == Some(c)
  {
    KilledAfter(s, i, c, m, 6);
    StuckForever(Step(ApplyAfter(s, i, c, m, 6), Kill), later, i);
  }

  /** Killed between recording ownership and loading, it leaves (c, c, live). */
  lemma KilledBeforeLoading(s: State, i: Id, c: Generation, m: Manifest)
    requires Inv(s) && CanApply(s, i, c, m) && s.h.selector.Some?
    ensures var s' := Exec(s, [Begin(Apply(i, c, m))] + Ticks(13) + [Kill]);
      && Inv(s') && s'.p.Idle? && Interrupted(s', i) && s'.h.txs[i].previous == s.h.selector
      && Triple(s'.h, c, c, s.h.live)
  {
    hide Inv, Exec, CanApply, Ticks;
    KilledAfter(s, i, c, m, 7);
    BeforeLoading(s, i, c, m);
  }

  lemma BeforeLoading(s: State, i: Id, c: Generation, m: Manifest)
    requires s.h.selector.Some?
    ensures var s' := Step(ApplyAfter(s, i, c, m, 7), Kill);
      s'.p.Idle? && Interrupted(s', i) && s'.h.txs[i].previous == s.h.selector && Triple(s'.h, c, c, s.h.live)
  {
  }

  /** Such a host exists: apply and confirm `p` on a host where cnftctl has never run. */
  lemma QuiescentHostExists(i: Id, p: Generation, m: Manifest)
    requires m.version == 1
    ensures var s := ConfirmingOf(ApplyingOf(INIT, i, p, m), i);
      Inv(s) && s.p.Idle? && NoPending(s.h.txs) && Triple(s.h, p, p, Table([p]))
  {
    InitKept();
    ConfirmCommitsApply(INIT, i, p, m);
    QuiescentApply(INIT, i, p, m);
    var s1 := ApplyingOf(INIT, i, p, m);
    StepKeepsInv(s1, Begin(Confirm(i)));
    UninterruptedSees(Step(s1, Begin(Confirm(i))));
    UninterruptedKeepsInv(Step(s1, Begin(Confirm(i))));
  }

  /** `n` interactions that all work. */
  function Ticks(n: nat): seq<Event> {
    seq(n, _ => Tick(Works))
  }

  lemma {:induction false} TicksAdd(s: State, m: nat, n: nat)
    ensures Exec(s, Ticks(m + n)) == Exec(Exec(s, Ticks(m)), Ticks(n))
  {
    hide Step;
    if n > 0 {
      TicksAdd(s, m, n - 1);
      assert Ticks(m + n)[..m + n - 1] == Ticks(m + n - 1);
      assert Ticks(n)[..n - 1] == Ticks(n - 1);
    } else {
      assert Ticks(0) == [];
    }
  }

  lemma ThreeTicks(s: State)
    ensures Exec(s, Ticks(3)) == TickAny(TickAny(TickAny(s, Works), Works), Works)
  {
    assert Ticks(3)[..2] == Ticks(2) && Ticks(2)[..1] == Ticks(1) && Ticks(1)[..0] == [];
    assert Exec(s, []) == s;
    assert Exec(s, Ticks(1)) == TickAny(s, Works);
    assert Exec(s, Ticks(2)) == TickAny(TickAny(s, Works), Works);
  }

  lemma {:induction false} TicksAhead(s: State, n: nat)
    ensures Uninterrupted(Exec(s, Ticks(n))) == Uninterrupted(s)
  {
    if n > 0 {
      TicksAhead(s, n - 1);
      assert Ticks(n)[..n - 1] == Ticks(n - 1);
    } else {
      assert Ticks(0) == [];
    }
  }
}
