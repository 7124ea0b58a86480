/**
 What the commands make of failures: a failed interaction is reported however the command goes on, and a
 rollback of a fresh install goes on past one, and past what is not its own, to whatever it can still undo.
 */
module ProtocolFailures {
  import opened Common
  import opened Protocol
  import opened ProtocolSafety
  import opened ProtocolRuns
  import opened ProtocolRecovery
  import opened ProtocolProgress
  import opened ProtocolOutcomes

  // ---------- every failure is reported ----------

  /** The running command can no longer succeed. */
  predicate Doomed(p: Proc) {
    match p
    case Applying(at, _, _, _) => at.Rerecord?
    case Rolling(step, _, _, errs, after) =>
      after.Recovered? || (after.NextPending? && after.failed) || (errs && !step.ReadTx? && !step.Finish?)
    case Cancelling(_, result) => !result
    case _ => false
  }

  predicate Failing(s: State) {
    Doomed(s.p) || (s.p.Idle? && !s.ok)
  }

  lemma DoneFails(s: State, h: Host, ok: bool)
    requires s.p.Rolling?
    ensures !ok || s.p.after.Recovered? || (s.p.after.NextPending? && s.p.after.failed) ==> Failing(Done(s, h, ok))
  {
  }

  lemma FreshFails(s: State, f: Fate)
    requires s.p.Rolling? && FreshStep(s.p.step)
    ensures Doomed(s.p) || !f.Works? ==> Failing(TickFresh(s, f))
  {
  }

  lemma UpdateFails(s: State, f: Fate)
    requires s.p.Rolling? && UpdateStep(s.p.step)
    ensures Doomed(s.p) || !f.Works? ==> Failing(TickUpdate(s, f))
  {
    hide UpdateStage, Done;
    DoneFails(s, TickUpdate(s, f).h, false);
  }

  lemma UnitsFail(s: State, f: Fate)
    requires s.p.Rolling? && (UnitsStep(s.p.step) || s.p.step.Finish?)
    ensures Doomed(s.p) || !f.Works? ==> Failing(TickUnits(s, f))
  {
    hide Done, Intended, IntentReadable;
    DoneFails(s, TickUnits(s, f).h, false);
    DoneFails(s, TickUnits(s, f).h, true);
  }

  lemma RollFails(s: State, f: Fate)
    requires s.p.Rolling?
    ensures Doomed(s.p) || !f.Works? ==> Failing(TickRoll(s, f))
  {
    hide TickFresh, TickUpdate, TickUnits, Failing, Done;
    if s.p.step.ReadTx? {
      ReadFails(s, f);
    } else if FreshStep(s.p.step) {
      FreshFails(s, f);
    } else if UpdateStep(s.p.step) {
      UpdateFails(s, f);
    } else {
      UnitsFail(s, f);
    }
  }

  lemma ReadFails(s: State, f: Fate)
    requires s.p.Rolling? && s.p.step.ReadTx?
    ensures Doomed(s.p) || !f.Works? ==> Failing(TickRoll(s, f))
  {
  }

  lemma TickFails(s: State, f: Fate)
    requires !s.p.Idle?
    ensures Doomed(s.p) || !f.Works? ==> Failing(TickAny(s, f))
  {
    hide TickRoll;
    if s.p.Rolling? { RollFails(s, f); }
  }

  /**
   If any interaction of a running command fails, the command does not succeed, whatever follows: neither
   when it goes on, nor when it recovers, nor when it takes up another transaction.
   */
  lemma {:induction false} FailureIsReported(s: State, fates: seq<Fate>, k: nat)
    requires k < |fates| && !fates[k].Works? && !Exec(s, Fated(fates[..k])).p.Idle?
    ensures Failing(Exec(s, Fated(fates)))
    decreases |fates|
  {
    hide TickAny, Failing;
    var n := |fates| - 1;
    var m := Exec(s, Fated(fates[..n]));
    assert Fated(fates)[..n] == Fated(fates[..n]) && Fated(fates)[n] == Tick(fates[n]);
    assert Exec(s, Fated(fates)) == TickAny(m, fates[n]);
    if k == n {
      TickFails(m, fates[n]);
    } else {
      assert fates[..n][..k] == fates[..k];
      FailureIsReported(s, fates[..n], k);
      FailingStays(m, fates[n]);
    }
  }

  lemma FailingStays(s: State, f: Fate)
    requires Failing(s)
    ensures Failing(TickAny(s, f))
  {
    hide TickRoll;
    if !s.p.Idle? { TickFails(s, f); }
  }

  /** An apply that cannot write its record, at first or in its recovery, stops and touches nothing else. */
  lemma UnrecordedApply(s: State, f: Fate)
    requires s.p.Applying? && (s.p.at.Prepare? || s.p.at.Rerecord?) && !f.Works?
    ensures var s' := TickAny(s, f);
      && s'.p.Idle? && !s'.ok
      && s'.h == (if f.FailsBefore? then s.h else s.h.(txs := s.h.txs[s.p.id := s.p.tx]))
  {
  }

  /** A restore of a transaction that has no record fails and touches nothing. */
  lemma RestoreUnknown(s: State, i: Id)
    requires s.p.Idle? && i !in s.h.txs
    ensures var s' := Restoring(s, i); s'.p.Idle? && !s'.ok && s'.h == s.h
  {
    var s1 := Step(s, Begin(Restore(i)));
    assert Uninterrupted(s1) == TickAny(s1, Works);
  }

  // ---------- fresh rollbacks on any host ----------

  /** Each of the three is removed where it is its own. */
  function OwnRemoved(h: Host, c: Generation): Host {
    h.(live := if h.live.Table? && c in h.live.markers then Absent else h.live,
       selector := if h.selector == Some(c) then None else h.selector,
       owner := if h.owner == Ours(c) then None else h.owner)
  }

  predicate AllOwn(h: Host, c: Generation) {
    && (h.live.Absent? || c in h.live.markers)
    && (h.selector.None? || h.selector == Some(c))
    && (h.owner.None? || h.owner == Ours(c))
  }

  /** How a fresh rollback ends: the units as before the install, the record only without an error. */
  function FreshEnd(h: Host, i: Id, t: Tx, errs: bool): Host {
    h.(fwEnabled := t.fwWasEnabled, ddns := Unit(false, false),
       txs := if errs then h.txs else h.txs[i := MarkedRolledBack(t)])
  }

  ghost predicate Stands(s: State, step: RollAt, i: Id, t: Tx, errs: bool) {
    t.freshInstall && s.p == Rolling(step, i, t, errs, Restored)
  }

  lemma FromTimer(s: State, i: Id, t: Tx, errs: bool)
    requires Stands(s, Timer, i, t, errs) && s.h.fwEnabled == t.fwWasEnabled
    ensures Uninterrupted(s) == s.(h := FreshEnd(s.h, i, t, errs), p := Idle, ok := !errs)
  {
    var s1 := TickAny(s, Works);
    assert Uninterrupted(s) == Uninterrupted(s1);
    if !errs { assert Uninterrupted(s1) == TickAny(s1, Works); }
  }

  lemma FromUnits(s: State, i: Id, t: Tx, errs: bool)
    requires Stands(s, Enablement, i, t, errs)
    ensures Uninterrupted(s) == s.(h := FreshEnd(s.h, i, t, errs), p := Idle, ok := !errs)
  {
    var s1 := s.(h := s.h.(fwEnabled := t.fwWasEnabled), p := Rolling(Timer, i, t, errs, Restored));
    assert TickAny(s, Works) == s1;
    hide TickAny;
    assert Uninterrupted(s) == Uninterrupted(s1);
    FromTimer(s1, i, t, errs);
  }

  lemma FromOwner(s: State, i: Id, t: Tx, errs: bool)
    requires Stands(s, ReadOwner, i, t, errs)
    ensures var own := s.h.owner == Ours(t.generation); var errs' := errs || (s.h.owner.Some? && !own);
      Uninterrupted(s)
      == s.(h := FreshEnd(s.h.(owner := if own then None else s.h.owner), i, t, errs'), p := Idle, ok := !errs')
  {
    var s1 := TickAny(s, Works);
    var s2 := if s.h.owner == Ours(t.generation) then TickAny(s1, Works) else s1;
    assert Uninterrupted(s) == Uninterrupted(s1) == Uninterrupted(s2);
    FromUnits(s2, i, t, s2.p.errs);
  }

  lemma SelectorTicks(s: State, i: Id, t: Tx, errs: bool)
    requires Stands(s, ReadSelector, i, t, errs)
    ensures var own := s.h.selector == Some(t.generation);
      Uninterrupted(s) == Uninterrupted(s.(h := s.h.(selector := if own then None else s.h.selector),
          p := Rolling(ReadOwner, i, t, errs || (s.h.selector.Some? && !own), Restored)))
  {
    var s1 := TickAny(s, Works);
    var s2 := if s.h.selector.None? || s.h.selector == Some(t.generation) then TickAny(s1, Works) else s1;
    assert Uninterrupted(s) == Uninterrupted(s1) == Uninterrupted(s2);
  }

  lemma FromSelector(s: State, i: Id, t: Tx, errs: bool)
    requires Stands(s, ReadSelector, i, t, errs)
    ensures var c := t.generation; var h := OwnRemoved(s.h, c).(live := s.h.live);
      var errs' := errs || !AllOwn(s.h.(live := Absent), c);
      Uninterrupted(s) == s.(h := FreshEnd(h, i, t, errs'), p := Idle, ok := !errs')
  {
    hide TickAny, Uninterrupted;
    var own := s.h.selector == Some(t.generation);
    var errs2 := errs || (s.h.selector.Some? && !own);
    SelectorTicks(s, i, t, errs);
    FromOwner(s.(h := s.h.(selector := if own then None else s.h.selector),
                 p := Rolling(ReadOwner, i, t, errs2, Restored)), i, t, errs2);
  }

  lemma TableTicks(s: State, i: Id, t: Tx, errs: bool)
    requires Stands(s, ListTable, i, t, errs)
    ensures var own := s.h.live.Table? && t.generation in s.h.live.markers;
      Uninterrupted(s) == Uninterrupted(s.(h := s.h.(live := if own then Absent else s.h.live),
          p := Rolling(ReadSelector, i, t, errs || (s.h.live.Table? && !own), Restored)))
  {
    var s1 := TickAny(s, Works);
    var s2 := if s.h.live.Table? && t.generation in s.h.live.markers then TickAny(s1, Works) else s1;
    assert Uninterrupted(s) == Uninterrupted(s1) == Uninterrupted(s2);
  }

  lemma FromTable(s: State, i: Id, t: Tx, errs: bool)
    requires Stands(s, ListTable, i, t, errs)
    ensures var c := t.generation; var errs' := errs || !AllOwn(s.h, c);
      Uninterrupted(s) == s.(h := FreshEnd(OwnRemoved(s.h, c), i, t, errs'), p := Idle, ok := !errs')
  {
    hide TickAny, Uninterrupted;
    var own := s.h.live.Table? && t.generation in s.h.live.markers;
    var errs2 := errs || (s.h.live.Table? && !own);
    TableTicks(s, i, t, errs);
    FromSelector(s.(h := s.h.(live := if own then Absent else s.h.live),
                    p := Rolling(ReadSelector, i, t, errs2, Restored)), i, t, errs2);
  }

  /**
   On any host, its own or foreign, a fresh rollback that is let run removes exactly what is its own, restores
   the units, and marks its transaction rolled back if and only if nothing foreign was in its way.
   */
  lemma FreshRollbackExact(s: State, i: Id)
    requires s.p.Idle? && Pending(s.h.txs, i) && s.h.txs[i].freshInstall && Mutable(s.h.txs[i])
    ensures var s' := Restoring(s, i); var t := s.h.txs[i]; var c := t.generation;
      && s'.p.Idle? && (s'.ok <==> AllOwn(s.h, c))
      && s'.h == FreshEnd(OwnRemoved(s.h, c), i, t, !AllOwn(s.h, c))
  {
    var s1 := Step(s, Begin(Restore(i)));
    var s2 := TickAny(s1, Works);
    assert Uninterrupted(s1) == Uninterrupted(s2);
    assert Stands(s2, ListTable, i, s.h.txs[i], false);
    hide TickAny;
    FromTable(s2, i, s.h.txs[i], false);
  }

  /** The parts that a rollback standing at `step` has still to come to after it. */
  predicate SelectorAhead(step: RollAt) {
    step.ListTable? || step.DeleteTable?
  }

  predicate OwnerAhead(step: RollAt) {
    SelectorAhead(step) || step.ReadSelector? || step.RemoveSelector?
  }

  /**
   One that fails at any of its removals still removes what is its own of the parts after it and restores the
   units; its transaction stays pending.
   */
  lemma FreshGoesOn(s: State, i: Id, t: Tx, f: Fate)
    requires s.p.Rolling? && FreshStep(s.p.step) && Stands(s, s.p.step, i, t, s.p.errs) && !f.Works?
    ensures var s' := Uninterrupted(TickAny(s, f)); var c := t.generation;
      && s'.p.Idle? && !s'.ok && s'.h.txs == s.h.txs
      && s'.h.fwEnabled == t.fwWasEnabled && s'.h.ddns == Unit(false, false)
      && (SelectorAhead(s.p.step) ==> s'.h.selector == OwnRemoved(s.h, c).selector)
      && (OwnerAhead(s.p.step) ==> s'.h.owner == OwnRemoved(s.h, c).owner)
  {
    hide Uninterrupted, TickRoll, TickUpdate, TickUnits;
    FreshErrs(s, f);
    var s1 := TickFresh(s, f);
    assert TickAny(s, f) == s1 by { RollsFresh(s, f); }
    hide TickFresh, TickAny;
    match s1.p.step {
      case ReadSelector => FromSelector(s1, i, t, true);
      case ReadOwner => FromOwner(s1, i, t, true);
      case Enablement => FromUnits(s1, i, t, true);
    }
  }

  lemma RollsFresh(s: State, f: Fate)
    requires s.p.Rolling? && FreshStep(s.p.step)
    ensures TickAny(s, f) == TickFresh(s, f)
  {
  }

  lemma FreshErrs(s: State, f: Fate)
    requires s.p.Rolling? && FreshStep(s.p.step) && !f.Works?
    ensures var s' := TickFresh(s, f);
      && s' == s.(h := s'.h, p := s.p.(step := s'.p.step, errs := true)) && s'.h.txs == s.h.txs
      && (s'.p.step.ReadSelector? || s'.p.step.ReadOwner? || s'.p.step.Enablement?)
      && (SelectorAhead(s.p.step) ==> s'.p.step.ReadSelector? && s'.h.selector == s.h.selector)
      && (OwnerAhead(s.p.step) ==> !s'.p.step.Enablement? && s'.h.owner == s.h.owner)
  {
  }

  /** The units of an update's rollback: one that fails to restore the enablement still sets the DDNS timer. */
  lemma UnitsGoOn(s: State, i: Id, t: Tx, errs: bool, f: Fate)
    requires s.p == Rolling(Enablement, i, t, errs, Restored) && !f.Works? && !t.freshInstall
    ensures var s' := Uninterrupted(TickAny(s, f));
      && s'.p.Idle? && !s'.ok && s'.h.txs == s.h.txs && SameTriple(s.h, s'.h)
      && (var p := t.previous;
          if p.None? then s'.h.ddns == Unit(false, false)
          else if p.value in s.h.store && s.h.store[p.value].version == 1
          then var d := s.h.store[p.value].ddnsDesired; s'.h.ddns == Unit(d, d)
          else s'.h.ddns == s.h.ddns)
  {
    var s1 := TickAny(s, f);
    var s2 := TickAny(s1, Works);
    assert s1.p == Rolling(Intent, i, t, true, Restored);
    assert Uninterrupted(s1) == Uninterrupted(s2);
    if IntentReadable(s.h, t) { assert Uninterrupted(s2) == TickAny(s2, Works); }
  }

  /** An update rollback whose previous generation is not stored stops before it takes ownership back. */
  lemma MissingGenerationStops(s: State, i: Id, t: Tx)
    requires At(s, Reload, i, t) && t.previous.Some? && t.previous.value !in s.h.store
    ensures Uninterrupted(s) == End(s, s.h, false)
  {
    assert Uninterrupted(s) == TickAny(s, Works);
  }

  /** One that loses the restored table before its last look at the host does not end its transaction. */
  lemma LostTableStops(s: State, i: Id, t: Tx)
    requires At(s, Restage, i, t) && t.previous.Some? && t.previous != Some(t.generation)
    ensures var m := Step(s, TableDeleted);
      Uninterrupted(m) == End(m, s.h.(live := Absent), false)
  {
    var m := Step(s, TableDeleted);
    StageExact(m.h, t);
    assert Uninterrupted(m) == TickAny(m, Works);
  }
}
