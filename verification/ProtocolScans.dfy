/**
 Scans of the transactions skip a record that cannot be read. What a scan then misses, exactly, and
 the runs in which that breaks what holds otherwise: two pending transactions, an unconfirmed
 generation selected at rest, and one loaded at boot.
 */
module ProtocolScans {
  import opened Common
  import opened Protocol
  import opened ProtocolSafety
  import opened ProtocolRecords
  import opened ProtocolRuns
  import opened ProtocolRecovery
  import opened ProtocolProgress

  /** An apply's scan lets it go on exactly when every pending record was unreadable, if there is any. */
  lemma ScanClearsExactly(s: State, f: Fate)
    requires s.p.Checking? && s.p.check.ScanPending?
    ensures Step(s, Tick(f)).p.Checking? <==> f.Works? && forall i :: Pending(s.h.txs, i) ==> i in s.unread
    ensures Step(s, Tick(f)).p.Idle? <==> !Step(s, Tick(f)).p.Checking?
  {
    if NoneSeen(s.h.txs, s.unread) {
      forall i | Pending(s.h.txs, i) ensures i in s.unread {
        assert !Seen(s.h.txs, s.unread, i);
      }
    }
  }

  /** A reconcile that sees nothing succeeds exactly when every pending record was unreadable. */
  lemma ReconcileClearsExactly(s: State, f: Fate)
    requires s.p.Scanning? && s.p.order == []
    ensures var s' := Step(s, Tick(f));
      s'.p.Idle? && (s'.ok <==> f.Works? && forall i :: Pending(s.h.txs, i) ==> i in s.unread)
  {
    if Lists([], s.h.txs, s.unread) {
      forall i | Pending(s.h.txs, i) ensures i in s.unread {
        assert !Seen(s.h.txs, s.unread, i);
      }
    }
  }

  /** What makes a run blind: a scan that works, misses a pending record, and is acted upon. */
  lemma BlindExactly(s: State, e: Event)
    requires !s.blind
    ensures Step(s, e).blind <==>
      && e.Tick? && e.fate.Works?
      && (|| (s.p.Checking? && s.p.check.ScanPending? && !NoPending(s.h.txs) && NoneSeen(s.h.txs, s.unread))
          || (s.p.Scanning? && Lists(s.p.order, s.h.txs, s.unread) && Misses(s.h.txs, s.unread)))
  {
    if e.Tick? {
      if s.p.Checking? {
        CheckKeepsSight(s, e.fate);
      } else if !s.p.Scanning? {
        TickSees(s, e.fate);
      }
    }
    hide TickCheck, TickApply, TickRoll, TickConfirm;
  }

  lemma CheckKeepsSight(s: State, f: Fate)
    requires s.p.Checking? && !s.blind
    ensures TickCheck(s, f).blind <==>
      f.Works? && s.p.check.ScanPending? && !NoPending(s.h.txs) && NoneSeen(s.h.txs, s.unread)
  {
  }

  // ---------- the runs ----------

  lemma {:induction false} ReachableUninterrupted(s: State)
    requires Reachable(s)
    ensures Reachable(Uninterrupted(s))
    decreases Work(s.p)
  {
    hide Reachable, Step;
    if !s.p.Idle? {
      TickWorksOff(s, Works);
      ReachableTick(s);
      ReachableUninterrupted(TickAny(s, Works));
    }
  }

  lemma ReachableTick(s: State)
    requires Reachable(s)
    ensures Reachable(TickAny(s, Works))
  {
    ReachableStep(s, Tick(Works));
    hide Reachable;
  }

  lemma ReachableCommand(s: State, cmd: Command)
    requires Reachable(s)
    ensures Reachable(Uninterrupted(Step(s, Begin(cmd))))
  {
    hide Reachable;
    ReachableStep(s, Begin(cmd));
    ReachableUninterrupted(Step(s, Begin(cmd)));
  }

  /** The host after an apply of `c`, and after another of `g` whose scan could not read the first's record. */
  function TwiceApplied(s: State, i: Id, c: Generation, mc: Manifest, j: Id, g: Generation, mg: Manifest): State {
    ApplyingOf(Step(ApplyingOf(s, i, c, mc), Unreadable({i})), j, g, mg)
  }

  ghost predicate CanApplyTwice(s: State, i: Id, c: Generation, mc: Manifest, j: Id, g: Generation, mg: Manifest) {
    && CanApply(s, i, c, mc) && j !in s.h.txs && j != i && g != c && mg.version == 1
    && (g in s.h.store ==> s.h.store[g] == mg)
  }

  /** From every quiescent host: two transactions are pending. */
  lemma TwoPending(s: State, i: Id, c: Generation, mc: Manifest, j: Id, g: Generation, mg: Manifest)
    requires Inv(s) && CanApplyTwice(s, i, c, mc, j, g, mg)
    ensures var s' := TwiceApplied(s, i, c, mc, j, g, mg); var h1 := AppliedHost(s.h, i, c, mc);
      && s'.p.Idle? && s'.ok && s'.blind && s'.h == AppliedHost(h1, j, g, mg) && s'.last == s.last
      && Pending(s'.h.txs, i) && Pending(s'.h.txs, j) && i != j
  {
    QuiescentApply(s, i, c, mc);
    var s1 := ApplyingOf(s, i, c, mc);
    var s2 := Step(s1, Unreadable({i}));
    assert s2 == s1.(unread := {i});
    assert Pending(s1.h.txs, i);
    ApplyCompletes(s2, j, g, mg);
  }

  /**
   Nothing pending, and a generation selected, owned and live that was never confirmed: `p` is
   confirmed; `c` is applied over it; `p` is applied again, its scan skipping the first record; both
   timers elapse and roll back in turn.
   */
  lemma UnconfirmedAtRest(i0: Id, p: Generation, mp: Manifest, i: Id, c: Generation, mc: Manifest, j: Id)
    requires mp.version == 1 && mc.version == 1 && p != c && i0 != i && i0 != j && i != j
    ensures
      var s := ConfirmingOf(ApplyingOf(INIT, i0, p, mp), i0);
      var s' := Restoring(Restoring(TwiceApplied(s, i, c, mc, j, p, mp), i), j);
      && Reachable(s') && s'.p.Idle? && s'.ok && NoPending(s'.h.txs)
      && Triple(s'.h, c, c, Table([c])) && s'.last == Some(p) && s'.last != s'.h.selector
  {
    hide Reachable, Sound, Inv, Uninterrupted, Step;
    var s := ConfirmingOf(ApplyingOf(INIT, i0, p, mp), i0);
    ConfirmedHost(i0, p, mp);
    TwoPending(s, i, c, mc, j, p, mp);
    var s3 := TwiceApplied(s, i, c, mc, j, p, mp);
    TwiceReachable(s, i, c, mc, j, p, mp);
    ReachableSound(s3);
    FirstRollback(s, s3, i, c, mc, j, p, mp);
    var s4 := Restoring(s3, i);
    ReachableCommand(s3, Restore(i));
    SecondRollback(s, s4, i, c, mc, j, p, mp);
    ReachableCommand(s4, Restore(j));
  }

  lemma ConfirmedHost(i0: Id, p: Generation, mp: Manifest)
    requires mp.version == 1
    ensures
      var s := ConfirmingOf(ApplyingOf(INIT, i0, p, mp), i0);
      && Inv(s) && Reachable(s) && s.p.Idle? && NoPending(s.h.txs) && s.last == Some(p)
      && Triple(s.h, p, p, Table([p])) && s.h.store == map[p := mp] && s.h.txs.Keys == {i0}
  {
    QuiescentHostExists(i0, p, mp);
    InitKept();
    ConfirmCommitsApply(INIT, i0, p, mp);
    assert Exec(INIT, []) == INIT;
    ReachableCommand(INIT, Apply(i0, p, mp));
    ReachableCommand(ApplyingOf(INIT, i0, p, mp), Confirm(i0));
    hide Exec, Uninterrupted, Reachable, Step;
    assert INIT.h.store == map[] && INIT.h.txs == map[];
  }

  lemma TwiceReachable(s: State, i: Id, c: Generation, mc: Manifest, j: Id, g: Generation, mg: Manifest)
    requires Reachable(s)
    ensures Reachable(TwiceApplied(s, i, c, mc, j, g, mg))
  {
    hide Reachable, Uninterrupted;
    ReachableCommand(s, Apply(i, c, mc));
    var s1 := ApplyingOf(s, i, c, mc);
    ReachableStep(s1, Unreadable({i}));
    ReachableCommand(Step(s1, Unreadable({i})), Apply(j, g, mg));
  }

  lemma FirstRollback(s: State, s3: State, i: Id, c: Generation, mc: Manifest, j: Id, p: Generation, mp: Manifest)
    requires Sound(s3) && s3.p.Idle? && s3.h == AppliedHost(AppliedHost(s.h, i, c, mc), j, p, mp) && s3.last == s.last
    requires s.h.selector == Some(p) && i != j && p != c
    ensures var s4 := Restoring(s3, i);
      && s4.p.Idle? && s4.ok && s4.last == s.last
      && s4.h == PreviousRestored(s3.h, i, s3.h.txs[i]) && s4.h.txs == s3.h.txs[i := MarkedRolledBack(s3.h.txs[i])]
      && Triple(s4.h, p, p, Table([p]))
  {
    assert s3.h.txs[i] == Applied(s.h, c);
    UpdateRollbackCompletes(s3, i);
    RestoringKeepsLast(s3, i);
  }

  lemma SecondRollback(s: State, s4: State, i: Id, c: Generation, mc: Manifest, j: Id, p: Generation, mp: Manifest)
    requires Reachable(s4) && s4.p.Idle? && s4.last == s.last && NoPending(s.h.txs) && j !in s.h.txs && i !in s.h.txs
    requires var h1 := AppliedHost(s.h, i, c, mc); var txs := AppliedHost(h1, j, p, mp).txs;
      s4.h.txs == txs[i := MarkedRolledBack(txs[i])]
    requires Triple(s4.h, p, p, Table([p])) && i != j && p != c
    ensures var s5 := Restoring(s4, j);
      s5.p.Idle? && s5.ok && s5.last == s.last && NoPending(s5.h.txs) && Triple(s5.h, c, c, Table([c]))
  {
    ReachableSound(s4);
    hide Reachable, Sound;
    assert s4.h.txs[j] == Applied(AppliedHost(s.h, i, c, mc), p);
    UpdateRollbackCompletes(s4, j);
    RestoringKeepsLast(s4, j);
  }

  /** Reboot, a reconcile that cannot read the pending record, and the load it lets through. */
  const BOOT: seq<Event> := [Reboot, Begin(Reconcile([])), Tick(Works), BootLoad(Works)]

  /** The boot-time load puts an unconfirmed generation into effect, its transaction still pending. */
  lemma UnconfirmedAtBoot(s: State, i: Id, c: Generation, mc: Manifest)
    requires Inv(s) && CanApply(s, i, c, mc)
    ensures var s' := Exec(Step(ApplyingOf(s, i, c, mc), Unreadable({i})), BOOT);
      && Pending(s'.h.txs, i) && s'.h.live == Table([c]) && s'.last == s.last && s'.ok && s'.blind
  {
    QuiescentApply(s, i, c, mc);
    var s2 := Step(ApplyingOf(s, i, c, mc), Unreadable({i}));
    FourEvents(s2, BOOT);
    var s3 := Step(Step(s2, Reboot), Begin(Reconcile([])));
    OnlyPending(s, i, c, mc);
    assert Lists([], s3.h.txs, s3.unread);
  }

  lemma OnlyPending(s: State, i: Id, c: Generation, mc: Manifest)
    requires NoPending(s.h.txs)
    ensures var txs := AppliedHost(s.h, i, c, mc).txs;
      Pending(txs, i) && (forall j :: j in txs ==> !Seen(txs, {i}, j)) && Misses(txs, {i})
  {
  }

  lemma FourEvents(s: State, es: seq<Event>)
    requires |es| == 4
    ensures Exec(s, es) == Step(Step(Step(Step(s, es[0]), es[1]), es[2]), es[3])
  {
    hide Step;
    assert es[..3][..2] == es[..2] && es[..2][..1] == es[..1] && es[..1][..0] == [];
    assert Exec(s, []) == s;
    assert Exec(s, es[..1]) == Step(s, es[0]);
    assert Exec(s, es[..2]) == Step(Step(s, es[0]), es[1]);
    assert Exec(s, es[..3]) == Step(Step(Step(s, es[0]), es[1]), es[2]);
  }
}
