/**
 cnftctl's commands as the imperative code they are, working on the files, the table and the units
 of one host. Every interaction may fail before or after its effect; after every interaction the
 live table may be lost and rollback timers may elapse. Each command is proved to follow the
 protocol machine step by step: `trace` is a run of the machine and `s` the state it leads to, so
 every theorem about runs holds of these commands, stopped at any point.
 */
module Commands {
  import opened Common
  import opened Protocol
  import P = Protocol
  import opened ProtocolSafety
  import opened ProtocolRecords
  import Sorting

  /** What can happen to a host while a command runs to its end. */
  predicate Ordinary(e: Event) {
    e.Tick? || e.TableDeleted? || e.TimerElapses? || e.Unreadable?
  }

  ghost predicate Follows(before: seq<Event>, after: seq<Event>) {
    && |before| <= |after| && after[..|before|] == before
    && forall k :: |before| <= k < |after| ==> Ordinary(after[k])
  }

  /** What a finished rollback returns to does not depend on the step it was at. */
  lemma DoneAgrees(s1: State, s2: State, h1: Host, h2: Host, ok: bool)
    requires s1.p.Rolling? && s2.p.Rolling? && s1.p.after == s2.p.after && s1.p.id == s2.p.id
    requires s1 == s2.(h := s1.h, p := s1.p)
    ensures Done(s1, h1, ok).(h := h2) == Done(s2, h2, ok)
  {
  }

  /** The directory listing of the transactions: each record once. */
  ghost predicate Listing(names: seq<Id>, txs: map<Id, Tx>) {
    && (forall i :: i in txs ==> i in names)
    && (forall k :: 0 <= k < |names| ==> names[k] in txs)
    && (forall j, k :: 0 <= j < k < |names| ==> names[j] != names[k])
  }

  lemma ElapsedStep(s: State, id: Id)
    ensures Step(s, TimerElapses(id)) == s.(h := s.h.(timers := s.h.timers - {id}))
  {
  }

  function Earlier(started: Id -> int): (Id, Id) -> bool {
    (i: Id, j: Id) => started(i) < started(j)
  }

  lemma ListsSorted(order: seq<Id>, txs: map<Id, Tx>, unread: set<Id>, started: Id -> int)
    requires Lists(order, txs, unread)
    ensures var r := Sorting.Sort(order, Earlier(started));
      Lists(r, txs, unread) && Sorting.Ordered(r, Earlier(started)) && (r == [] <==> order == [])
  {
    var less := Earlier(started);
    Sorting.SortMembers(order, less);
    Sorting.SortDistinct(order, less);
    Sorting.SortOrdered(order, less);
    var r := Sorting.Sort(order, less);
    hide Sorting.Sort;
    forall k | 0 <= k < |r| ensures Seen(txs, unread, r[k]) {
      assert r[k] in order;
      var n :| 0 <= n < |order| && order[n] == r[k];
    }
  }

  /** One host; `started` tells when each transaction was started. */
  class Cnftctl {
    var selector: Option<Generation>
    var owner: Option<Owner>
    var live: Live
    var store: map<Generation, Manifest>
    var names: seq<Id>
    var txs: map<Id, Tx>
    var timers: set<Id>
    var fwEnabled: bool
    var ddns: Unit
    const started: Id -> int
    ghost var s: State
    ghost var trace: seq<Event>

    ghost function Snapshot(): Host
      reads this
    {
      Host(selector, owner, live, store, txs, timers, fwEnabled, ddns)
    }

    ghost predicate Valid()
      reads this
    {
      s.h == Snapshot() && s == Exec(INIT, trace) && Listing(names, txs)
    }

    constructor (started: Id -> int)
      ensures Valid() && s == INIT && this.started == started
    {
      this.started := started;
      selector, owner, live, store, names, txs := None, None, Absent, map[], [], map[];
      timers, fwEnabled, ddns := {}, false, Unit(false, false);
      s, trace := INIT, [];
    }

    /** A host on which some run of events, say a command killed on its way, has left no command running. */
    constructor After(h: Host, listing: seq<Id>, started: Id -> int, ghost es: seq<Event>)
      requires Exec(INIT, es).h == h && Exec(INIT, es).p.Idle? && Listing(listing, h.txs)
      ensures this.started == started
      ensures Valid() && s == Exec(INIT, es) && trace == es && Snapshot() == h
    {
      this.started := started;
      selector, owner, live, store, names, txs := h.selector, h.owner, h.live, h.store, listing, h.txs;
      timers, fwEnabled, ddns := h.timers, h.fwEnabled, h.ddns;
      s, trace := Exec(INIT, es), es;
    }

    // ---------- the passage of events ----------

    /** A reboot erases the live table and the started timers; an enabled unit is started again. */
    method Reboots()
      requires Valid()
      modifies this
      ensures Valid() && trace == old(trace) + [Reboot] && s == Step(old(s), Reboot)
    {
      hide Exec;
      live, timers, ddns := Absent, {}, Unit(ddns.enabled, ddns.enabled);
      Record(Reboot);
    }

    /** The firewall unit, once the boot reconcile has succeeded, loads the selected generation. */
    method LoadsAtBoot() returns (f: Fate)
      requires Valid() && s.p.Idle? && s.boot.Reconciled?
      modifies this
      ensures Valid() && trace == old(trace) + [BootLoad(f)] && s == Step(old(s), BootLoad(f))
    {
      hide Exec;
      f := LoadGeneration(selector);
      Record(BootLoad(f));
    }

    /** A rollback timer elapses; what it starts is the rollback command. */
    method Elapses(id: Id) returns (ok: bool)
      requires Valid() && s.p.Idle?
      modifies this
      ensures Valid() && s.p.Idle? && s.ok == ok
      ensures Follows(old(trace) + [TimerElapses(id), Begin(Command.Restore(id))], trace)
    {
      hide Exec, Step;
      timers := timers - {id};
      Record(TimerElapses(id)) by { ElapsedStep(s, id); }
      assert s.h == Snapshot() && s.p.Idle? by { ElapsedStep(old(s), id); }
      ok := Restore(id);
      assert old(trace) + [TimerElapses(id)] + [Begin(Command.Restore(id))]
          == old(trace) + [TimerElapses(id), Begin(Command.Restore(id))];
    }

    ghost method Record(e: Event)
      requires s == Exec(INIT, trace)
      modifies this`s, this`trace
      ensures s == Step(old(s), e) && s == Exec(INIT, trace) && trace == old(trace) + [e]
    {
      s := Step(s, e);
      trace := trace + [e];
      assert trace[..|trace| - 1] == old(trace);
    }

    /** A scan has failed to read these records. */
    ghost method Skips(skipped: set<Id>, from: seq<Event>)
      requires s == Exec(INIT, trace) && s.h == Snapshot() && Listing(names, txs) && Follows(from, trace)
      modifies this`s, this`trace
      ensures Valid() && Follows(from, trace) && s == old(s).(unread := skipped)
    {
      hide Exec;
      Record(Unreadable(skipped));
    }

    /** An interaction has ended with fate `f`; meanwhile the table may go and timers may elapse. */
    method Happened(f: Fate, ghost from: seq<Event>)
      requires s == Exec(INIT, trace) && Listing(names, txs) && TickAny(s, f).h == Snapshot()
      requires Follows(from, trace)
      modifies this`s, this`trace, this`live, this`timers
      ensures Valid() && Follows(from, trace)
      ensures s == TickAny(old(s), f).(h := s.h)
      ensures live == old(live) || live == Absent
    {
      hide Exec, TickAny;
      Record(Tick(f));
      var gone: bool, elapsed: bool, which: Id := *, *, *;
      if gone {
        live := Absent;
        Record(TableDeleted);
      }
      if elapsed {
        timers := timers - {which};
        Record(TimerElapses(which));
      }
    }

    // ---------- interactions ----------

    method Look() returns (f: Fate)
    {
      f := *;
    }

    method WriteTransaction(id: Id, t: Tx) returns (f: Fate)
      requires Listing(names, txs)
      modifies this`txs, this`names
      ensures Snapshot() == WithTx(old(Snapshot()), id, t, f) && Listing(names, txs)
    {
      f := *;
      if Took(f) {
        if id !in txs { names := names + [id]; }
        txs := txs[id := t];
      }
    }

    method SetActive(g: Option<Generation>) returns (f: Fate)
      modifies this`selector
      ensures Snapshot() == WithSelector(old(Snapshot()), g, f)
    {
      f := *;
      if Took(f) { selector := g; }
    }

    method SetOwner(own: Option<Owner>) returns (f: Fate)
      modifies this`owner
      ensures Snapshot() == WithOwner(old(Snapshot()), own, f)
    {
      f := *;
      if Took(f) { owner := own; }
    }

    method LoadGeneration(g: Option<Generation>) returns (f: Fate)
      modifies this`live
      ensures Snapshot() == WithLoaded(old(Snapshot()), g, f)
    {
      f := *;
      if Took(f) && g.Some? && g.value in store { live := Table([g.value]); }
    }

    method ReconcileDdnsTimer(desired: bool) returns (f: Fate)
      modifies this`ddns
      ensures Snapshot() == WithDdns(old(Snapshot()), desired, f)
    {
      f := *;
      if Took(f) { ddns := Unit(desired, desired); }
    }

    method SetFirewallEnabled(enabled: bool) returns (f: Fate)
      modifies this`fwEnabled
      ensures Snapshot() == WithFirewall(old(Snapshot()), enabled, f)
    {
      f := *;
      if Took(f) { fwEnabled := enabled; }
    }

    method DeleteTable() returns (f: Fate)
      modifies this`live
      ensures Snapshot() == old(Snapshot()).(live := if Took(f) then Absent else old(live))
    {
      f := *;
      if Took(f) { live := Absent; }
    }

    method StartRollbackTimer(id: Id) returns (f: Fate)
      modifies this`timers
      ensures Snapshot() == old(Snapshot()).(timers := if Took(f) then old(timers) + {id} else old(timers))
    {
      f := *;
      if Took(f) { timers := timers + {id}; }
    }

    method CancelRollback(id: Id) returns (f: Fate)
      modifies this`timers
      ensures Snapshot() == old(Snapshot()).(timers := if Took(f) then old(timers) - {id} else old(timers))
    {
      f := *;
      if Took(f) { timers := timers - {id}; }
    }

    method StoreGeneration(g: Generation, m: Manifest) returns (f: Fate)
      modifies this`store
      ensures Snapshot() == old(Snapshot()).(store := if Took(f) then old(store)[g := m] else old(store))
    {
      f := *;
      if Took(f) { store := store[g := m]; }
    }

    /**
     The undecided transactions of the directory listing. Each record is read on its own, and one that
     cannot be read is skipped. The earliest comes first.
     */
    method Pending() returns (out: seq<Id>, ghost skipped: set<Id>)
      requires Listing(names, txs)
      ensures Lists(out, txs, skipped) && Sorting.Ordered(out, Earlier(started))
      ensures out == [] <==> forall i :: P.Pending(txs, i) ==> i in skipped
    {
      out, skipped := [], {};
      for n := 0 to |names|
        invariant forall k :: 0 <= k < |out| ==> P.Pending(txs, out[k]) && out[k] !in skipped
        invariant forall k :: 0 <= k < n && Undecided(txs[names[k]]) ==> names[k] in out || names[k] in skipped
        invariant forall k :: 0 <= k < |out| ==> out[k] in names[..n]
        invariant forall i :: i in skipped ==> i in names[..n]
        invariant forall j, k :: 0 <= j < k < |out| ==> out[j] != out[k]
      {
        assert names[n] !in names[..n];
        var f := Look();
        if !f.Works? {
          skipped := skipped + {names[n]};
        } else if Undecided(txs[names[n]]) {
          out := out + [names[n]];
        }
      }
      ListsSorted(out, txs, skipped, started);
      out := Sorting.Sort(out, Earlier(started));
      assert out != [] ==> P.Pending(txs, out[0]) && out[0] !in skipped;
    }

    // ---------- rollback ----------

    /** Standing at `step` of rolling back `t`. */
    ghost predicate Stands(step: RollAt, id: Id, t: Tx, errs: bool)
      reads this
    {
      Valid() && s.p.Rolling? && s.p == Rolling(step, id, t, errs, s.p.after)
    }

    /** Removes table, selector and ownership, each only if it is the transaction's. */
    method FreshRollback(id: Id, t: Tx, ghost from: seq<Event>) returns (errs: bool)
      requires Stands(ListTable, id, t, false) && Follows(from, trace)
      modifies this
      ensures Valid() && Follows(from, trace)
      ensures s == old(s).(h := s.h, p := Rolling(Enablement, id, t, errs, old(s).p.after))
    {
      hide Exec, Step;
      var f := Look();
      var mine := f.Works? && live.Table? && t.generation in live.markers;
      errs := !mine && (!f.Works? || live.Table?);
      Happened(f, from);
      if mine {
        var missing := live.Absent?;
        f := DeleteTable();
        errs := errs || !f.Works? || missing;
        Happened(f, from);
      }
      errs := RemoveSelector(id, t, errs, from);
      errs := RemoveOwnership(id, t, errs, from);
    }

    method RemoveSelector(id: Id, t: Tx, errs0: bool, ghost from: seq<Event>) returns (errs: bool)
      requires Stands(ReadSelector, id, t, errs0) && Follows(from, trace)
      modifies this
      ensures Valid() && Follows(from, trace)
      ensures s == old(s).(h := s.h, p := Rolling(ReadOwner, id, t, errs, old(s).p.after))
    {
      hide Exec, Step;
      var f := Look();
      var mine := f.Works? && (selector.None? || selector == Some(t.generation));
      Happened(f, from);
      errs := errs0;
      if mine {
        f := SetActive(None);
        errs := errs || !f.Works?;
        Happened(f, from);
      } else {
        errs := true;
      }
    }

    method RemoveOwnership(id: Id, t: Tx, errs0: bool, ghost from: seq<Event>) returns (errs: bool)
      requires Stands(ReadOwner, id, t, errs0) && Follows(from, trace)
      modifies this
      ensures Valid() && Follows(from, trace)
      ensures s == old(s).(h := s.h, p := Rolling(Enablement, id, t, errs, old(s).p.after))
    {
      hide Exec, Step;
      var f := Look();
      var mine := f.Works? && owner == Ours(t.generation);
      errs := errs0 || (!mine && (!f.Works? || owner.Some?));
      Happened(f, from);
      if mine {
        f := SetOwner(None);
        errs := errs || !f.Works?;
        Happened(f, from);
      }
    }

    method StageNow(t: Tx) returns (stage: Option<nat>)
      ensures stage == UpdateStage(Snapshot(), t)
    {
      if owner.None? || !owner.value.ours || t.previous.None? { return None; }
      var current, previous, own := t.generation, t.previous.value, owner.value.generation;
      if live.Absent? {
        if selector == Some(current) && own == current { return Some(0); }
        if selector == Some(previous) && (own == current || own == previous) { return Some(1); }
        return None;
      }
      if |live.markers| != 1 { return None; }
      var states := [(current, current, current), (previous, current, current),
                     (previous, current, previous), (previous, previous, previous)];
      var actual := (selector, own, live.markers[0]);
      for k := 0 to 4
        invariant forall j :: 0 <= j < k ==> actual != (Some(states[j].0), states[j].1, states[j].2)
      {
        if actual == (Some(states[k].0), states[k].1, states[k].2) {
          assert k > 0 ==> actual != (Some(states[0].0), states[0].1, states[0].2);
          assert k > 1 ==> actual != (Some(states[1].0), states[1].1, states[1].2);
          assert k > 2 ==> actual != (Some(states[2].0), states[2].1, states[2].2);
          return Some(k);
        }
      }
      assert actual != (Some(states[0].0), states[0].1, states[0].2)
          && actual != (Some(states[1].0), states[1].1, states[1].2);
      assert actual != (Some(states[2].0), states[2].1, states[2].2)
          && actual != (Some(states[3].0), states[3].1, states[3].2);
      return None;
    }

    /** An interaction after which the rollback goes on if it was good and returns if not. */
    method Proceeds(f: Fate, good: bool, id: Id, t: Tx, step: RollAt, next: RollAt, ghost from: seq<Event>)
      requires s == Exec(INIT, trace) && Listing(names, txs) && TickAny(s, f).h == Snapshot()
      requires Follows(from, trace) && s.p.Rolling? && s.p == Rolling(step, id, t, s.p.errs, s.p.after)
      requires TickAny(s, f) == (if good then Goto(s, Snapshot(), next, false) else Done(s, Snapshot(), false))
      modifies this`s, this`trace, this`live, this`timers
      ensures Valid() && Follows(from, trace)
      ensures good ==> s == old(s).(h := s.h, p := Rolling(next, id, t, old(s).p.errs, old(s).p.after))
      ensures !good ==> s == Done(old(s), s.h, false)
    {
      hide Exec, Step, TickAny, Done;
      ghost var before, h := s, Snapshot();
      Happened(f, from);
      if !good { DoneAgrees(before, before, h, s.h, false); }
    }

    method Reselect(id: Id, t: Tx, ghost from: seq<Event>) returns (good: bool)
      requires Stands(RollAt.Reselect, id, t, false) && Follows(from, trace)
      modifies this
      ensures Valid() && Follows(from, trace)
      ensures good ==> s == old(s).(h := s.h, p := Rolling(RollAt.Reload, id, t, false, old(s).p.after))
      ensures !good ==> s == Done(old(s), s.h, false)
    {
      hide Exec, Step;
      var f := SetActive(t.previous);
      good := f.Works?;
      Proceeds(f, good, id, t, RollAt.Reselect, RollAt.Reload, from);
    }

    method Reload(id: Id, t: Tx, ghost from: seq<Event>) returns (good: bool)
      requires Stands(RollAt.Reload, id, t, false) && Follows(from, trace) && t.previous.Some?
      modifies this
      ensures Valid() && Follows(from, trace)
      ensures good ==> s == old(s).(h := s.h, p := Rolling(RollAt.Reown, id, t, false, old(s).p.after))
      ensures !good ==> s == Done(old(s), s.h, false)
    {
      hide Exec, Step;
      var f := LoadGeneration(t.previous);
      good := f.Works? && t.previous.value in store;
      Proceeds(f, good, id, t, RollAt.Reload, RollAt.Reown, from);
    }

    method Reown(id: Id, t: Tx, ghost from: seq<Event>) returns (good: bool)
      requires Stands(RollAt.Reown, id, t, false) && Follows(from, trace) && t.previous.Some?
      modifies this
      ensures Valid() && Follows(from, trace)
      ensures good ==> s == old(s).(h := s.h, p := Rolling(Restage, id, t, false, old(s).p.after))
      ensures !good ==> s == Done(old(s), s.h, false)
    {
      hide Exec, Step;
      var f := SetOwner(Ours(t.previous.value));
      good := f.Works?;
      Proceeds(f, good, id, t, RollAt.Reown, Restage, from);
    }

    /** From the recognised stage onward: select, load and own the previous generation. */
    method MoveBack(id: Id, t: Tx, stage: nat, ghost from: seq<Event>) returns (good: bool)
      requires Stands(StageStep(stage), id, t, false) && Follows(from, trace) && t.previous.Some?
      modifies this
      ensures Valid() && Follows(from, trace)
      ensures good ==> s == old(s).(h := s.h, p := Rolling(Restage, id, t, false, old(s).p.after))
      ensures !good ==> s == Done(old(s), s.h, false)
    {
      hide Exec, Step, TickAny, Done;
      ghost var before := s;
      good := true;
      if stage < 1 {
        good := Reselect(id, t, from);
        if !good { return; }
      }
      if stage < 2 {
        ghost var mid := s;
        good := Reload(id, t, from);
        if !good { DoneAgrees(mid, before, s.h, s.h, false); return; }
      }
      if stage < 3 {
        ghost var mid := s;
        good := Reown(id, t, from);
        if !good { DoneAgrees(mid, before, s.h, s.h, false); return; }
      }
    }

    method FindStage(id: Id, t: Tx, ghost from: seq<Event>) returns (stage: Option<nat>)
      requires Stands(Stage, id, t, false) && Follows(from, trace)
      modifies this
      ensures Valid() && Follows(from, trace)
      ensures stage.Some? ==> t.previous.Some?
      ensures stage.Some? ==> s == old(s).(h := s.h, p := Rolling(StageStep(stage.value), id, t, false, old(s).p.after))
      ensures stage.None? ==> s == Done(old(s), s.h, false)
    {
      hide Exec, Step;
      var f := Look();
      stage := StageNow(t);
      if !f.Works? { stage := None; }
      Proceeds(f, stage.Some?, id, t, Stage, if stage.Some? then StageStep(stage.value) else Stage, from);
    }

    method CheckRestored(id: Id, t: Tx, ghost from: seq<Event>) returns (good: bool)
      requires Stands(Restage, id, t, false) && Follows(from, trace)
      modifies this
      ensures Valid() && Follows(from, trace)
      ensures good ==> s == old(s).(h := s.h, p := Rolling(Enablement, id, t, false, old(s).p.after))
      ensures !good ==> s == Done(old(s), s.h, false)
    {
      hide Exec, Step;
      var f := Look();
      var stage := StageNow(t);
      good := f.Works? && stage == Some(3);
      Proceeds(f, good, id, t, Restage, Enablement, from);
    }

    /** Restores selector, live table and ownership, or returns at the first error. */
    method UpdateRollback(id: Id, t: Tx, ghost from: seq<Event>) returns (good: bool)
      requires Stands(Stage, id, t, false) && Follows(from, trace)
      modifies this
      ensures Valid() && Follows(from, trace)
      ensures good ==> s == old(s).(h := s.h, p := Rolling(Enablement, id, t, false, old(s).p.after))
      ensures !good ==> s == Done(old(s), s.h, false)
    {
      hide Exec, Step, TickAny, Done;
      ghost var before := s;
      var stage := FindStage(id, t, from);
      if stage.None? { return false; }
      ghost var mid := s;
      good := MoveBack(id, t, stage.value, from);
      if !good { DoneAgrees(mid, before, s.h, s.h, false); return; }
      mid := s;
      good := CheckRestored(id, t, from);
      if !good { DoneAgrees(mid, before, s.h, s.h, false); }
    }

    method RestoreEnablement(id: Id, t: Tx, errs0: bool, ghost from: seq<Event>) returns (errs: bool)
      requires Stands(Enablement, id, t, errs0) && Follows(from, trace)
      modifies this
      ensures Valid() && Follows(from, trace)
      ensures var next := if t.freshInstall then Timer else Intent;
        s == old(s).(h := s.h, p := Rolling(next, id, t, errs, old(s).p.after))
    {
      hide Exec, Step;
      var f := SetFirewallEnabled(t.fwWasEnabled);
      errs := errs0 || !f.Works?;
      Happened(f, from);
    }

    method ReadIntent(id: Id, t: Tx, errs: bool, ghost from: seq<Event>) returns (good: bool)
      requires Stands(Intent, id, t, errs) && Follows(from, trace)
      modifies this
      ensures Valid() && Follows(from, trace)
      ensures good ==> s == old(s).(h := s.h, p := Rolling(Timer, id, t, errs, old(s).p.after))
      ensures !good ==> s == Done(old(s), s.h, false)
    {
      hide Exec, Step;
      var f := Look();
      good := f.Works? && (t.previous.None? || (t.previous.value in store && store[t.previous.value].version == 1));
      Proceeds(f, good, id, t, Intent, Timer, from);
    }

    method RestoreTimer(id: Id, t: Tx, errs: bool, ghost from: seq<Event>) returns (good: bool)
      requires Stands(Timer, id, t, errs) && Follows(from, trace)
      modifies this
      ensures Valid() && Follows(from, trace)
      ensures good ==> !errs && s == old(s).(h := s.h, p := Rolling(Finish, id, t, false, old(s).p.after))
      ensures !good ==> s == Done(old(s), s.h, false)
    {
      hide Exec, Step;
      var desired := !t.freshInstall && t.previous.Some? && t.previous.value in store
          && store[t.previous.value].ddnsDesired;
      var f := ReconcileDdnsTimer(desired);
      good := f.Works? && !errs;
      Proceeds(f, good, id, t, Timer, Finish, from);
    }

    /** Restores the units and, if nothing went wrong, marks the transaction rolled back. */
    method RestoreUnits(id: Id, t: Tx, errs0: bool, ghost from: seq<Event>) returns (ok: bool)
      requires Stands(Enablement, id, t, errs0) && Follows(from, trace)
      modifies this
      ensures Valid() && Follows(from, trace) && s == Done(old(s), s.h, ok)
    {
      hide Exec, Step, TickAny, Done;
      ghost var before := s;
      var errs := RestoreEnablement(id, t, errs0, from);
      ghost var mid := s;
      if !t.freshInstall {
        ok := ReadIntent(id, t, errs, from);
        if !ok { DoneAgrees(mid, before, s.h, s.h, false); return; }
      }
      mid := s;
      ok := RestoreTimer(id, t, errs, from);
      if !ok { DoneAgrees(mid, before, s.h, s.h, false); return; }
      mid := s;
      ok := MarkRolledBack(id, t, from);
      DoneAgrees(mid, before, s.h, s.h, ok);
    }

    method MarkRolledBack(id: Id, t: Tx, ghost from: seq<Event>) returns (ok: bool)
      requires Stands(Finish, id, t, false) && Follows(from, trace)
      modifies this
      ensures Valid() && Follows(from, trace) && s == Done(old(s), s.h, ok)
    {
      hide Exec, Step;
      var f := WriteTransaction(id, t.(rolledBack := true, phase := RolledBack));
      ok := f.Works?;
      Happened(f, from);
    }

    /** rollbackWithManager */
    method Rollback(id: Id, ghost from: seq<Event>) returns (ok: bool)
      requires Stands(ReadTx, id, NO_TX, false) && Follows(from, trace)
      modifies this
      ensures Valid() && Follows(from, trace) && s == Done(old(s), s.h, ok)
    {
      hide Exec, Step, TickAny, Done;
      ghost var before := s;
      var t, stop;
      t, stop, ok := ReadPending(id, from);
      if stop { return; }
      ghost var mid := s;
      ok := RollbackOf(id, t, from);
      DoneAgrees(mid, before, s.h, s.h, ok);
    }

    /** Reads the record: nothing is left to do when it cannot be read, or is decided. */
    method ReadPending(id: Id, ghost from: seq<Event>) returns (t: Tx, stop: bool, ok: bool)
      requires Stands(ReadTx, id, NO_TX, false) && Follows(from, trace)
      modifies this
      ensures Valid() && Follows(from, trace)
      ensures stop ==> s == Done(old(s), s.h, ok)
      ensures !stop ==> Undecided(t) && s == old(s).(h := s.h, p := Rolling(FirstStep(t), id, t, false, old(s).p.after))
    {
      hide Exec, Step;
      var f := Look();
      var found := f.Works? && id in txs;
      t := if found then txs[id] else NO_TX;
      Happened(f, from);
      stop, ok := !found || !Undecided(t), found;
    }

    method RollbackOf(id: Id, t: Tx, ghost from: seq<Event>) returns (ok: bool)
      requires Stands(FirstStep(t), id, t, false) && Follows(from, trace)
      modifies this
      ensures Valid() && Follows(from, trace) && s == Done(old(s), s.h, ok)
    {
      hide Exec, Step, TickAny, Done;
      if t.freshInstall && !Mutable(t) {
        ok := MarkRolledBack(id, t, from);
        return;
      }
      ghost var before := s;
      var errs := false;
      if t.freshInstall {
        errs := FreshRollback(id, t, from);
      } else if Mutable(t) {
        var good := UpdateRollback(id, t, from);
        if !good { return false; }
      }
      ghost var mid := s;
      ok := RestoreUnits(id, t, errs, from);
      DoneAgrees(mid, before, s.h, s.h, ok);
    }

    // ---------- commands ----------

    /** The lock is taken and the command starts. */
    ghost method Starts(cmd: Command)
      requires Valid() && s.p.Idle?
      modifies this`s, this`trace
      ensures Valid() && s == Start(old(s), cmd) && trace == old(trace) + [Begin(cmd)]
    {
      Record(Begin(cmd));
    }

    /** Restore: the rollback command for one transaction. */
    method Restore(id: Id) returns (ok: bool)
      requires Valid() && s.p.Idle?
      modifies this
      ensures Valid() && s.p.Idle? && s.ok == ok && Follows(old(trace) + [Begin(Command.Restore(id))], trace)
    {
      hide Exec, Step, TickAny;
      Starts(Command.Restore(id));
      ok := Rollback(id, trace);
    }

    /** Reconcile: rolls back every pending transaction, and succeeds if every rollback did. */
    method Reconcile() returns (ok: bool, ghost order: seq<Id>)
      requires Valid() && s.p.Idle?
      modifies this
      ensures Valid() && s.p.Idle? && s.ok == ok && Follows(old(trace) + [Begin(Command.Reconcile(order))], trace)
    {
      hide Exec, Step;
      ghost var skipped;
      var pending;
      pending, skipped := Pending();
      order := pending;
      Starts(Command.Reconcile(order));
      ghost var from := trace;
      Skips(skipped, from);
      var f := Look();
      Happened(f, from);
      if !f.Works? { return false, order; }
      ok := true;
      if pending != [] {
        ok := RollbackAll(pending, from);
      }
    }

    method RollbackAll(pending: seq<Id>, ghost from: seq<Event>) returns (ok: bool)
      requires Valid() && Follows(from, trace) && pending != []
      requires s.p == Rolling(ReadTx, pending[0], NO_TX, false, NextPending(pending[1..], false))
      modifies this
      ensures Valid() && Follows(from, trace) && s.p.Idle? && s.ok == ok
    {
      hide Exec, Step, TickAny;
      ok := true;
      for n := 0 to |pending|
        invariant Valid() && Follows(from, trace)
        invariant n < |pending| ==> s.p == Rolling(ReadTx, pending[n], NO_TX, false, NextPending(pending[n + 1..], !ok))
        invariant n == |pending| ==> s.p.Idle? && s.ok == ok
      {
        var good := Rollback(pending[n], from);
        ok := ok && good;
      }
    }

    /** The selector, the ownership record and the live table all name the transaction's generation. */
    method VerifyActivated(t: Tx) returns (good: bool)
      ensures good == (selector == Some(t.generation) && owner == Ours(t.generation) && live.Table?
          && t.generation in live.markers)
    {
      good := selector == Some(t.generation);
      good := good && owner.Some? && owner.value.ours && owner.value.generation == t.generation;
      good := good && live.Table? && t.generation in live.markers;
    }

    method Confirm(id: Id) returns (ok: bool)
      requires Valid() && s.p.Idle?
      modifies this
      ensures Valid() && s.p.Idle? && s.ok == ok && Follows(old(trace) + [Begin(Command.Confirm(id))], trace)
    {
      hide Exec, Step;
      Starts(Command.Confirm(id));
      ghost var from := trace;
      var f := Look();
      var found := f.Works? && id in txs;
      var t := if found then txs[id] else NO_TX;
      Happened(f, from);
      if !found || t.rolledBack { return false; }
      if !t.confirmed {
        if !t.phase.Activated? { return false; }
        ok := ConfirmActivated(id, t, from);
        if !ok { return; }
      }
      ok := StopTimer(id, true, from);
    }

    method StopTimer(id: Id, result: bool, ghost from: seq<Event>) returns (ok: bool)
      requires Valid() && s.p == Cancelling(id, result) && Follows(from, trace)
      modifies this
      ensures Valid() && Follows(from, trace) && s == End(old(s), s.h, ok) && (ok ==> result)
    {
      hide Exec, Step;
      var f := CancelRollback(id);
      Happened(f, from);
      ok := result && f.Works?;
    }

    method ConfirmActivated(id: Id, t: Tx, ghost from: seq<Event>) returns (ok: bool)
      requires Valid() && s.p == Confirming(Verify, id, t) && Follows(from, trace)
      modifies this
      ensures Valid() && Follows(from, trace)
      ensures ok ==> s.p == Cancelling(id, true)
      ensures !ok ==> s.p.Idle? && !s.ok
    {
      hide Exec, Step;
      var f := Look();
      ok := VerifyActivated(t);
      ok := ok && f.Works?;
      Happened(f, from);
      if !ok { return; }
      f := WriteTransaction(id, t.(confirmed := true, phase := Confirmed));
      ok := f.Works?;
      Happened(f, from);
    }

    // ---------- apply ----------

    /** A check of an apply has ended: go on to `next`, or give up with nothing to undo. */
    method Checks(f: Fate, good: bool, ghost next: Proc, ghost from: seq<Event>)
      requires s == Exec(INIT, trace) && Listing(names, txs) && Follows(from, trace)
      requires TickAny(s, f) == if good then s.(h := Snapshot(), p := next) else End(s, Snapshot(), false)
      modifies this`s, this`trace, this`live, this`timers
      ensures Valid() && Follows(from, trace)
      ensures good ==> s == old(s).(h := s.h, p := next)
      ensures !good ==> s == End(old(s), s.h, false)
    {
      hide Exec, Step, TickAny;
      Happened(f, from);
    }

    /** The generation is already selected: `Stop` when nothing or only the DDNS timer was amiss. */
    method CheckSelected(id: Id, c: Generation, m: Manifest, ghost from: seq<Event>) returns (stop: bool, ok: bool)
      requires Valid() && Follows(from, trace)
      requires s.p == Checking(CheckStored, id, c, m, Some(c), false)
      modifies this
      ensures Valid() && Follows(from, trace)
      ensures stop ==> s == End(old(s), s.h, ok)
      ensures !stop ==> s == old(s).(h := s.h, p := Checking(CheckOwnership, id, c, m, None, false))
    {
      hide Exec, Step;
      stop := true;
      var f := Look();
      ok := f.Works? && c in store && store[c] == m;
      Checks(f, ok, s.p.(check := CheckOwner), from);
      if !ok { return; }
      f := Look();
      ok := f.Works? && owner == Ours(c);
      Checks(f, ok, s.p.(check := ListLive), from);
      if !ok { return; }
      f := Look();
      var present := live.Table?;
      ok := f.Works? && (!present || live.markers == [c]);
      Checks(f, ok, s.p.(check := ReadDdns, present := present), from);
      if !ok { return; }
      stop, ok := CheckDdns(id, c, m, present, from);
    }

    method CheckDdns(id: Id, c: Generation, m: Manifest, present: bool, ghost from: seq<Event>)
        returns (stop: bool, ok: bool)
      requires Valid() && Follows(from, trace)
      requires s.p == Checking(ReadDdns, id, c, m, Some(c), present)
      modifies this
      ensures Valid() && Follows(from, trace)
      ensures stop ==> s == End(old(s), s.h, ok)
      ensures !stop ==> s == old(s).(h := s.h, p := Checking(CheckOwnership, id, c, m, None, false))
    {
      hide Exec, Step;
      var f := Look();
      var matches := ddns == Unit(m.ddnsDesired, m.ddnsDesired);
      Happened(f, from);
      if !f.Works? { return true, false; }
      if present && matches { return true, true; }
      if present {
        f := ReconcileDdnsTimer(m.ddnsDesired);
        Happened(f, from);
        return true, f.Works?;
      }
      return false, false;
    }

    method CheckOwned(active: Option<Generation>) returns (good: bool)
      ensures good == OwnershipAllows(Snapshot(), active)
    {
      if live.Absent? { return true; }
      if owner.None? { return false; }
      good := owner.value.ours && active.Some? && owner.value.generation == active.value
          && active.value in live.markers;
    }

    method WriteGeneration(g: Generation, m: Manifest) returns (f: Fate, good: bool)
      modifies this`store
      ensures g in old(store) ==> Snapshot() == old(Snapshot()) && good == (f.Works? && store[g] == m)
      ensures g !in old(store) ==> good == f.Works?
      ensures g !in old(store) ==>
        Snapshot() == old(Snapshot()).(store := if Took(f) then old(store)[g := m] else old(store))
    {
      if g in store {
        f := Look();
        good := f.Works? && store[g] == m;
      } else {
        f := StoreGeneration(g, m);
        good := f.Works?;
      }
    }

    /** Ownership of any existing table, and validation of the candidate. */
    method CheckOwnedAndValid(id: Id, c: Generation, m: Manifest, active: Option<Generation>, ghost from: seq<Event>)
      returns (ok: bool)
      requires Valid() && Follows(from, trace)
      requires s.p == Checking(CheckOwnership, id, c, m, active, false)
      modifies this
      ensures Valid() && Follows(from, trace)
      ensures ok ==> s == old(s).(h := s.h, p := Checking(CheckAt.WriteGeneration, id, c, m, active, false))
      ensures !ok ==> s == End(old(s), s.h, false)
    {
      hide Exec, Step;
      var f := Look();
      ok := CheckOwned(active);
      ok := ok && f.Works?;
      Checks(f, ok, s.p.(check := Validate), from);
      if !ok { return; }
      f := Look();
      ok := f.Works?;
      Checks(f, ok, s.p.(check := CheckAt.WriteGeneration), from);
    }

    /** The candidate's storage, or the verification of what is already stored under its name. */
    method StoreCandidate(id: Id, c: Generation, m: Manifest, active: Option<Generation>, ghost from: seq<Event>)
      returns (ok: bool, t: Tx)
      requires Valid() && Follows(from, trace)
      requires s.p == Checking(CheckAt.WriteGeneration, id, c, m, active, false)
      modifies this
      ensures Valid() && Follows(from, trace)
      ensures ok ==> s == old(s).(h := s.h, p := Applying(Prepare, id, t, m.ddnsDesired)) && t.phase.Prepared?
      ensures !ok ==> s == End(old(s), s.h, false)
    {
      hide Exec, Step;
      t := NO_TX;
      var f;
      f, ok := WriteGeneration(c, m);
      Checks(f, ok, s.p.(check := ReadFirewall), from);
      if !ok { return; }
      f := Look();
      ok := f.Works?;
      t := NewTx(c, active, fwEnabled);
      Checks(f, ok, Applying(Prepare, id, t, m.ddnsDesired), from);
    }

    /** A write or command of an apply has ended: go on to `next`, or recover. */
    method Advances(f: Fate, ghost next: Proc, ghost from: seq<Event>)
      requires s == Exec(INIT, trace) && Listing(names, txs) && Follows(from, trace) && s.p.Applying?
      requires TickAny(s, f) == s.(h := Snapshot(), p := if f.Works? then next else s.p.(at := Rerecord))
      modifies this`s, this`trace, this`live, this`timers
      ensures Valid() && Follows(from, trace)
      ensures s == old(s).(h := s.h, p := if f.Works? then next else old(s).p.(at := Rerecord))
    {
      hide Exec, Step, TickAny;
      Happened(f, from);
    }

    /** Apply stands before its next interaction with its transaction `t`. */
    ghost predicate Applies(at: ApplyAt, id: Id, t: Tx, d: bool)
      reads this
    {
      Valid() && s.p == Applying(at, id, t, d)
    }

    method StartTimerOf(id: Id, t: Tx, d: bool, ghost from: seq<Event>) returns (good: bool)
      requires Applies(StartTimer, id, t, d) && Follows(from, trace) && t.phase.Prepared?
      modifies this
      ensures Applies(if good then SeeTimer else Rerecord, id, t, d) && Follows(from, trace)
    {
      hide Exec, Step;
      var f := StartRollbackTimer(id);
      good := f.Works?;
      Advances(f, Applying(SeeTimer, id, t, d), from);
    }

    method SeeTimerOf(id: Id, t: Tx, d: bool, ghost from: seq<Event>) returns (good: bool)
      requires Applies(SeeTimer, id, t, d) && Follows(from, trace)
      modifies this
      ensures Follows(from, trace)
      ensures if good then Applies(Arm, id, t.(phase := Armed), d) else Applies(Rerecord, id, t, d)
    {
      hide Exec, Step;
      var f := Look();
      good := f.Works? && id in timers;
      Happened(f, from);
    }

    /** Writes the record; the step after it intends phase `next`. */
    method RecordPhase(id: Id, t: Tx, d: bool, ghost at: ApplyAt, ghost to: ApplyAt, next: Phase,
        ghost from: seq<Event>)
      returns (good: bool)
      requires Applies(at, id, t, d) && Follows(from, trace)
      requires (at, to, next) in {(Arm, MarkActivating, Activating), (MarkActivating, Select, Activating),
          (MarkActivated, SetTimer, Activated)}
      modifies this
      ensures Follows(from, trace)
      ensures if good then Applies(to, id, t.(phase := next), d) else Applies(Rerecord, id, t, d)
    {
      hide Exec, Step;
      var f := WriteTransaction(id, t);
      good := f.Works?;
      Advances(f, Applying(to, id, t.(phase := next), d), from);
    }

    method SelectCandidate(id: Id, t: Tx, d: bool, ghost from: seq<Event>) returns (good: bool)
      requires Applies(Select, id, t, d) && Follows(from, trace) && t.phase.Activating?
      modifies this
      ensures Applies(if good then Own else Rerecord, id, t, d) && Follows(from, trace)
    {
      hide Exec, Step;
      var f := SetActive(Some(t.generation));
      good := f.Works?;
      Advances(f, Applying(Own, id, t, d), from);
    }

    method OwnCandidate(id: Id, t: Tx, d: bool, ghost from: seq<Event>) returns (good: bool)
      requires Applies(Own, id, t, d) && Follows(from, trace) && t.phase.Activating?
      modifies this
      ensures Applies(if good then ApplyAt.Load else Rerecord, id, t, d) && Follows(from, trace)
    {
      hide Exec, Step;
      var f := SetOwner(Ours(t.generation));
      good := f.Works?;
      Advances(f, Applying(ApplyAt.Load, id, t, d), from);
    }

    /** ActivateFirewall: restarting the unit loads whatever is selected. */
    method LoadSelected(id: Id, t: Tx, d: bool, ghost from: seq<Event>) returns (good: bool)
      requires Applies(ApplyAt.Load, id, t, d) && Follows(from, trace)
      modifies this
      ensures Follows(from, trace)
      ensures if good then Applies(MarkActivated, id, t.(phase := Activated), d) else Applies(Rerecord, id, t, d)
    {
      hide Exec, Step;
      var f := LoadGeneration(selector);
      good := f.Works?;
      Advances(f, Applying(MarkActivated, id, t.(phase := Activated), d), from);
    }

    /** The interactions of an apply in their order; `t` is the record as last intended. */
    method Activation(id: Id, t0: Tx, d: bool, ghost from: seq<Event>) returns (good: bool, t: Tx)
      requires Applies(StartTimer, id, t0, d) && Follows(from, trace) && t0.phase.Prepared?
      modifies this
      ensures Follows(from, trace) && Applies(if good then SetTimer else Rerecord, id, t, d)
      ensures good ==> t.phase.Activated?
    {
      hide Exec, Step, TickAny;
      t := t0;
      good := StartTimerOf(id, t, d, from);
      if !good { return; }
      good := SeeTimerOf(id, t, d, from);
      if !good { return; }
      t := t.(phase := Armed);
      good := RecordPhase(id, t, d, Arm, MarkActivating, Activating, from);
      if !good { return; }
      t := t.(phase := Activating);
      good := RecordPhase(id, t, d, MarkActivating, Select, Activating, from);
      if !good { return; }
      good := SelectCandidate(id, t, d, from);
      if !good { return; }
      good := OwnCandidate(id, t, d, from);
      if !good { return; }
      good := LoadSelected(id, t, d, from);
      if !good { return; }
      t := t.(phase := Activated);
      good := RecordPhase(id, t, d, MarkActivated, SetTimer, Activated, from);
    }

    method SwitchUnits(id: Id, t: Tx, d: bool, ghost from: seq<Event>) returns (good: bool)
      requires Applies(SetTimer, id, t, d) && Follows(from, trace) && t.phase.Activated?
      modifies this
      ensures Follows(from, trace)
      ensures if good then Valid() && s.p.Idle? && s.ok else Applies(Rerecord, id, t, d)
    {
      hide Exec, Step;
      var f := ReconcileDdnsTimer(d);
      Advances(f, Applying(Enable, id, t, d), from);
      if !f.Works? { return false; }
      f := SetFirewallEnabled(true);
      Happened(f, from);
      good := f.Works?;
    }

    /** recoverApply: record, roll back, and stop the timer once the rollback is durable. */
    method RecoverApply(id: Id, t: Tx, d: bool, ghost from: seq<Event>)
      requires Applies(Rerecord, id, t, d) && Follows(from, trace)
      modifies this
      ensures Valid() && Follows(from, trace) && s.p.Idle? && !s.ok
    {
      hide Exec, Step;
      var f := WriteTransaction(id, t);
      Happened(f, from);
      if f.Works? {
        var ok := Rollback(id, from);
        if ok {
          ok := StopTimer(id, false, from);
        }
      }
    }

    method Apply(id: Id, c: Generation, m: Manifest) returns (ok: bool)
      requires Valid() && s.p.Idle? && id !in txs && m.version == 1
      modifies this
      ensures Valid() && s.p.Idle? && s.ok == ok && Follows(old(trace) + [Begin(Command.Apply(id, c, m))], trace)
    {
      hide Exec, Step;
      Starts(Command.Apply(id, c, m));
      ghost var from := trace;
      var stop, t := true, NO_TX;
      stop, ok, t := CheckApply(id, c, m, from);
      if !stop {
        ok := Activate(id, t, m.ddnsDesired, from);
      }
    }

    /** Everything an apply does before its transaction exists. */
    method CheckApply(id: Id, c: Generation, m: Manifest, ghost from: seq<Event>) returns (stop: bool, ok: bool, t: Tx)
      requires Valid() && Follows(from, trace) && s.p == Checking(ScanPending, id, c, m, None, false)
      modifies this
      ensures Valid() && Follows(from, trace)
      ensures stop ==> s.p.Idle? && s.ok == ok
      ensures !stop ==> t.phase.Prepared?
      ensures !stop ==> s == old(s).(h := s.h, p := Applying(Prepare, id, t, m.ddnsDesired), unread := s.unread,
          blind := s.blind)
    {
      hide Exec, Step;
      t := NO_TX;
      var f := Look();
      ghost var skipped;
      var pending;
      pending, skipped := Pending();
      Skips(skipped, from);
      ok := f.Works? && pending == [];
      assert pending != [] ==> Seen(txs, skipped, pending[0]);
      Happened(f, from);
      if !ok { return true, false, t; }
      f := Look();
      var active := selector;
      Checks(f, f.Works?, s.p.(check := if active == Some(c) then CheckStored else CheckOwnership,
          active := active), from);
      if !f.Works? { return true, false, t; }
      if active == Some(c) {
        stop, ok := CheckSelected(id, c, m, from);
        if stop { return; }
        active := None;
      }
      ok := CheckOwnedAndValid(id, c, m, active, from);
      if ok {
        ok, t := StoreCandidate(id, c, m, active, from);
      }
      stop := !ok;
    }

    /** Everything an apply does with its transaction, including its recovery. */
    method Activate(id: Id, t0: Tx, d: bool, ghost from: seq<Event>) returns (ok: bool)
      requires Valid() && Follows(from, trace) && s.p == Applying(Prepare, id, t0, d) && t0.phase.Prepared?
      modifies this
      ensures Valid() && Follows(from, trace) && s.p.Idle? && s.ok == ok
    {
      hide Exec, Step, TickRoll;
      var f := WriteTransaction(id, t0);
      Happened(f, from);
      if !f.Works? { return false; }
      var t;
      ok, t := Activation(id, t0, d, from);
      if ok {
        ok := SwitchUnits(id, t, d, from);
      }
      if !ok {
        RecoverApply(id, t, d, from);
      }
    }
  }

  /**
   The commands inherit what holds of every run of the machine, wherever they are stopped: of every
   run what the records keep, and of every run whose scans missed nothing the whole invariant.
   */
  lemma CommandsAreSafe(a: Cnftctl, k: nat)
    requires a.Valid() && k <= |a.trace|
    ensures Sound(Exec(INIT, a.trace[..k]))
    ensures !a.s.blind ==> Inv(Exec(INIT, a.trace[..k]))
    ensures !a.s.blind && NoPending(a.txs) ==> Rest(a.Snapshot(), a.s.last)
  {
    InitSound();
    RunKeepsSound(INIT, a.trace[..k]);
    if !a.s.blind {
      InitKept();
      SightedBefore(INIT, a.trace, k);
      RunKeepsInv(INIT, a.trace[..k]);
      RunKeepsInv(INIT, a.trace);
    }
  }

  /** A command killed after any part of its trace leaves a host on which the next one can start. */
  lemma KilledAnywhere(a: Cnftctl, k: nat)
    requires a.Valid() && k <= |a.trace|
    ensures var es := a.trace[..k] + [Kill]; var s := Exec(INIT, es);
      s.p.Idle? && s.h == Exec(INIT, a.trace[..k]).h
  {
    var es := a.trace[..k] + [Kill];
    assert es[..|es| - 1] == a.trace[..k];
  }
}
