/**
 The activation transaction protocol as a small-step machine.

 A `Host` is everything that survives between two steps of cnftctl: the durable files, the live
 table, and the systemd units. A `Proc` is the one cnftctl process that can hold the runtime lock,
 stopped just before its next interaction with the outside world. `Step` performs one event: the
 start of a command, one interaction whose `Fate` is chosen by the environment, the death of the
 process, a reboot, the loss of the live table, or the expiry of a rollback timer.
 */
module Protocol {
  import opened Common

  type Id = string

  datatype Owner = Owner(ours: bool, generation: Generation)

  /** The `inet hostfw` table, seen through the generation markers its listing contains. */
  datatype Live = Absent | Table(markers: seq<Generation>)

  datatype Unit = Unit(enabled: bool, active: bool)

  datatype Phase = Prepared | Armed | Activating | Activated | Confirmed | RolledBack

  datatype Tx = Tx(
    phase: Phase,
    generation: Generation,
    previous: Option<Generation>,
    freshInstall: bool,
    fwWasEnabled: bool,
    confirmed: bool,
    rolledBack: bool)

  datatype Host = Host(
    selector: Option<Generation>,
    owner: Option<Owner>,
    live: Live,
    store: map<Generation, Manifest>,
    txs: map<Id, Tx>,
    timers: set<Id>,
    fwEnabled: bool,
    ddns: Unit)

  /** How one interaction ends. A write can fail after its rename, with its effect in place. */
  datatype Fate = Works | FailsBefore | FailsAfter

  datatype Command =
    | Apply(id: Id, generation: Generation, manifest: Manifest)
    | Confirm(id: Id)
    | Restore(id: Id)
    | Reconcile(order: seq<Id>)

  /** Apply before its transaction exists. */
  datatype CheckAt =
    | ScanPending | ReadActive | CheckStored | CheckOwner | ListLive | ReadDdns | RepairTimer
    | CheckOwnership | Validate | WriteGeneration | ReadFirewall

  /** Apply with its transaction. */
  datatype ApplyAt =
    | Prepare | StartTimer | SeeTimer | Arm | MarkActivating | Select | Own | Load | MarkActivated
    | SetTimer | Enable | Rerecord

  datatype RollAt =
    | ReadTx
    | ListTable | DeleteTable | ReadSelector | RemoveSelector | ReadOwner | RemoveOwner
    | Stage | Reselect | Reload | Reown | Restage
    | Enablement | Intent | Timer | Finish

  datatype ConfirmAt = ReadRecord | Verify | WriteRecord

  /** What a finished rollback returns to. */
  datatype Then = Restored | Recovered | NextPending(rest: seq<Id>, failed: bool)

  datatype Proc =
    | Idle
    | Checking(check: CheckAt, id: Id, generation: Generation, manifest: Manifest, active: Option<Generation>,
        present: bool)
    | Applying(at: ApplyAt, id: Id, tx: Tx, desired: bool)
    | Rolling(step: RollAt, id: Id, tx: Tx, errs: bool, after: Then)
    | Confirming(stop: ConfirmAt, id: Id, tx: Tx)
    | Cancelling(id: Id, result: bool)
    | Scanning(order: seq<Id>)

  datatype Boot = Booting | Reconciled | Up

  /**
   `ok` is the result of the last finished command, and `unread` the records that a scan of the
   transactions would fail to read, and so skip. `last` (the generation of the most recently
   confirmed transaction), `armed` (the transactions whose timer was started and then seen active)
   and `blind` (whether some scan has missed an undecided transaction) are history: no step of a
   command reads them.
   */
  datatype State = State(
    h: Host,
    p: Proc,
    ok: bool,
    boot: Boot,
    last: Option<Generation>,
    armed: set<Id>,
    unread: set<Id>,
    blind: bool)

  datatype Event =
    | Begin(cmd: Command)
    | Tick(fate: Fate)
    | Kill
    | Reboot
    | TableDeleted
    | TimerElapses(timer: Id)
    | BootLoad(load: Fate)
    | Unreadable(ids: set<Id>)

  // ---------- reading the host ----------

  predicate Undecided(t: Tx) {
    !t.confirmed && !t.rolledBack
  }

  predicate Pending(txs: map<Id, Tx>, id: Id) {
    id in txs && Undecided(txs[id])
  }

  predicate NoPending(txs: map<Id, Tx>) {
    forall i :: i in txs ==> !Undecided(txs[i])
  }

  /** The phases from which selector, ownership and live table may already have moved. */
  predicate Mutable(t: Tx) {
    t.phase.Activating? || t.phase.Activated?
  }

  /** A scan that fails to read the records of `unread` takes the transaction for pending. */
  predicate Seen(txs: map<Id, Tx>, unread: set<Id>, id: Id) {
    Pending(txs, id) && id !in unread
  }

  predicate NoneSeen(txs: map<Id, Tx>, unread: set<Id>) {
    forall i :: i in txs ==> !Seen(txs, unread, i)
  }

  /** A scan misses some pending transaction. */
  predicate Misses(txs: map<Id, Tx>, unread: set<Id>) {
    exists i :: i in txs && Undecided(txs[i]) && i in unread
  }

  /** `order` lists exactly the pending transactions that a scan sees, each once. */
  predicate Lists(order: seq<Id>, txs: map<Id, Tx>, unread: set<Id>) {
    && (forall i :: i in txs && Seen(txs, unread, i) ==> i in order)
    && (forall k :: 0 <= k < |order| ==> Seen(txs, unread, order[k]))
    && (forall j, k :: 0 <= j < k < |order| ==> order[j] != order[k])
  }

  function Ours(g: Generation): Option<Owner> {
    Some(Owner(true, g))
  }

  /** checkOwnership: an existing table must be the one the selector and ownership record name. */
  predicate OwnershipAllows(h: Host, active: Option<Generation>) {
    || h.live.Absent?
    || (active.Some? && h.owner == Ours(active.value) && active.value in h.live.markers)
  }

  /** updateRollbackStage: how far an update rollback has already come, if that is recognisable. */
  function UpdateStage(h: Host, t: Tx): Option<nat> {
    if h.owner.None? || !h.owner.value.ours || t.previous.None? then None
    else
      var current, previous := t.generation, t.previous.value;
      var own := h.owner.value.generation;
      if h.live.Absent? then
        if h.selector == Some(current) && own == current then Some(0)
        else if h.selector == Some(previous) && (own == current || own == previous) then Some(1)
        else None
      else if |h.live.markers| != 1 then None
      else
        var live := h.live.markers[0];
        if h.selector == Some(current) && own == current && live == current then Some(0)
        else if h.selector == Some(previous) && own == current && live == current then Some(1)
        else if h.selector == Some(previous) && own == current && live == previous then Some(2)
        else if h.selector == Some(previous) && own == previous && live == previous then Some(3)
        else None
  }

  // ---------- changing the host ----------

  predicate Took(f: Fate) {
    !f.FailsBefore?
  }

  function WithTx(h: Host, id: Id, t: Tx, f: Fate): Host {
    if Took(f) then h.(txs := h.txs[id := t]) else h
  }

  function WithSelector(h: Host, sel: Option<Generation>, f: Fate): Host {
    if Took(f) then h.(selector := sel) else h
  }

  function WithOwner(h: Host, own: Option<Owner>, f: Fate): Host {
    if Took(f) then h.(owner := own) else h
  }

  /** Loading a stored generation file replaces the table by one carrying that marker. */
  function WithLoaded(h: Host, g: Option<Generation>, f: Fate): Host {
    if Took(f) && g.Some? && g.value in h.store then h.(live := Table([g.value])) else h
  }

  function WithDdns(h: Host, desired: bool, f: Fate): Host {
    if Took(f) then h.(ddns := Unit(desired, desired)) else h
  }

  function WithFirewall(h: Host, enabled: bool, f: Fate): Host {
    if Took(f) then h.(fwEnabled := enabled) else h
  }

  // ---------- commands ----------

  function End(s: State, h: Host, ok: bool): State {
    s.(h := h, p := Idle, ok := ok)
  }

  function NewTx(g: Generation, active: Option<Generation>, fwEnabled: bool): Tx {
    Tx(Prepared, g, active, active.None?, fwEnabled, false, false)
  }

  function Start(s: State, cmd: Command): State
    requires s.p.Idle?
  {
    var boot := if cmd.Reconcile? && s.boot.Booting? then Booting else Up;
    match cmd
    case Apply(id, g, m) =>
      if id in s.h.txs || m.version != 1 then s
      else s.(boot := boot, p := Checking(ScanPending, id, g, m, None, false))
    case Confirm(id) =>
      s.(boot := boot, p := Confirming(ReadRecord, id, NO_TX))
    case Restore(id) =>
      s.(boot := boot, p := Rolling(ReadTx, id, NO_TX, false, Restored))
    case Reconcile(order) =>
      s.(boot := boot, p := Scanning(order))
  }

  /** The record a process holds before it has read one. */
  const NO_TX := NewTx("", None, false)

  /** recoverApply: write the record as last intended, roll back, then cancel the timer. */
  function Recover(s: State, h: Host): (s': State)
    requires s.p.Applying?
    ensures s'.h == h && s' == s.(h := h, p := s'.p) && s'.p.Applying?
  {
    s.(h := h, p := s.p.(at := Rerecord))
  }

  /** Continue at `at` when the interaction worked, otherwise recover. */
  function Onward(s: State, h: Host, f: Fate, at: ApplyAt, phase: Phase): (s': State)
    requires s.p.Applying?
    ensures s'.h == h && s' == s.(h := h, p := s'.p) && s'.p.Applying?
  {
    if f.Works? then s.(h := h, p := s.p.(at := at, tx := s.p.tx.(phase := phase))) else Recover(s, h)
  }

  /** Continue at `check` when the check held, otherwise give up with nothing to undo. */
  function Checked(s: State, good: bool, check: CheckAt): State
    requires s.p.Checking?
  {
    if good then s.(p := s.p.(check := check)) else End(s, s.h, false)
  }

  function TickCheck(s: State, f: Fate): State
    requires s.p.Checking?
  {
    var p, h, c, desired := s.p, s.h, s.p.generation, s.p.manifest.ddnsDesired;
    match p.check
    case ScanPending =>
      var clear := f.Works? && NoneSeen(h.txs, s.unread);
      Checked(s, clear, ReadActive).(blind := s.blind || (clear && !NoPending(h.txs)))
    case ReadActive =>
      if !f.Works? then End(s, h, false)
      else if h.selector == Some(c) then s.(p := p.(check := CheckStored, active := h.selector))
      else s.(p := p.(check := CheckOwnership, active := h.selector))
    case CheckStored => Checked(s, f.Works? && c in h.store && h.store[c] == p.manifest, CheckOwner)
    case CheckOwner => Checked(s, f.Works? && h.owner == Ours(c), ListLive)
    case ListLive =>
      if !f.Works? || (h.live.Table? && h.live.markers != [c]) then End(s, h, false)
      else s.(p := p.(check := ReadDdns, present := h.live.Table?))
    case ReadDdns =>
      if !f.Works? then End(s, h, false)
      else if p.present && h.ddns == Unit(desired, desired) then End(s, h, true)
      else if p.present then s.(p := p.(check := RepairTimer))
      else s.(p := p.(check := CheckOwnership, active := None))
    case RepairTimer => End(s, WithDdns(h, desired, f), f.Works?)
    case CheckOwnership => Checked(s, f.Works? && OwnershipAllows(h, p.active), Validate)
    case Validate => Checked(s, f.Works?, WriteGeneration)
    case WriteGeneration =>
      if c in h.store then Checked(s, f.Works? && h.store[c] == p.manifest, ReadFirewall)
      else
        var h' := if Took(f) then h.(store := h.store[c := p.manifest]) else h;
        if f.Works? then s.(h := h', p := p.(check := ReadFirewall)) else End(s, h', false)
    case ReadFirewall =>
      if f.Works? then s.(p := Applying(Prepare, p.id, NewTx(c, p.active, h.fwEnabled), desired)) else End(s, h, false)
  }

  function TickApply(s: State, f: Fate): (s': State)
    requires s.p.Applying?
    ensures s.h.timers <= s'.h.timers && s'.h.store == s.h.store
    ensures s'.boot == s.boot && s'.last == s.last && s.armed <= s'.armed && s'.blind == s.blind
    ensures s'.p.Idle? || s'.p.Applying? || s'.p.Rolling?
  {
    var p, h, c := s.p, s.h, s.p.tx.generation;
    match p.at
    case Prepare =>
      var h' := WithTx(h, p.id, p.tx, f);
      if f.Works? then s.(h := h', p := p.(at := StartTimer)) else End(s, h', false)
    case StartTimer =>
      var h' := if Took(f) then h.(timers := h.timers + {p.id}) else h;
      Onward(s, h', f, SeeTimer, Prepared)
    case SeeTimer =>
      if f.Works? && p.id in h.timers
      then s.(p := p.(at := Arm, tx := p.tx.(phase := Armed)), armed := s.armed + {p.id})
      else Recover(s, h)
    case Arm => Onward(s, WithTx(h, p.id, p.tx, f), f, MarkActivating, Activating)
    case MarkActivating => Onward(s, WithTx(h, p.id, p.tx, f), f, Select, Activating)
    case Select => Onward(s, WithSelector(h, Some(c), f), f, Own, Activating)
    case Own => Onward(s, WithOwner(h, Ours(c), f), f, Load, Activating)
    case Load => Onward(s, WithLoaded(h, h.selector, f), f, MarkActivated, Activated)
    case MarkActivated => Onward(s, WithTx(h, p.id, p.tx, f), f, SetTimer, Activated)
    case SetTimer => Onward(s, WithDdns(h, p.desired, f), f, Enable, Activated)
    case Enable =>
      if f.Works? then End(s, WithFirewall(h, true, f), true) else Recover(s, WithFirewall(h, true, f))
    case Rerecord =>
      var h' := WithTx(h, p.id, p.tx, f);
      if f.Works? then s.(h := h', p := Rolling(ReadTx, p.id, NO_TX, false, Recovered)) else End(s, h', false)
  }

  /** A rollback of `s.p.id` has returned, with an error or without. */
  function Done(s: State, h: Host, ok: bool): (s': State)
    requires s.p.Rolling?
    ensures s'.h == h && s'.armed == s.armed && s'.last == s.last && s'.blind == s.blind
  {
    match s.p.after
    case Restored => End(s, h, ok)
    case Recovered => if ok then s.(h := h, p := Cancelling(s.p.id, false)) else End(s, h, false)
    case NextPending(rest, failed) =>
      if rest == [] then EndReconcile(s, h, ok && !failed)
      else s.(h := h, p := Rolling(ReadTx, rest[0], NO_TX, false, NextPending(rest[1..], failed || !ok)))
  }

  function EndReconcile(s: State, h: Host, ok: bool): State {
    End(s, h, ok).(boot := if ok && s.boot.Booting? then Reconciled else s.boot)
  }

  function Goto(s: State, h: Host, step: RollAt, bad: bool): State
    requires s.p.Rolling?
  {
    s.(h := h, p := s.p.(step := step, errs := s.p.errs || bad))
  }

  /** The DDNS timer state a rollback restores: the previous generation's recorded intent. */
  function Intended(h: Host, t: Tx): bool {
    !t.freshInstall && t.previous.Some? && t.previous.value in h.store && h.store[t.previous.value].ddnsDesired
  }

  predicate IntentReadable(h: Host, t: Tx) {
    t.previous.None? || (t.previous.value in h.store && h.store[t.previous.value].version == 1)
  }

  function FirstStep(t: Tx): RollAt {
    if t.freshInstall then if Mutable(t) then ListTable else Finish
    else if Mutable(t) then Stage else Enablement
  }

  function StageStep(stage: nat): RollAt {
    if stage == 0 then Reselect else if stage == 1 then Reload else if stage == 2 then Reown else Restage
  }

  /** Fresh-install rollback: remove table, selector and ownership, each only if it is ours. */
  function TickFresh(s: State, f: Fate): (s': State)
    requires s.p.Rolling?
    ensures s'.h.timers == s.h.timers && s'.h.store == s.h.store
    ensures s'.armed == s.armed && s'.last == s.last && s'.blind == s.blind
  {
    var h, c := s.h, s.p.tx.generation;
    match s.p.step
    case ListTable =>
      if f.Works? && h.live.Table? && c in h.live.markers then Goto(s, h, DeleteTable, false)
      else Goto(s, h, ReadSelector, !f.Works? || h.live.Table?)
    case DeleteTable =>
      Goto(s, if Took(f) then h.(live := Absent) else h, ReadSelector, !f.Works? || h.live.Absent?)
    case ReadSelector =>
      if f.Works? && (h.selector.None? || h.selector == Some(c)) then Goto(s, h, RemoveSelector, false)
      else Goto(s, h, ReadOwner, true)
    case RemoveSelector => Goto(s, WithSelector(h, None, f), ReadOwner, !f.Works?)
    case ReadOwner =>
      if f.Works? && h.owner == Ours(c) then Goto(s, h, RemoveOwner, false)
      else Goto(s, h, Enablement, !f.Works? || h.owner.Some?)
    case RemoveOwner => Goto(s, WithOwner(h, None, f), Enablement, !f.Works?)
    case _ => s
  }

  /** Update rollback: select, load and own the previous generation, from wherever it had come. */
  function TickUpdate(s: State, f: Fate): (s': State)
    requires s.p.Rolling?
    ensures s'.h.timers == s.h.timers && s'.h.store == s.h.store
    ensures s'.armed == s.armed && s'.last == s.last && s'.blind == s.blind
  {
    var h, t := s.h, s.p.tx;
    match s.p.step
    case Stage =>
      var stage := UpdateStage(h, t);
      if !f.Works? || stage.None? then Done(s, h, false) else Goto(s, h, StageStep(stage.value), false)
    case Reselect =>
      var h' := WithSelector(h, t.previous, f);
      if f.Works? then Goto(s, h', Reload, false) else Done(s, h', false)
    case Reload =>
      var h' := WithLoaded(h, t.previous, f);
      if f.Works? && t.previous.Some? && t.previous.value in h.store then Goto(s, h', Reown, false)
      else Done(s, h', false)
    case Reown =>
      if t.previous.None? then Done(s, h, false)
      else
        var h' := WithOwner(h, Ours(t.previous.value), f);
        if f.Works? then Goto(s, h', Restage, false) else Done(s, h', false)
    case Restage =>
      if f.Works? && UpdateStage(h, t) == Some(3) then Goto(s, h, Enablement, false) else Done(s, h, false)
    case _ => s
  }

  /** What both kinds of rollback end with. */
  function TickUnits(s: State, f: Fate): (s': State)
    requires s.p.Rolling?
    ensures s'.h.timers == s.h.timers && s'.h.store == s.h.store
    ensures s'.armed == s.armed && s'.last == s.last && s'.blind == s.blind
  {
    var p, h, t := s.p, s.h, s.p.tx;
    match p.step
    case Enablement =>
      Goto(s, WithFirewall(h, t.fwWasEnabled, f), if t.freshInstall then Timer else Intent, !f.Works?)
    case Intent =>
      if f.Works? && IntentReadable(h, t) then Goto(s, h, Timer, false) else Done(s, h, false)
    case Timer =>
      var h' := WithDdns(h, Intended(h, t), f);
      if p.errs || !f.Works? then Done(s, h', false) else Goto(s, h', Finish, false)
    case Finish =>
      Done(s, WithTx(h, p.id, t.(rolledBack := true, phase := RolledBack), f), f.Works?)
    case _ => s
  }

  predicate FreshStep(step: RollAt) {
    (step.ListTable? || step.DeleteTable? || step.ReadSelector? || step.RemoveSelector? || step.ReadOwner?
        || step.RemoveOwner?)
  }

  predicate UpdateStep(step: RollAt) {
    (step.Stage? || step.Reselect? || step.Reload? || step.Reown? || step.Restage?)
  }

  function TickRoll(s: State, f: Fate): (s': State)
    requires s.p.Rolling?
    ensures s'.h.timers == s.h.timers && s'.h.store == s.h.store
    ensures s'.armed == s.armed && s'.last == s.last && s'.blind == s.blind
  {
    var p, h := s.p, s.h;
    if p.step.ReadTx? then
      if !f.Works? || p.id !in h.txs then Done(s, h, false)
      else if !Undecided(h.txs[p.id]) then Done(s, h, true)
      else s.(p := p.(step := FirstStep(h.txs[p.id]), tx := h.txs[p.id], errs := false))
    else if FreshStep(p.step) then TickFresh(s, f)
    else if UpdateStep(p.step) then TickUpdate(s, f)
    else TickUnits(s, f)
  }

  function TickConfirm(s: State, f: Fate): State
    requires s.p.Confirming?
  {
    var p, h, c := s.p, s.h, s.p.tx.generation;
    match p.stop
    case ReadRecord =>
      if !f.Works? || p.id !in h.txs || h.txs[p.id].rolledBack then End(s, h, false)
      else if h.txs[p.id].confirmed then s.(p := Cancelling(p.id, true))
      else if !h.txs[p.id].phase.Activated? then End(s, h, false)
      else s.(p := p.(stop := Verify, tx := h.txs[p.id]))
    case Verify =>
      if f.Works? && h.selector == Some(c) && h.owner == Ours(c) && h.live.Table? && c in h.live.markers
      then s.(p := p.(stop := WriteRecord))
      else End(s, h, false)
    case WriteRecord =>
      var h' := WithTx(h, p.id, p.tx.(confirmed := true, phase := Confirmed), f);
      var s' := if Took(f) then s.(last := Some(c)) else s;
      if f.Works? then s'.(h := h', p := Cancelling(p.id, true)) else End(s', h', false)
  }

  function TickAny(s: State, f: Fate): State {
    match s.p
    case Idle => s
    case Checking(_, _, _, _, _, _) => TickCheck(s, f)
    case Applying(_, _, _, _) => TickApply(s, f)
    case Rolling(_, _, _, _, _) => TickRoll(s, f)
    case Confirming(_, _, _) => TickConfirm(s, f)
    case Cancelling(id, result) =>
      End(s, if Took(f) then s.h.(timers := s.h.timers - {id}) else s.h, result && f.Works?)
    case Scanning(order) =>
      if !f.Works? || !Lists(order, s.h.txs, s.unread) then End(s, s.h, false)
      else
        var s' := s.(blind := s.blind || Misses(s.h.txs, s.unread));
        if order == [] then EndReconcile(s', s.h, true)
        else s'.(p := Rolling(ReadTx, order[0], NO_TX, false, NextPending(order[1..], false)))
  }

  /** One event. A command that finds the lock held does nothing. */
  function Step(s: State, e: Event): State {
    match e
    case Begin(cmd) => if s.p.Idle? then Start(s, cmd) else s
    case Tick(f) => TickAny(s, f)
    case Kill => End(s, s.h, false)
    case Reboot =>
      End(s, s.h.(live := Absent, timers := {}, ddns := s.h.ddns.(active := s.h.ddns.enabled)), false).(boot := Booting)
    case TableDeleted => s.(h := s.h.(live := Absent))
    case TimerElapses(id) => s.(h := s.h.(timers := s.h.timers - {id}))
    case BootLoad(f) =>
      if s.boot.Reconciled? && s.p.Idle? then s.(h := WithLoaded(s.h, s.h.selector, f), boot := Up) else s
    case Unreadable(ids) => s.(unread := ids)
  }

  function Exec(s: State, es: seq<Event>): State {
    if es == [] then s else Step(Exec(s, es[..|es| - 1]), es[|es| - 1])
  }

  /** A host on which cnftctl has never run. */
  const FRESH_HOST := Host(None, None, Absent, map[], map[], {}, false, Unit(false, false))

  const INIT := State(FRESH_HOST, Idle, true, Up, None, {}, {}, false)

  // ---------- uninterrupted runs ----------

  /** Interactions a process has left, at most. */
  function Work(p: Proc): nat {
    match p
    case Idle => 0
    case Checking(check, _, _, _, _, _) => 40 + CheckWork(check)
    case Applying(at, _, _, _) => 20 + ApplyWork(at)
    case Rolling(step, _, _, _, after) => 2 + RollWork(step) + (if after.NextPending? then 20 * |after.rest| else 0)
    case Confirming(stop, _, _) => (match stop case ReadRecord => 5 case Verify => 4 case WriteRecord => 3)
    case Cancelling(_, _) => 1
    case Scanning(order) => 20 * |order| + 1
  }

  function CheckWork(check: CheckAt): nat {
    match check
    case ScanPending => 11 case ReadActive => 10 case CheckStored => 9 case CheckOwner => 8
    case ListLive => 7 case ReadDdns => 6 case RepairTimer => 5 case CheckOwnership => 4
    case Validate => 3 case WriteGeneration => 2 case ReadFirewall => 1
  }

  function ApplyWork(at: ApplyAt): nat {
    match at
    case Prepare => 12 case StartTimer => 11 case SeeTimer => 10 case Arm => 9
    case MarkActivating => 8 case Select => 7 case Own => 6 case Load => 5 case MarkActivated => 4
    case SetTimer => 3 case Enable => 2 case Rerecord => 1
  }

  function RollWork(step: RollAt): nat {
    match step
    case ReadTx => 17
    case ListTable => 16 case DeleteTable => 15 case ReadSelector => 14 case RemoveSelector => 13
    case ReadOwner => 12 case RemoveOwner => 11
    case Stage => 10 case Reselect => 9 case Reload => 8 case Reown => 7 case Restage => 6
    case Enablement => 5 case Intent => 4 case Timer => 3 case Finish => 2
  }

  lemma DoneWorksOff(s: State, h: Host, ok: bool)
    requires s.p.Rolling?
    ensures Work(Done(s, h, ok).p) <= (if s.p.after.NextPending? then 20 * |s.p.after.rest| else 1)
  {
  }

  lemma FreshWorksOff(s: State, f: Fate)
    requires s.p.Rolling? && FreshStep(s.p.step)
    ensures Work(TickFresh(s, f).p) < Work(s.p)
  {
  }

  lemma UpdateWorksOff(s: State, f: Fate)
    requires s.p.Rolling? && UpdateStep(s.p.step)
    ensures Work(TickUpdate(s, f).p) < Work(s.p)
  {
    DoneWorksOff(s, TickUpdate(s, f).h, false);
  }

  lemma UnitsWorksOff(s: State, f: Fate)
    requires s.p.Rolling? && !s.p.step.ReadTx? && !FreshStep(s.p.step) && !UpdateStep(s.p.step)
    ensures Work(TickUnits(s, f).p) < Work(s.p)
  {
    DoneWorksOff(s, TickUnits(s, f).h, false);
    DoneWorksOff(s, TickUnits(s, f).h, true);
  }

  lemma RollWorksOff(s: State, f: Fate)
    requires s.p.Rolling?
    ensures Work(TickRoll(s, f).p) < Work(s.p)
  {
    if s.p.step.ReadTx? {
      DoneWorksOff(s, s.h, false);
      DoneWorksOff(s, s.h, true);
    } else if FreshStep(s.p.step) {
      FreshWorksOff(s, f);
    } else if UpdateStep(s.p.step) {
      UpdateWorksOff(s, f);
    } else {
      UnitsWorksOff(s, f);
    }
  }

  lemma OnwardWorksOff(s: State, h: Host, f: Fate, at: ApplyAt, phase: Phase)
    requires s.p.Applying? && 1 < ApplyWork(s.p.at) && ApplyWork(at) < ApplyWork(s.p.at)
    ensures Work(Onward(s, h, f, at, phase).p) < Work(s.p)
  {
  }

  lemma ApplyWorksOff(s: State, f: Fate)
    requires s.p.Applying?
    ensures Work(TickApply(s, f).p) < Work(s.p)
  {
    var h' := TickApply(s, f).h;
    match s.p.at {
      case StartTimer => OnwardWorksOff(s, h', f, SeeTimer, Prepared);
      case Arm => OnwardWorksOff(s, h', f, MarkActivating, Activating);
      case MarkActivating => OnwardWorksOff(s, h', f, Select, Activating);
      case Select => OnwardWorksOff(s, h', f, Own, Activating);
      case Own => OnwardWorksOff(s, h', f, Load, Activating);
      case Load => OnwardWorksOff(s, h', f, MarkActivated, Activated);
      case MarkActivated => OnwardWorksOff(s, h', f, SetTimer, Activated);
      case SetTimer => OnwardWorksOff(s, h', f, Enable, Activated);
      case _ =>
    }
  }

  lemma CheckWorksOff(s: State, f: Fate)
    requires s.p.Checking?
    ensures Work(TickCheck(s, f).p) < Work(s.p)
  {
  }

  /** Whatever befalls an interaction, the process comes closer to its end. */
  lemma TickWorksOff(s: State, f: Fate)
    requires !s.p.Idle?
    ensures Work(TickAny(s, f).p) < Work(s.p)
  {
    match s.p {
      case Checking(_, _, _, _, _, _) => CheckWorksOff(s, f);
      case Applying(_, _, _, _) => ApplyWorksOff(s, f);
      case Rolling(_, _, _, _, _) => RollWorksOff(s, f);
      case _ =>
    }
  }

  /** The running command carried to its end with every interaction working. */
  function Uninterrupted(s: State): State
    decreases Work(s.p)
  {
    if s.p.Idle? then s else
      TickWorksOff(s, Works);
      Uninterrupted(TickAny(s, Works))
  }
}
