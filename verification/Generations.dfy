/**
 The generation store over histories: what is held under a name is the directory written for files
 with that name, verifies, and never changes; and every generation that the protocol names in a
 reachable state is such a directory.
 */
module Generations {
  import opened Common
  import opened Identity
  import opened Protocol
  import opened ProtocolSafety
  import opened ProtocolRecords
  import opened ProtocolRuns
  import ProtocolProgress

  // ---------- candidates ----------

  /** What storing finalized files comes to: their name, their manifest and their directory. */
  datatype Made = Made(generation: Generation, manifest: Manifest, directory: Directory)

  ghost function Make(c: Coding, files: seq<File>, ddns: bool): Option<Made> {
    match Finalize(c, files, ddns)
    case None => None
    case Some(final) =>
      match Build(c, final.1)
      case None => None
      case Some(b) =>
        var m := b.manifest.(ddnsDesired := ddns);
        Some(Made(final.0, m, Written(m, b.files)))
  }

  /** Files that finalize also build, and their directory verifies. */
  lemma MadeVerifies(c: Coding, files: seq<File>, ddns: bool)
    requires Finalize(c, files, ddns).Some? && RECORD !in Names(files)
    ensures Make(c, files, ddns).Some?
    ensures var made := Make(c, files, ddns).value;
      && made.generation == Finalize(c, files, ddns).value.0
      && made.directory.manifest == Some(made.manifest) && made.manifest.version == 1
      && Verifies(c, made.directory, made.manifest)
  {
    hide Finalize, Verifies, Sorted, Names;
    var out := Finalize(c, files, ddns).value.1;
    FinalSorted(c, files, ddns);
    NamesFinal(c, files, ddns);
    WrittenVerifies(c, out, ddns);
  }

  // ---------- the store ----------

  /** One attempt at storing: the files handed over, and how its write ends if one is made. */
  datatype Call = Call(files: seq<File>, ddns: bool, fate: Fate)

  ghost function Stores(c: Coding, held: map<Generation, Directory>, call: Call): map<Generation, Directory> {
    match Make(c, call.files, call.ddns)
    case None => held
    case Some(made) =>
      if made.generation in held || !Took(call.fate) then held else held[made.generation := made.directory]
  }

  ghost function After(c: Coding, calls: seq<Call>): map<Generation, Directory> {
    if calls == [] then map[] else Stores(c, After(c, calls[..|calls| - 1]), calls[|calls| - 1])
  }

  /** Write-once generation directories, with the history that led to them. */
  class Store {
    const c: Coding
    var held: map<Generation, Directory>
    ghost var calls: seq<Call>

    ghost predicate Valid()
      reads this
    {
      held == After(c, calls)
    }

    constructor (c: Coding)
      ensures Valid() && calls == [] && this.c == c
    {
      this.c := c;
      held, calls := map[], [];
    }

    /**
     An existing directory is verified and never changed. A missing one is staged under another name
     and renamed, which fails with or without having taken effect.
     */
    method WriteGeneration(g: Generation, m: Manifest, fs: seq<File>, f: Fate) returns (ok: bool)
      modifies this`held
      ensures g in old(held) ==> held == old(held) && ok == (f.Works? && Verifies(c, held[g], m))
      ensures g !in old(held) ==> ok == f.Works?
      ensures g !in old(held) ==> held == if Took(f) then old(held)[g := Written(m, fs)] else old(held)
    {
      if g in held {
        ok := VerifyGeneration(c, held[g], m);
        ok := ok && f.Works?;
        return;
      }
      var stage: map<string, Stored> := map[];
      for i := 0 to |fs|
        invariant stage == Filed(fs[..i])
      {
        var mode := if fs[i].mode == 0 then 420 else fs[i].mode;
        stage := stage[Identity.Base(fs[i].path) := Identity.Stored.Stored(mode % 512, fs[i].data)];
        assert fs[..i + 1][..i] == fs[..i];
      }
      assert fs[..|fs|] == fs;
      if Took(f) { held := held[g := Directory(SEALED, Some(m), stage - {RECORD})]; }
      ok := f.Works?;
    }

    /** Finalizes the files, builds their manifest and stores them, as an apply does. */
    method Keep(files: seq<File>, ddns: bool, f: Fate) returns (g: Option<Generation>, ok: bool)
      requires Valid()
      modifies this
      ensures Valid() && calls == old(calls) + [Call(files, ddns, f)]
      ensures held == Stores(c, old(held), Call(files, ddns, f))
      ensures g.Some? <==> Make(c, files, ddns).Some?
      ensures g.Some? ==>
        var made := Make(c, files, ddns).value;
        && g.value == made.generation
        && ok == (f.Works? && (made.generation in old(held) ==> Verifies(c, old(held)[made.generation], made.manifest)))
    {
      hide Finalize, Build, Written, Verifies;
      ghost var call := Call(files, ddns, f);
      calls := calls + [call];
      assert calls[..|calls| - 1] == old(calls);
      g, ok := None, false;
      var final := FinalizeFiles(c, files, ddns);
      if final.None? { return; }
      var built := BuildManifest(c, final.value.1);
      if built.None? { return; }
      g := Some(final.value.0);
      ok := WriteGeneration(final.value.0, built.value.manifest.(ddnsDesired := ddns), built.value.files, f);
    }
  }

  // ---------- histories ----------

  /** What an apply can hand over: files that no one has named like the manifest. */
  ghost predicate Plain(calls: seq<Call>) {
    forall k :: 0 <= k < |calls| ==> RECORD !in Names(calls[k].files)
  }

  /** Whatever is held was written for the files of some call under their name, and verifies. */
  lemma {:induction false} HeldIsMade(c: Coding, calls: seq<Call>, g: Generation) returns (k: nat)
    requires Plain(calls) && g in After(c, calls)
    ensures k < |calls| && Make(c, calls[k].files, calls[k].ddns).Some?
    ensures var made := Make(c, calls[k].files, calls[k].ddns).value; var d := After(c, calls)[g];
      && made.generation == g && d == made.directory && d.manifest == Some(made.manifest)
          && Verifies(c, d, made.manifest)
  {
    hide Make, Names, Verifies;
    var n := |calls| - 1;
    var was := After(c, calls[..n]);
    if g in was {
      k := HeldIsMade(c, calls[..n], g);
    } else {
      k := n;
      MadeFinalizes(c, calls[n].files, calls[n].ddns);
      MadeVerifies(c, calls[n].files, calls[n].ddns);
    }
  }

  lemma MadeFinalizes(c: Coding, files: seq<File>, ddns: bool)
    requires Make(c, files, ddns).Some?
    ensures Finalize(c, files, ddns).Some?
  {
    hide Finalize, Build;
  }

  /** What is held is never changed and never removed. */
  lemma {:induction false} HeldForGood(c: Coding, calls: seq<Call>, k: nat, g: Generation)
    requires k <= |calls| && g in After(c, calls[..k])
    ensures g in After(c, calls) && After(c, calls)[g] == After(c, calls[..k])[g]
  {
    hide Make;
    if k < |calls| {
      var n := |calls| - 1;
      assert calls[..n][..k] == calls[..k];
      HeldForGood(c, calls[..n], k, g);
    } else {
      assert calls[..k] == calls;
    }
  }

  ghost predicate NoCollisions(c: Coding, calls: seq<Call>) {
    forall i, j :: 0 <= i < |calls| && 0 <= j < |calls| ==>
      Apart(c, Hashed(c, calls[i].files, calls[i].ddns) + Hashed(c, calls[j].files, calls[j].ddns))
  }

  /**
   Without collisions, what is held under the name of any call's files is those files' directory, and
   verifies against their manifest: so a call that finds its name in the store always succeeds.
   */
  lemma EveryCallVerifies(c: Coding, calls: seq<Call>, j: nat)
    requires Hashes(c) && Encodes(c) && Plain(calls) && NoCollisions(c, calls)
    requires j < |calls| && Make(c, calls[j].files, calls[j].ddns).Some?
    requires Make(c, calls[j].files, calls[j].ddns).value.generation in After(c, calls)
    ensures var made := Make(c, calls[j].files, calls[j].ddns).value; var d := After(c, calls)[made.generation];
      d == made.directory && Verifies(c, d, made.manifest)
  {
    hide Hashes, Encodes, Apart, Hashed, Verifies, Finalize, Names, After;
    var made := Make(c, calls[j].files, calls[j].ddns).value;
    var k := HeldIsMade(c, calls, made.generation);
    SameMade(c, calls[k].files, calls[k].ddns, calls[j].files, calls[j].ddns);
  }

  lemma SameMade(c: Coding, a: seq<File>, da: bool, b: seq<File>, db: bool)
    requires Hashes(c) && Encodes(c) && Apart(c, Hashed(c, a, da) + Hashed(c, b, db))
    requires Make(c, a, da).Some? && Make(c, b, db).Some?
    requires Make(c, a, da).value.generation == Make(c, b, db).value.generation
    ensures Make(c, a, da) == Make(c, b, db)
  {
    hide Hashes, Encodes, Apart, Hashed, Written, Build, NameOf;
    SameNameSameDirectory(c, a, da, b, db);
  }

  // ---------- the store of the protocol ----------

  /** A name and a manifest that some files give, with their directory. */
  ghost predicate Candidate(c: Coding, g: Generation, m: Manifest, d: Directory) {
    exists files, ddns :: Make(c, files, ddns) == Some(Made(g, m, d)) && RECORD !in Names(files)
  }

  lemma CandidateVerifies(c: Coding, g: Generation, m: Manifest, d: Directory)
    requires Candidate(c, g, m, d)
    ensures d.manifest == Some(m) && m.version == 1 && Verifies(c, d, m)
  {
    hide Make, Verifies, Names;
    var files, ddns :| Make(c, files, ddns) == Some(Made(g, m, d)) && RECORD !in Names(files);
    MadeFinalizes(c, files, ddns);
    MadeVerifies(c, files, ddns);
  }

  /** The directories after one event: one more, when the event stores a candidate. */
  ghost predicate DirectoryStep(c: Coding, h: Host, h': Host,
      ds: map<Generation, Directory>, ds': map<Generation, Directory>)
  {
    if h'.store == h.store then ds' == ds
    else exists g, m, d :: Candidate(c, g, m, d) && g !in h.store && h'.store == h.store[g := m] && ds' == ds[g := d]
  }

  /** `dirs` are the directories along a run. */
  ghost predicate Backs(c: Coding, es: seq<Event>, dirs: seq<map<Generation, Directory>>) {
    && |dirs| == |es| + 1 && dirs[0] == map[]
    && forall k :: 0 <= k < |es| ==> DirectoryStep(c, Exec(INIT, es[..k]).h, Exec(INIT, es[..k + 1]).h, dirs[k],
        dirs[k + 1])
  }

  /** The names are those of the directories, and each directory verifies against what is on record. */
  ghost predicate Matched(c: Coding, h: Host, ds: map<Generation, Directory>) {
    && ds.Keys == h.store.Keys
    && forall g :: g in ds ==> ds[g].manifest == Some(h.store[g]) && Verifies(c, ds[g], h.store[g])
  }

  lemma {:induction false} BackedMatches(c: Coding, es: seq<Event>, dirs: seq<map<Generation, Directory>>)
    requires Backs(c, es, dirs)
    ensures Matched(c, Exec(INIT, es).h, dirs[|es|])
  {
    if es == [] {
      hide Verifies, Candidate;
      assert Exec(INIT, []) == INIT;
    } else {
      var n := |es| - 1;
      BackedBefore(c, es, dirs);
      BackedMatches(c, es[..n], dirs[..n + 1]);
      assert es[..n + 1] == es;
      StepMatches(c, Exec(INIT, es[..n]).h, Exec(INIT, es).h, dirs[n], dirs[n + 1]);
    }
  }

  lemma BackedBefore(c: Coding, es: seq<Event>, dirs: seq<map<Generation, Directory>>)
    requires Backs(c, es, dirs) && es != []
    ensures Backs(c, es[..|es| - 1], dirs[..|es|])
  {
    hide DirectoryStep, Exec;
    var n := |es| - 1;
    forall k | 0 <= k < n
      ensures DirectoryStep(c, Exec(INIT, es[..n][..k]).h, Exec(INIT, es[..n][..k + 1]).h, dirs[..n + 1][k],
          dirs[..n + 1][k + 1])
    {
      assert es[..n][..k] == es[..k] && es[..n][..k + 1] == es[..k + 1];
    }
  }

  lemma StepMatches(c: Coding, h: Host, h': Host, ds: map<Generation, Directory>, ds': map<Generation, Directory>)
    requires Matched(c, h, ds) && DirectoryStep(c, h, h', ds, ds')
    ensures Matched(c, h', ds')
  {
    hide Verifies, Candidate;
    if h'.store != h.store {
      var g, m, d :| Candidate(c, g, m, d) && g !in h.store && h'.store == h.store[g := m] && ds' == ds[g := d];
      CandidateVerifies(c, g, m, d);
    }
  }

  /**
   In every run, whatever its scans miss, the selector and every transaction's generation and previous
   generation name a directory that is stored and verifies.
   */
  lemma NamedVerify(c: Coding, es: seq<Event>, dirs: seq<map<Generation, Directory>>, g: Generation)
    requires Backs(c, es, dirs)
    requires var h := Exec(INIT, es).h;
      h.selector == Some(g) || exists i :: i in h.txs && (h.txs[i].generation == g || h.txs[i].previous == Some(g))
    ensures var ds, store := dirs[|es|], Exec(INIT, es).h.store;
      g in ds && g in store && store[g].version == 1 && ds[g].manifest == Some(store[g]) && Verifies(c, ds[g], store[g])
  {
    var s := Exec(INIT, es);
    BackedMatches(c, es, dirs);
    hide Verifies, Backs;
    assert Reachable(s);
    hide Exec, Reachable;
    if s.h.selector == Some(g) {
      ReachableSound(s);
    } else {
      var i :| i in s.h.txs && (s.h.txs[i].generation == g || s.h.txs[i].previous == Some(g));
      GenerationsStored(s, i);
    }
  }

  /** A directory of a run stays as it is to the end. */
  lemma {:induction false} DirectoriesStay(c: Coding, es: seq<Event>, dirs: seq<map<Generation, Directory>>, k: nat,
      g: Generation)
    requires Backs(c, es, dirs) && k <= |es| && g in dirs[k]
    ensures g in dirs[|es|] && dirs[|es|][g] == dirs[k][g]
  {
    if k < |es| {
      var n := |es| - 1;
      BackedBefore(c, es, dirs);
      BackedMatches(c, es[..n], dirs[..n + 1]);
      DirectoriesStay(c, es[..n], dirs[..n + 1], k, g);
      assert es[..n + 1] == es;
      hide Verifies, Candidate, Exec;
      assert DirectoryStep(c, Exec(INIT, es[..n]).h, Exec(INIT, es[..n + 1]).h, dirs[n], dirs[n + 1]);
    }
  }

  /** The protocol's comparison of manifests is the verification of the directory. */
  lemma ComparisonVerifies(c: Coding, h: Host, ds: map<Generation, Directory>, g: Generation, m: Manifest)
    requires Matched(c, h, ds)
    ensures g in h.store && h.store[g] == m <==> g in ds && Verifies(c, ds[g], m)
  {
  }

  // ---------- every run of candidates has directories ----------

  /** The applies of a run are handed what some files give. */
  ghost predicate Candidates(c: Coding, es: seq<Event>) {
    forall k :: 0 <= k < |es| && es[k].Begin? && es[k].cmd.Apply? ==>
      exists d :: Candidate(c, es[k].cmd.generation, es[k].cmd.manifest, d)
  }

  ghost predicate Holding(c: Coding, s: State) {
    s.p.Checking? ==> exists d :: Candidate(c, s.p.generation, s.p.manifest, d)
  }

  lemma StepHolds(c: Coding, s: State, e: Event)
    requires Holding(c, s)
    requires e.Begin? && e.cmd.Apply? ==> exists d :: Candidate(c, e.cmd.generation, e.cmd.manifest, d)
    ensures Holding(c, Step(s, e))
    ensures var s' := Step(s, e);
      s'.h.store == s.h.store
      || (s.p.Checking? && s.p.generation !in s.h.store && s'.h.store == s.h.store[s.p.generation := s.p.manifest])
  {
    hide Candidate;
    if e.Tick? {
      match s.p {
        case Checking(_, _, _, _, _, _) =>
          CheckKeepsFiles(s, e.fate);
          CheckHolds(s, e.fate);
        case Confirming(_, _, _) => ConfirmHolds(s, e.fate);
        case Rolling(_, _, _, _, _) => ProtocolProgress.RollRetries(s, e.fate);
        case _ =>
      }
    }
    hide TickCheck, TickApply, TickRoll, TickConfirm;
  }

  lemma CheckHolds(s: State, f: Fate)
    requires s.p.Checking?
    ensures var p := TickCheck(s, f).p; p.Checking? ==> p.generation == s.p.generation && p.manifest == s.p.manifest
  {
  }

  lemma ConfirmHolds(s: State, f: Fate)
    requires s.p.Confirming?
    ensures !TickConfirm(s, f).p.Checking? && TickConfirm(s, f).h.store == s.h.store
  {
  }

  /** Every run whose applies are handed what some files give has its directories. */
  lemma {:induction false} DirectoriesExist(c: Coding, es: seq<Event>) returns (dirs: seq<map<Generation, Directory>>)
    requires Candidates(c, es)
    ensures Backs(c, es, dirs) && Holding(c, Exec(INIT, es))
  {
    if es == [] {
      dirs := [map[]];
      assert Exec(INIT, []) == INIT;
    } else {
      var n := |es| - 1;
      var s, s' := Exec(INIT, es[..n]), Exec(INIT, es);
      var before := DirectoriesExist(c, es[..n]);
      StepHolds(c, s, es[n]);
      hide Candidate, Step;
      var last := before[n];
      if s'.h.store != s.h.store {
        var d :| Candidate(c, s.p.generation, s.p.manifest, d);
        last := before[n][s.p.generation := d];
      }
      dirs := before + [last];
      assert DirectoryStep(c, s.h, s'.h, before[n], last);
      BackedNext(c, es, before, last);
    }
  }

  lemma BackedNext(c: Coding, es: seq<Event>, before: seq<map<Generation, Directory>>, last: map<Generation, Directory>)
    requires es != [] && Backs(c, es[..|es| - 1], before)
    requires DirectoryStep(c, Exec(INIT, es[..|es| - 1]).h, Exec(INIT, es).h, before[|es| - 1], last)
    ensures Backs(c, es, before + [last])
  {
    hide DirectoryStep, Exec;
    var n := |es| - 1;
    assert es[..n + 1] == es;
    forall k | 0 <= k < n
      ensures DirectoryStep(c, Exec(INIT, es[..k]).h, Exec(INIT, es[..k + 1]).h, before[k], before[k + 1])
    {
      BackedAt(c, es, before, k);
    }
  }

  lemma BackedAt(c: Coding, es: seq<Event>, before: seq<map<Generation, Directory>>, k: nat)
    requires es != [] && Backs(c, es[..|es| - 1], before) && k < |es| - 1
    ensures DirectoryStep(c, Exec(INIT, es[..k]).h, Exec(INIT, es[..k + 1]).h, before[k], before[k + 1])
  {
    hide DirectoryStep, Exec;
    var n := |es| - 1;
    assert es[..n][..k] == es[..k] && es[..n][..k + 1] == es[..k + 1];
  }
}
