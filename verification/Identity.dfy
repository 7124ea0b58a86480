/**
 Generation identity: files are named by the hash of a manifest over their normalized text, and the
 name is then written back into them.
 */
module Identity {
  import opened Common
  import opened Text
  import opened Sorting

  datatype File = File(path: string, mode: nat, data: string)

  /** The digest and the manifest encoding, taken as functions. */
  datatype Coding = Coding(sha: string -> string, json: Manifest -> string)

  ghost predicate Hashes(c: Coding) {
    forall s :: IsHash(c.sha(s))
  }

  // ---------- paths ----------

  /** The text after the last slash. */
  function Last(s: string): string {
    if s == "" || s[|s| - 1] == '/' then "" else Last(s[..|s| - 1]) + [s[|s| - 1]]
  }

  /** The last element of a path: trailing slashes do not count, and an empty path is ".". */
  function Base(path: string): string
    decreases |path|
  {
    if path == "" then "."
    else if path == "/" then "/"
    else if path[|path| - 1] == '/' then Base(path[..|path| - 1])
    else Last(path)
  }

  predicate Usable(name: string) {
    name != "." && name != "/"
  }

  /** A base name is "/" or holds no slash. */
  lemma {:induction false} BaseForm(path: string)
    ensures Base(path) != "" && (Base(path) == "/" || '/' !in Base(path))
    decreases |path|
  {
    if path == "" || path == "/" {
    } else if path[|path| - 1] == '/' {
      BaseForm(path[..|path| - 1]);
    } else {
      LastForm(path);
    }
  }

  lemma {:induction false} LastForm(s: string)
    ensures '/' !in Last(s)
    ensures s != "" && s[|s| - 1] != '/' ==> Last(s) != ""
    decreases |s|
  {
    if s != "" && s[|s| - 1] != '/' {
      LastForm(s[..|s| - 1]);
    }
  }

  /** Putting a file under another directory keeps its base name. */
  lemma {:induction false} BaseMoved(dir: string, name: string)
    requires name != "" && '/' !in name
    requires dir != "" && dir[|dir| - 1] == '/'
    ensures Base(dir + name) == name
  {
    LastAfter(dir, name);
  }

  lemma {:induction false} LastAfter(dir: string, name: string)
    requires '/' !in name && dir != "" && dir[|dir| - 1] == '/'
    ensures Last(dir + name) == name
    decreases |name|
  {
    if name == "" {
      assert dir + name == dir;
    } else {
      var s := dir + name;
      var n := |name| - 1;
      assert s[..|s| - 1] == dir + name[..n] && s[|s| - 1] == name[n];
      LastAfter(dir, name[..n]);
      assert name == name[..n] + [name[n]];
    }
  }

  /** The base name is the text between the last slashes that have text after them. */
  lemma BaseExactly(dir: string, name: string)
    requires name != "" && '/' !in name && (dir == "" || dir[|dir| - 1] == '/')
    ensures Base(dir + name) == name && Base(dir + name + "/") == name && Base("") == "." && Base("/") == "/"
  {
    var s := dir + name;
    assert (s + "/")[..|s|] == s;
    if dir == "" {
      assert s == name;
      LastOnly(name);
    } else {
      BaseMoved(dir, name);
    }
  }

  lemma {:induction false} LastOnly(name: string)
    requires '/' !in name
    ensures Last(name) == name
    decreases |name|
  {
    if name != "" {
      LastOnly(name[..|name| - 1]);
      assert name == name[..|name| - 1] + [name[|name| - 1]];
    }
  }

  // ---------- order ----------

  function ByName(): (File, File) -> bool {
    (x: File, y: File) => Less(Base(x.path), Base(y.path))
  }

  /** The files in the order of their base names. */
  function Sorted(fs: seq<File>): (r: seq<File>)
    ensures |r| == |fs|
  {
    Sort(fs, ByName())
  }

  ghost predicate Distinct(fs: seq<File>) {
    forall i, j :: 0 <= i < j < |fs| ==> Base(fs[i].path) != Base(fs[j].path)
  }

  lemma SortedKeeps(fs: seq<File>)
    ensures multiset(Sorted(fs)) == multiset(fs)
  {
    SortKeeps(fs, ByName());
  }

  lemma NamesOrdered()
    ensures StrictOrder(ByName())
  {
    var less := ByName();
    hide Less, Base;
    forall x, y | less(x, y) ensures !less(y, x) {
      LessTotal(Base(x.path), Base(y.path));
    }
    forall x, y, z | less(x, y) && less(y, z) ensures less(x, z) {
      LessTransitive(Base(x.path), Base(y.path), Base(z.path));
    }
  }

  /** Files with distinct names sort in one way, however they are given. */
  lemma SortedOnce(a: seq<File>, b: seq<File>)
    requires multiset(a) == multiset(b) && Distinct(a) && Distinct(b)
    ensures Sorted(a) == Sorted(b)
  {
    hide Less, Base;
    var less := ByName();
    NamesOrdered();
    forall i, j | 0 <= i < j < |a| ensures less(a[i], a[j]) || less(a[j], a[i]) {
      LessTotal(Base(a[i].path), Base(a[j].path));
    }
    forall i, j | 0 <= i < j < |b| ensures less(b[i], b[j]) || less(b[j], b[i]) {
      LessTotal(Base(b[i].path), Base(b[j].path));
    }
    SortAscends(a, less);
    SortAscends(b, less);
    SortedKeeps(a);
    SortedKeeps(b);
    OneArrangement(Sorted(a), Sorted(b), less);
  }

  function Without(fs: seq<File>, k: nat): seq<File>
    requires k < |fs|
  {
    fs[..k] + fs[k + 1..]
  }

  lemma WithoutOne(fs: seq<File>, k: nat)
    requires k < |fs|
    ensures multiset(Without(fs, k)) == multiset(fs) - multiset{fs[k]}
  {
    assert fs == fs[..k] + [fs[k]] + fs[k + 1..];
  }

  lemma TwicePermuted(a: seq<File>, b: seq<File>, i: nat, j: nat) returns (k: nat, l: nat)
    requires multiset(a) == multiset(b) && i < j < |b|
    ensures k < |a| && l < |a| && k != l && a[k] == b[i] && a[l] == b[j]
  {
    assert b[i] in multiset(a);
    k :| k < |a| && a[k] == b[i];
    WithoutOne(a, k);
    WithoutOne(b, i);
    assert b[j] == Without(b, i)[j - 1];
    assert b[j] in multiset(Without(a, k));
    var m :| 0 <= m < |Without(a, k)| && Without(a, k)[m] == b[j];
    l := if m < k then m else m + 1;
  }

  lemma DistinctPermuted(a: seq<File>, b: seq<File>)
    requires multiset(a) == multiset(b) && Distinct(a)
    ensures Distinct(b)
  {
    forall i, j | 0 <= i < j < |b| ensures Base(b[i].path) != Base(b[j].path) {
      var k, l := TwicePermuted(a, b, i, j);
    }
  }

  // ---------- manifests ----------

  function Perm(mode: nat): nat {
    if mode == 0 then 420 else mode % 512
  }

  function Entry(c: Coding, f: File): ManifestEntry {
    ManifestEntry(Base(f.path), Perm(f.mode), c.sha(f.data), |f.data|)
  }

  function Entries(c: Coding, fs: seq<File>): seq<ManifestEntry> {
    seq(|fs|, i requires 0 <= i < |fs| => Entry(c, fs[i]))
  }

  datatype Built = Built(manifest: Manifest, files: seq<File>)

  ghost predicate Acceptable(fs: seq<File>) {
    Distinct(fs) && forall i :: 0 <= i < |fs| ==> Usable(Base(fs[i].path))
  }

  /** The manifest of files, and the files in its order; nothing for a bad or repeated name. */
  ghost function Build(c: Coding, files: seq<File>): Option<Built> {
    if Acceptable(files) then Some(Built(Manifest(1, Entries(c, Sorted(files)), false), Sorted(files))) else None
  }

  lemma AcceptablePermuted(a: seq<File>, b: seq<File>)
    requires multiset(a) == multiset(b) && Acceptable(a)
    ensures Acceptable(b)
  {
    DistinctPermuted(a, b);
    forall i | 0 <= i < |b| ensures Usable(Base(b[i].path)) {
      assert b[i] in multiset(a);
    }
  }

  lemma AcceptableSorted(files: seq<File>)
    ensures Acceptable(Sorted(files)) <==> Acceptable(files)
  {
    SortedKeeps(files);
    if Acceptable(files) { AcceptablePermuted(files, Sorted(files)); }
    if Acceptable(Sorted(files)) { AcceptablePermuted(Sorted(files), files); }
  }

  ghost function Names(fs: seq<File>): set<string> {
    set f | f in fs :: Base(f.path)
  }

  /** One more file is acceptable when its name is usable and new. */
  lemma AcceptableNext(fs: seq<File>, i: nat)
    requires i < |fs| && Acceptable(fs[..i])
    ensures Acceptable(fs[..i + 1]) <==> Usable(Base(fs[i].path)) && Base(fs[i].path) !in Names(fs[..i])
    ensures !Acceptable(fs[..i + 1]) ==> !Acceptable(fs)
    ensures Names(fs[..i + 1]) == Names(fs[..i]) + {Base(fs[i].path)}
  {
    var next := fs[..i + 1];
    assert next == fs[..i] + [fs[i]];
    if Base(fs[i].path) in Names(fs[..i]) {
      var k :| 0 <= k < i && Base(fs[k].path) == Base(fs[i].path);
      assert next[k] == fs[k] && next[i] == fs[i];
    }
    if Acceptable(fs) {
      assert forall k :: 0 <= k <= i ==> next[k] == fs[k];
    }
  }

  lemma EmptyAcceptable()
    ensures Acceptable([])
  {
  }

  /** The files are refused exactly when two share a base name, or one is a root or a dot. */
  lemma BuildRefuses(c: Coding, files: seq<File>)
    ensures Build(c, files).None? <==>
      || (exists i, j :: 0 <= i < j < |files| && Base(files[i].path) == Base(files[j].path))
      || (exists i :: 0 <= i < |files| && (Base(files[i].path) == "." || Base(files[i].path) == "/"))
  {
    hide Base;
  }

  /** A mode is its last nine bits; an absent one is rw-r--r--. */
  lemma PermExactly(mode: nat)
    ensures Perm(0) == 6 * 64 + 4 * 8 + 4
    ensures mode != 0 ==> Perm(mode) < 512 && (mode - Perm(mode)) % 512 == 0
  {
  }

  method BuildManifest(c: Coding, files: seq<File>) returns (r: Option<Built>)
    ensures r == Build(c, files)
  {
    hide Sorted, Base, Distinct;
    var out := Sorted(files);
    AcceptableSorted(files);
    var seen: set<string> := {};
    var entries: seq<ManifestEntry> := [];
    EmptyAcceptable();
    hide Acceptable;
    assert out[..0] == [];
    for i := 0 to |out|
      invariant seen == Names(out[..i])
      invariant Acceptable(out[..i])
      invariant entries == Entries(c, out[..i])
    {
      var name := Base(out[i].path);
      AcceptableNext(out, i);
      if !Usable(name) || name in seen {
        return None;
      }
      seen := seen + {name};
      entries := entries + [Entry(c, out[i])];
    }
    assert out[..|out|] == out;
    return Some(Built(Manifest(1, entries, false), out));
  }

  // ---------- finalization ----------

  function Semantic(f: File): File {
    f.(data := Normal(f.data, NAMES))
  }

  function Each(fs: seq<File>, k: File -> File): (r: seq<File>)
    ensures |r| == |fs| && forall i :: 0 <= i < |fs| ==> r[i] == k(fs[i])
  {
    seq(|fs|, i requires 0 <= i < |fs| => k(fs[i]))
  }

  /** The generation name of files: the hash of the manifest of their normalized text. */
  ghost function NameOf(c: Coding, files: seq<File>, ddns: bool): Option<Generation> {
    match Build(c, Each(files, Semantic))
    case None => None
    case Some(b) => Some(c.sha(c.json(b.manifest.(ddnsDesired := ddns))))
  }

  /** `s` contains `t`. */
  predicate Has(s: string, t: string) {
    exists k :: 0 <= k <= |s| && Matches(s[k..], t, Exactly(""))
  }

  predicate IsGenerationFile(f: File) {
    Has(f.path, "/generations/") || Has(f.data, PATH)
  }

  /** A file with its generation's name written in; a generation file also moves to its directory. */
  function Final(f: File, g: Generation): File {
    var named := f.(data := Named(Normal(f.data, NAMES), NAMES, g));
    if IsGenerationFile(named) then named.(path := PATH + g + "/" + Base(f.path)) else named
  }

  ghost function Finalize(c: Coding, files: seq<File>, ddns: bool): Option<(Generation, seq<File>)> {
    match NameOf(c, files, ddns)
    case None => None
    case Some(g) => Some((g, Each(files, (f: File) => Final(f, g))))
  }

  method FinalizeFiles(c: Coding, files: seq<File>, ddns: bool) returns (r: Option<(Generation, seq<File>)>)
    ensures r == Finalize(c, files, ddns)
  {
    var normalized := files;
    for i := 0 to |files|
      invariant |normalized| == |files|
      invariant forall j :: 0 <= j < i ==> normalized[j] == Semantic(files[j])
      invariant forall j :: i <= j < |files| ==> normalized[j] == files[j]
    {
      normalized := normalized[i := normalized[i].(data := Normal(normalized[i].data, NAMES))];
    }
    assert normalized == Each(files, Semantic);
    var semantic := BuildManifest(c, normalized);
    if semantic.None? { return None; }
    var g := c.sha(c.json(semantic.value.manifest.(ddnsDesired := ddns)));
    var finalized := files;
    for i := 0 to |files|
      invariant |finalized| == |files|
      invariant forall j :: 0 <= j < i ==> finalized[j] == Final(files[j], g)
      invariant forall j :: i <= j < |files| ==> finalized[j] == files[j]
    {
      var f := finalized[i].(data := Named(Normal(finalized[i].data, NAMES), NAMES, g));
      if IsGenerationFile(f) { f := f.(path := PATH + g + "/" + Base(f.path)); }
      finalized := finalized[i := f];
    }
    assert finalized == Each(files, (f: File) => Final(f, g));
    return Some((g, finalized));
  }

  // ---------- what the name depends on ----------

  /** Files the naming cannot tell apart. */
  predicate Alike(x: File, y: File) {
    Base(x.path) == Base(y.path) && Perm(x.mode) == Perm(y.mode) && Normal(x.data, NAMES) == Normal(y.data, NAMES)
  }

  ghost predicate KeepsNames(rel: (File, File) -> bool) {
    forall x, y :: rel(x, y) ==> Base(x.path) == Base(y.path)
  }

  lemma SortedPairwise(rel: (File, File) -> bool, a: seq<File>, b: seq<File>)
    requires KeepsNames(rel) && Pairwise(rel, a, b)
    ensures Pairwise(rel, Sorted(a), Sorted(b))
  {
    hide Less, Base;
    SortPairwise(rel, a, b, ByName());
  }

  lemma AlikeSameName(c: Coding, a: seq<File>, b: seq<File>, ddns: bool)
    requires Pairwise(Alike, a, b)
    ensures NameOf(c, a, ddns) == NameOf(c, b, ddns)
  {
    var rel := (x: File, y: File) => Base(x.path) == Base(y.path) && Perm(x.mode) == Perm(y.mode) && x.data == y.data;
    var a', b' := Each(a, Semantic), Each(b, Semantic);
    assert Pairwise(rel, a', b');
    SortedPairwise(rel, a', b');
    assert Entries(c, Sorted(a')) == Entries(c, Sorted(b'));
  }

  // ---------- stability ----------

  /** The one way a name can disturb the text it is written into. */
  ghost predicate Unlucky(f: File, g: Generation) {
    IsHash(g) && g[63] == 'c' && Seam(Normal(f.data, NAMES), NAMES)
  }

  lemma FinalBase(f: File, g: Generation)
    requires Usable(Base(f.path))
    ensures Base(Final(f, g).path) == Base(f.path)
  {
    BaseForm(f.path);
    BaseMoved(PATH + g + "/", Base(f.path));
    assert PATH + g + "/" + Base(f.path) == (PATH + g + "/") + Base(f.path);
  }

  /** Naming cannot tell a file from its finalized form exactly when the name is not unlucky for it. */
  lemma FinalAlike(f: File, g: Generation)
    requires Usable(Base(f.path)) && IsHash(g)
    ensures Alike(f, Final(f, g)) <==> !Unlucky(f, g)
  {
    FinalBase(f, g);
    NamesSuit();
    NormalIsClean(f.data, NAMES);
    RoundTrip(Normal(f.data, NAMES), NAMES, g);
  }

  lemma DirectoryShows(rest: string)
    ensures Has(PATH + rest, "/generations/")
  {
    var t := "/generations/";
    assert |"/var/lib" + "/cnftctl"| == 16;
    var s := PATH + rest;
    assert s[16..] == t + rest;
    assert s[16..][..|t|] == t;
    assert Matches(s[16..], t, Exactly(""));
  }

  /**
   A file whose path or finalized text speaks of generation directories lands in its own generation's, under
   its base name; any other file stays where it is.
   */
  lemma FinalMoves(f: File, g: Generation)
    ensures var x := Final(f, g);
      && x.data == Named(Normal(f.data, NAMES), NAMES, g) && x.mode == f.mode
      && x.path == (if Has(f.path, "/generations/") || Has(x.data, "/var/lib/cnftctl/generations/")
                    then "/var/lib/cnftctl/generations/" + g + "/" + Base(f.path) else f.path)
  {
    hide Base, Has, Named, Normal;
    assert PATH == "/var/lib/cnftctl/generations/";
  }

  /** Finalizing a finalized file does nothing, unless the name is unlucky for it. */
  lemma FinalTwice(f: File, g: Generation)
    requires Usable(Base(f.path)) && IsHash(g) && !Unlucky(f, g)
    ensures Final(Final(f, g), g) == Final(f, g)
  {
    FinalAlike(f, g);
    FinalBase(f, g);
    var x := Final(f, g);
    assert Normal(x.data, NAMES) == Normal(f.data, NAMES);
    if IsGenerationFile(f.(data := x.data)) {
      DirectoryShows(g + "/" + Base(f.path));
      assert PATH + (g + "/" + Base(f.path)) == PATH + g + "/" + Base(f.path);
    }
  }

  lemma FinalizedUsable(c: Coding, files: seq<File>, ddns: bool)
    requires Finalize(c, files, ddns).Some?
    ensures Acceptable(files)
  {
    assert Acceptable(Each(files, Semantic));
    forall i | 0 <= i < |files| ensures Base(Each(files, Semantic)[i].path) == Base(files[i].path) {
    }
  }

  /** Finalizing again gives the same name and the same files, unless the name is unlucky. */
  lemma FinalizeTwice(c: Coding, files: seq<File>, ddns: bool)
    requires Hashes(c) && Finalize(c, files, ddns).Some?
    requires forall f :: f in files ==> !Unlucky(f, Finalize(c, files, ddns).value.0)
    ensures Finalize(c, Finalize(c, files, ddns).value.1, ddns) == Finalize(c, files, ddns)
  {
    var (g, out) := Finalize(c, files, ddns).value;
    FinalizedUsable(c, files, ddns);
    forall i | 0 <= i < |files| ensures Alike(files[i], out[i]) && Final(out[i], g) == out[i] {
      assert files[i] in files;
      FinalAlike(files[i], g);
      FinalTwice(files[i], g);
    }
    AlikeSameName(c, files, out, ddns);
    assert Each(out, (f: File) => Final(f, g)) == out;
  }

  /** The order in which files are given does not matter. */
  lemma OrderIrrelevant(c: Coding, a: seq<File>, b: seq<File>, ddns: bool)
    requires multiset(a) == multiset(b)
    ensures NameOf(c, a, ddns) == NameOf(c, b, ddns)
    ensures Build(c, a) == Build(c, b)
  {
    SamePermuted(c, a, b);
    EachPermuted(a, b);
    SamePermuted(c, Each(a, Semantic), Each(b, Semantic));
  }

  lemma SamePermuted(c: Coding, a: seq<File>, b: seq<File>)
    requires multiset(a) == multiset(b)
    ensures Build(c, a) == Build(c, b)
  {
    if Acceptable(a) {
      AcceptablePermuted(a, b);
      SortedOnce(a, b);
    } else if Acceptable(b) {
      AcceptablePermuted(b, a);
    }
  }

  lemma EachWithout(fs: seq<File>, k: nat)
    requires k < |fs|
    ensures multiset(Each(fs, Semantic)) == multiset(Each(Without(fs, k), Semantic)) + multiset{Semantic(fs[k])}
  {
    var e := Each(fs, Semantic);
    WithoutOne(e, k);
    assert Without(e, k) == Each(Without(fs, k), Semantic);
    assert e[k] in multiset(e);
  }

  lemma {:induction false} EachPermuted(a: seq<File>, b: seq<File>)
    requires multiset(a) == multiset(b)
    ensures multiset(Each(a, Semantic)) == multiset(Each(b, Semantic))
    decreases |a|
  {
    assert |a| == |multiset(a)| == |multiset(b)| == |b|;
    if a != [] {
      assert a[0] in multiset(b);
      var k :| 0 <= k < |b| && b[k] == a[0];
      WithoutOne(a, 0);
      WithoutOne(b, k);
      EachPermuted(Without(a, 0), Without(b, k));
      EachWithout(a, 0);
      EachWithout(b, k);
    }
  }

  /** The name computed for the manifest of files already final, as the candidate check does. */
  ghost function ValidatedName(c: Coding, files: seq<File>, ddns: bool): Option<Generation> {
    match Build(c, files)
    case None => None
    case Some(b) => NameOf(c, b.files, ddns)
  }

  /**
   Everyone who computes the name gets the same one: the service that renders the files, the
   activation that is handed them and sorts them, its plan, and the candidate check.
   */
  lemma OneName(c: Coding, files: seq<File>, ddns: bool)
    requires Hashes(c) && Finalize(c, files, ddns).Some?
    requires forall f :: f in files ==> !Unlucky(f, Finalize(c, files, ddns).value.0)
    ensures
      var (g, out) := Finalize(c, files, ddns).value;
      && Finalize(c, out, ddns) == Some((g, out))
      && Build(c, out).Some?
      && var held := Build(c, out).value.files;
      && multiset(held) == multiset(out)
      && Finalize(c, held, ddns) == Some((g, held))
      && ValidatedName(c, held, ddns) == Some(g)
  {
    hide Sorted, Normal, Base, Unlucky, Distinct, Named, Perm;
    var (g, out) := Finalize(c, files, ddns).value;
    FinalizeTwice(c, files, ddns);
    FinalizedUsable(c, out, ddns);
    var held := Sorted(out);
    SortedKeeps(out);
    OrderIrrelevant(c, out, held, ddns);
    forall i | 0 <= i < |held| ensures Final(held[i], g) == held[i] {
      assert held[i] in multiset(out);
      var k :| 0 <= k < |out| && out[k] == held[i];
      assert Each(out, (f: File) => Final(f, g))[k] == out[k];
    }
    assert Each(held, (f: File) => Final(f, g)) == held;
  }

  // ---------- what the name pins down ----------

  /** The encoding loses nothing. */
  ghost predicate Encodes(c: Coding) {
    forall m, m' :: c.json(m) == c.json(m') ==> m == m'
  }

  /** No two of these texts share a digest. */
  ghost predicate Apart(c: Coding, texts: set<string>) {
    forall x, y :: x in texts && y in texts && c.sha(x) == c.sha(y) ==> x == y
  }

  ghost function Texts(fs: seq<File>): set<string> {
    set f | f in fs :: f.data
  }

  ghost function SemanticManifest(c: Coding, files: seq<File>, ddns: bool): Manifest {
    Manifest(1, Entries(c, Sorted(Each(files, Semantic))), ddns)
  }

  /** Every text hashed to name these files. */
  ghost function Hashed(c: Coding, files: seq<File>, ddns: bool): set<string> {
    Texts(Each(files, Semantic)) + {c.json(SemanticManifest(c, files, ddns))}
  }

  /** Equal manifests over texts without collisions come from the same names, modes and texts. */
  lemma SameEntries(c: Coding, a: seq<File>, b: seq<File>)
    requires Entries(c, a) == Entries(c, b) && Apart(c, Texts(a) + Texts(b))
    ensures Pairwise(Same, a, b)
  {
    assert |Entries(c, a)| == |a| && |Entries(c, b)| == |b|;
    forall i | 0 <= i < |a| ensures Same(a[i], b[i]) {
      assert Entries(c, a)[i] == Entry(c, a[i]) && Entries(c, b)[i] == Entry(c, b[i]);
      assert a[i].data in Texts(a) && b[i].data in Texts(b);
    }
  }

  /** Files stored alike: one name, one mode, the same bytes. */
  predicate Same(x: File, y: File) {
    Base(x.path) == Base(y.path) && Perm(x.mode) == Perm(y.mode) && x.data == y.data
  }

  lemma TextsSorted(fs: seq<File>)
    ensures Texts(Sorted(fs)) == Texts(fs)
  {
    SortedKeeps(fs);
    assert forall f :: f in fs <==> f in multiset(fs);
    assert forall f :: f in Sorted(fs) <==> f in multiset(Sorted(fs));
  }

  /**
   Two sets of files share a name exactly when they agree on the DDNS intent and, in order of their
   base names, on names, modes and normalized text.
   */
  lemma NamePinsDown(c: Coding, a: seq<File>, da: bool, b: seq<File>, db: bool)
    requires Hashes(c) && Encodes(c) && Apart(c, Hashed(c, a, da) + Hashed(c, b, db))
    requires NameOf(c, a, da).Some? && NameOf(c, b, db).Some?
    ensures NameOf(c, a, da) == NameOf(c, b, db) <==> da == db && Pairwise(Alike, Sorted(a), Sorted(b))
  {
    hide Sorted, Normal, Base, Perm, NameOf, Hashed, Encodes, Apart, Hashes, Alike;
    if NameOf(c, a, da) == NameOf(c, b, db) {
      SameNameAlike(c, a, da, b, db);
    }
    if da == db && Pairwise(Alike, Sorted(a), Sorted(b)) {
      AlikeSameName(c, Sorted(a), Sorted(b), da);
      SortedKeeps(a);
      SortedKeeps(b);
      OrderIrrelevant(c, a, Sorted(a), da);
      OrderIrrelevant(c, b, Sorted(b), da);
    }
  }

  lemma SameNameAlike(c: Coding, a: seq<File>, da: bool, b: seq<File>, db: bool)
    requires Encodes(c) && Apart(c, Hashed(c, a, da) + Hashed(c, b, db))
    requires NameOf(c, a, da).Some? && NameOf(c, a, da) == NameOf(c, b, db)
    ensures da == db && Pairwise(Alike, Sorted(a), Sorted(b))
  {
    hide Sorted, Normal, Base, Perm, NameOf, Hashed, Encodes, Apart, Texts;
    SameManifest(c, a, da, b, db);
    var a', b' := Sorted(Each(a, Semantic)), Sorted(Each(b, Semantic));
    SameTexts(c, a, da, b, db);
    assert SemanticManifest(c, a, da).files == Entries(c, a');
    assert SemanticManifest(c, b, db).files == Entries(c, b');
    SameEntries(c, a', b');
    SortedSemantic(a);
    SortedSemantic(b);
    forall i | 0 <= i < |Sorted(a)| ensures Alike(Sorted(a)[i], Sorted(b)[i]) {
      assert Same(a'[i], b'[i]);
    }
  }

  lemma SameTexts(c: Coding, a: seq<File>, da: bool, b: seq<File>, db: bool)
    requires Apart(c, Hashed(c, a, da) + Hashed(c, b, db))
    ensures Apart(c, Texts(Sorted(Each(a, Semantic))) + Texts(Sorted(Each(b, Semantic))))
  {
    TextsSorted(Each(a, Semantic));
    TextsSorted(Each(b, Semantic));
  }

  lemma SameManifest(c: Coding, a: seq<File>, da: bool, b: seq<File>, db: bool)
    requires Encodes(c) && Apart(c, Hashed(c, a, da) + Hashed(c, b, db))
    requires NameOf(c, a, da).Some? && NameOf(c, a, da) == NameOf(c, b, db)
    ensures SemanticManifest(c, a, da) == SemanticManifest(c, b, db)
  {
    var x, y := c.json(SemanticManifest(c, a, da)), c.json(SemanticManifest(c, b, db));
    assert x in Hashed(c, a, da) && y in Hashed(c, b, db);
    assert c.sha(x) == c.sha(y);
  }

  lemma SortedSemantic(fs: seq<File>)
    ensures Sorted(Each(fs, Semantic)) == Each(Sorted(fs), Semantic)
  {
    var rel := (x: File, y: File) => y == Semantic(x);
    assert Pairwise(rel, fs, Each(fs, Semantic));
    SortedPairwise(rel, fs, Each(fs, Semantic));
  }

  /** Without collisions, finalizing is stable exactly when the name is unlucky for no file. */
  lemma StableExactly(c: Coding, files: seq<File>, ddns: bool)
    requires Hashes(c) && Encodes(c) && Finalize(c, files, ddns).Some?
    requires
      var out := Finalize(c, files, ddns).value.1;
      Apart(c, Hashed(c, files, ddns) + Hashed(c, out, ddns))
    ensures
      var (g, out) := Finalize(c, files, ddns).value;
      Finalize(c, out, ddns) == Some((g, out)) <==> forall f :: f in files ==> !Unlucky(f, g)
  {
    var (g, out) := Finalize(c, files, ddns).value;
    FinalizedUsable(c, files, ddns);
    if forall f :: f in files ==> !Unlucky(f, g) {
      FinalizeTwice(c, files, ddns);
    }
    if Finalize(c, out, ddns) == Some((g, out)) {
      SameNameAlike(c, files, ddns, out, ddns);
      AlikeNotUnlucky(files, g);
    }
  }

  lemma AlikeNotUnlucky(files: seq<File>, g: Generation)
    requires Acceptable(files) && IsHash(g)
    requires Pairwise(Alike, Sorted(files), Sorted(Each(files, (f: File) => Final(f, g))))
    ensures forall f :: f in files ==> !Unlucky(f, g)
  {
    hide Sorted, Normal, Base, Perm, Unlucky, Distinct, Named;
    var out := Each(files, (f: File) => Final(f, g));
    var rel := (x: File, y: File) => Usable(Base(x.path)) && y == Final(x, g);
    forall x, y | rel(x, y) ensures Base(x.path) == Base(y.path) {
      FinalBase(x, g);
    }
    SortedPairwise(rel, files, out);
    SortedKeeps(files);
    forall f | f in files ensures !Unlucky(f, g) {
      assert f in multiset(Sorted(files));
      var i :| 0 <= i < |Sorted(files)| && Sorted(files)[i] == f;
      assert rel(Sorted(files)[i], Sorted(out)[i]);
      FinalAlike(f, g);
    }
  }

  // ---------- the store ----------

  datatype Stored = Stored(mode: nat, data: string)

  /** A generation directory; its manifest file is kept apart from the others. */
  datatype Directory = Directory(mode: nat, manifest: Option<Manifest>, files: map<string, Stored>)

  const RECORD := "manifest.json"
  const SEALED: nat := 320

  /** Each file under its base name; a later one replaces an earlier one. */
  function Filed(fs: seq<File>): map<string, Stored> {
    if fs == [] then map[]
    else
      var f := fs[|fs| - 1];
      Filed(fs[..|fs| - 1])[Base(f.path) := Stored(Perm(f.mode), f.data)]
  }

  /** The directory written for files: their manifest is written last, and nothing else under its name. */
  function Written(m: Manifest, fs: seq<File>): Directory {
    Directory(SEALED, Some(m), Filed(fs) - {RECORD})
  }

  predicate Holds(c: Coding, d: Directory, e: ManifestEntry) {
    && e.path in d.files
    && d.files[e.path].mode == e.mode
    && |d.files[e.path].data| == e.size
    && c.sha(d.files[e.path].data) == e.sha256
  }

  /** The directory is sealed, records this manifest, and holds its files and no others. */
  predicate Verifies(c: Coding, d: Directory, m: Manifest) {
    && d.mode == SEALED && d.manifest == Some(m) && |d.files| == |m.files|
    && forall i :: 0 <= i < |m.files| ==> Holds(c, d, m.files[i])
  }

  method VerifyGeneration(c: Coding, d: Directory, m: Manifest) returns (ok: bool)
    ensures ok == Verifies(c, d, m)
  {
    if d.mode != SEALED || d.manifest != Some(m) || |d.files| != |m.files| {
      return false;
    }
    for i := 0 to |m.files|
      invariant forall j :: 0 <= j < i ==> Holds(c, d, m.files[j])
    {
      if !Holds(c, d, m.files[i]) { return false; }
    }
    return true;
  }

  lemma NamesOf(fs: seq<File>)
    ensures forall i :: 0 <= i < |fs| ==> Base(fs[i].path) in Names(fs)
    ensures fs != [] ==> Names(fs) == Names(fs[..|fs| - 1]) + {Base(fs[|fs| - 1].path)}
    ensures fs != [] && Distinct(fs) ==> Base(fs[|fs| - 1].path) !in Names(fs[..|fs| - 1])
  {
    if fs != [] {
      assert fs == fs[..|fs| - 1] + [fs[|fs| - 1]];
    }
  }

  lemma {:induction false} FiledNames(fs: seq<File>)
    requires Distinct(fs)
    ensures Filed(fs).Keys == Names(fs) && |Filed(fs)| == |fs|
  {
    NamesOf(fs);
    if fs != [] {
      var was := Filed(fs[..|fs| - 1]);
      FiledNames(fs[..|fs| - 1]);
      hide Names, Base, Distinct;
      assert Filed(fs).Keys == was.Keys + {Base(fs[|fs| - 1].path)};
      assert |Filed(fs).Keys| == |was.Keys| + 1;
    }
  }

  lemma {:induction false} FiledAt(fs: seq<File>, i: nat)
    requires Distinct(fs) && i < |fs|
    ensures Base(fs[i].path) in Filed(fs) && Filed(fs)[Base(fs[i].path)] == Stored(Perm(fs[i].mode), fs[i].data)
  {
    var n := |fs| - 1;
    if i < n {
      FiledAt(fs[..n], i);
      assert Base(fs[i].path) != Base(fs[n].path);
    }
  }

  /** What is written verifies exactly when no file takes the manifest's own name. */
  lemma WrittenVerifies(c: Coding, files: seq<File>, ddns: bool)
    requires Build(c, files).Some?
    ensures
      var b := Build(c, files).value;
      var m := b.manifest.(ddnsDesired := ddns);
      Verifies(c, Written(m, b.files), m) <==> RECORD !in Names(files)
  {
    var fs := Sorted(files);
    AcceptableSorted(files);
    SortedNames(files);
    WrittenHolds(c, fs, ddns);
  }

  lemma WrittenHolds(c: Coding, fs: seq<File>, ddns: bool)
    requires Distinct(fs)
    ensures
      var m := Manifest(1, Entries(c, fs), ddns);
      Verifies(c, Written(m, fs), m) <==> RECORD !in Names(fs)
  {
    FiledNames(fs);
    var d := Filed(fs) - {RECORD};
    var m := Manifest(1, Entries(c, fs), ddns);
    hide Base, Perm, Distinct, Names;
    assert |m.files| == |fs|;
    if RECORD in Names(fs) {
      assert d.Keys == Filed(fs).Keys - {RECORD};
      assert |d| == |d.Keys| == |Filed(fs).Keys| - 1;
    } else {
      assert d == Filed(fs);
      forall i | 0 <= i < |fs| ensures Holds(c, Written(m, fs), m.files[i]) {
        assert m.files[i] == Entry(c, fs[i]);
        FiledAt(fs, i);
      }
    }
  }

  lemma SortedNames(fs: seq<File>)
    ensures Names(Sorted(fs)) == Names(fs)
  {
    SortedKeeps(fs);
    assert forall f :: f in fs <==> f in multiset(fs);
    assert forall f :: f in Sorted(fs) <==> f in multiset(Sorted(fs));
  }

  ghost function Kept(d: Directory): set<string> {
    set n | n in d.files :: d.files[n].data
  }

  ghost predicate PathsDistinct(m: Manifest) {
    forall i, j :: 0 <= i < j < |m.files| ==> m.files[i].path != m.files[j].path
  }

  ghost function Paths(es: seq<ManifestEntry>): set<string> {
    set e | e in es :: e.path
  }

  lemma {:induction false} PathsCounted(es: seq<ManifestEntry>)
    requires forall i, j :: 0 <= i < j < |es| ==> es[i].path != es[j].path
    ensures |Paths(es)| == |es|
  {
    if es != [] {
      var n := |es| - 1;
      PathsCounted(es[..n]);
      assert es == es[..n] + [es[n]];
      assert Paths(es) == Paths(es[..n]) + {es[n].path};
    }
  }

  lemma SameSet(a: set<string>, b: set<string>)
    requires a <= b && |a| == |b|
    ensures a == b
  {
    if x :| x in b && x !in a {
      assert a <= b - {x} && |b - {x}| == |b| - 1;
      Smaller(a, b - {x});
    }
  }

  lemma {:induction false} Smaller(a: set<string>, b: set<string>)
    requires a <= b
    ensures |a| <= |b|
    decreases a
  {
    if x :| x in a { Smaller(a - {x}, b - {x}); }
  }

  /**
   Verifying against a manifest that lists each name once: the directory is r-x for its owner only and records that
   manifest; its files are exactly the listed ones, each with its mode, its length and its digest.
   */
  lemma VerifiesExactly(c: Coding, d: Directory, m: Manifest)
    requires PathsDistinct(m)
    ensures Verifies(c, d, m) <==>
      && d.mode == 5 * 64 && d.manifest == Some(m) && d.files.Keys == Paths(m.files)
      && (forall e :: e in m.files ==>
            var f := d.files[e.path]; f.mode == e.mode && |f.data| == e.size && c.sha(f.data) == e.sha256)
  {
    PathsCounted(m.files);
    if Verifies(c, d, m) {
      forall e | e in m.files ensures Holds(c, d, e) {
        var i :| 0 <= i < |m.files| && m.files[i] == e;
      }
      SameSet(Paths(m.files), d.files.Keys);
    }
  }

  /** Without collisions, only the directory that was written verifies. */
  lemma OnlyWrittenVerifies(c: Coding, files: seq<File>, ddns: bool, d: Directory)
    requires Build(c, files).Some? && RECORD !in Names(files)
    requires Apart(c, Texts(files) + Kept(d))
    ensures
      var b := Build(c, files).value;
      var m := b.manifest.(ddnsDesired := ddns);
      Verifies(c, d, m) <==> d == Written(m, b.files)
  {
    var b := Build(c, files).value;
    var m := b.manifest.(ddnsDesired := ddns);
    WrittenVerifies(c, files, ddns);
    if Verifies(c, d, m) {
      AcceptableSorted(files);
      SortedNames(files);
      TextsSorted(files);
      SameFiles(c, b.files, m, d);
    }
  }

  lemma SameFiles(c: Coding, fs: seq<File>, m: Manifest, d: Directory)
    requires Distinct(fs) && RECORD !in Names(fs) && Apart(c, Texts(fs) + Kept(d))
    requires m.files == Entries(c, fs) && Verifies(c, d, m)
    ensures d.files == Filed(fs) - {RECORD}
  {
    hide Filed, Texts, Names, Distinct, Apart, Base, Perm;
    FiledNames(fs);
    HeldIsFiled(c, fs, m, d);
    var was := Filed(fs);
    assert |m.files| == |fs|;
    SubsetSameSize(was.Keys, d.files.Keys);
    assert d.files == was;
    assert was - {RECORD} == was;
  }

  lemma HeldIsFiled(c: Coding, fs: seq<File>, m: Manifest, d: Directory)
    requires Distinct(fs)
    requires m.files == Entries(c, fs) && Verifies(c, d, m) && Apart(c, Texts(fs) + Kept(d))
    ensures forall n :: n in Filed(fs) ==> n in d.files && d.files[n] == Filed(fs)[n]
  {
    FiledNames(fs);
    forall n | n in Filed(fs) ensures n in d.files && d.files[n] == Filed(fs)[n] {
      assert n in Names(fs);
      var f :| f in fs && Base(f.path) == n;
      var i :| 0 <= i < |fs| && fs[i] == f;
      hide Base, Perm, Names, Distinct, Apart, Texts;
      FiledAt(fs, i);
      EntryHeld(c, fs, m, d, i);
    }
  }

  lemma EntryHeld(c: Coding, fs: seq<File>, m: Manifest, d: Directory, i: nat)
    requires m.files == Entries(c, fs) && Verifies(c, d, m) && Apart(c, Texts(fs) + Kept(d)) && i < |fs|
    ensures Base(fs[i].path) in d.files && d.files[Base(fs[i].path)] == Stored(Perm(fs[i].mode), fs[i].data)
  {
    hide Base, Perm;
    assert m.files[i] == Entry(c, fs[i]) && Holds(c, d, m.files[i]);
    assert fs[i].data in Texts(fs);
    assert d.files[Base(fs[i].path)].data in Kept(d);
  }

  lemma SubsetSameSize<T>(a: set<T>, b: set<T>)
    requires a <= b && |a| == |b|
    ensures a == b
  {
    assert |b - a| == |b| - |a|;
  }

  /**
   Two sets of files with one name are stored as one directory, so a name already in the store can be
   used again.
   */
  lemma SameNameSameDirectory(c: Coding, a: seq<File>, da: bool, b: seq<File>, db: bool)
    requires Hashes(c) && Encodes(c) && Apart(c, Hashed(c, a, da) + Hashed(c, b, db))
    requires NameOf(c, a, da).Some? && NameOf(c, a, da) == NameOf(c, b, db)
    ensures
      var fa, fb := Finalize(c, a, da).value.1, Finalize(c, b, db).value.1;
      && Build(c, fa).Some? && Build(c, fb).Some?
      && var (ba, bb) := (Build(c, fa).value, Build(c, fb).value);
      && ba.manifest.(ddnsDesired := da) == bb.manifest.(ddnsDesired := db)
      && Written(ba.manifest.(ddnsDesired := da), ba.files) == Written(bb.manifest.(ddnsDesired := db), bb.files)
  {
    hide Sorted, Normal, Base, Perm, Hashed, Encodes, Apart, Hashes, Distinct, Named;
    SameNameAlike(c, a, da, b, db);
    var g := NameOf(c, a, da).value;
    FinalSorted(c, a, da);
    FinalSorted(c, b, db);
    var fa, fb := Finalize(c, a, da).value.1, Finalize(c, b, db).value.1;
    var sa, sb := Sorted(fa), Sorted(fb);
    forall i | 0 <= i < |sa| ensures Same(sa[i], sb[i]) {
      assert Alike(Sorted(a)[i], Sorted(b)[i]);
    }
    assert Entries(c, sa) == Entries(c, sb);
    FiledSame(sa, sb);
  }

  lemma {:induction false} FiledSame(a: seq<File>, b: seq<File>)
    requires Pairwise(Same, a, b)
    ensures Filed(a) == Filed(b)
  {
    if a != [] {
      FiledSame(a[..|a| - 1], b[..|b| - 1]);
    }
  }

  /** Finalized files are acceptable, and sort as the originals do. */
  lemma FinalSorted(c: Coding, files: seq<File>, ddns: bool)
    requires Finalize(c, files, ddns).Some?
    ensures
      var (g, out) := Finalize(c, files, ddns).value;
      && Acceptable(out) && |Sorted(out)| == |Sorted(files)|
      && forall i :: 0 <= i < |files| ==>
        && Sorted(out)[i] == Final(Sorted(files)[i], g)
        && Base(Sorted(out)[i].path) == Base(Sorted(files)[i].path)
  {
    var (g, out) := Finalize(c, files, ddns).value;
    FinalizedUsable(c, files, ddns);
    var rel := (x: File, y: File) => y == Final(x, g) && Usable(Base(x.path));
    forall x, y | rel(x, y) ensures Base(x.path) == Base(y.path) {
      FinalBase(x, g);
    }
    assert Pairwise(rel, files, out);
    SortedPairwise(rel, files, out);
    forall i | 0 <= i < |files| ensures Base(out[i].path) == Base(files[i].path) {
      assert rel(files[i], out[i]);
    }
    forall i | 0 <= i < |files|
      ensures Sorted(out)[i] == Final(Sorted(files)[i], g) && Base(Sorted(out)[i].path) == Base(Sorted(files)[i].path)
    {
      assert rel(Sorted(files)[i], Sorted(out)[i]);
    }
  }

  /** So the directory one set of files was stored in verifies for the other. */
  lemma ReusedVerifies(c: Coding, a: seq<File>, da: bool, b: seq<File>, db: bool)
    requires Hashes(c) && Encodes(c) && Apart(c, Hashed(c, a, da) + Hashed(c, b, db))
    requires NameOf(c, a, da).Some? && NameOf(c, a, da) == NameOf(c, b, db)
    requires RECORD !in Names(b)
    ensures
      var fa, fb := Finalize(c, a, da).value.1, Finalize(c, b, db).value.1;
      && Build(c, fa).Some? && Build(c, fb).Some?
      && var (ba, bb) := (Build(c, fa).value, Build(c, fb).value);
      Verifies(c, Written(ba.manifest.(ddnsDesired := da), ba.files), bb.manifest.(ddnsDesired := db))
  {
    hide Verifies, Encodes, Apart, Hashed, Hashes, Base, Sorted;
    SameNameSameDirectory(c, a, da, b, db);
    var fb := Finalize(c, b, db).value.1;
    FinalSorted(c, b, db);
    NamesFinal(c, b, db);
    WrittenVerifies(c, fb, db);
  }

  lemma NamesFinal(c: Coding, files: seq<File>, ddns: bool)
    requires Finalize(c, files, ddns).Some?
    ensures Names(Finalize(c, files, ddns).value.1) == Names(files)
  {
    var (g, out) := Finalize(c, files, ddns).value;
    FinalizedUsable(c, files, ddns);
    hide Base, Final, NameOf, Distinct;
    forall i | 0 <= i < |files| ensures Base(out[i].path) == Base(files[i].path) {
      FinalBase(files[i], g);
    }
    NamesIndexed(files, out);
  }

  lemma NamesIndexed(a: seq<File>, b: seq<File>)
    requires |a| == |b| && forall i :: 0 <= i < |a| ==> Base(a[i].path) == Base(b[i].path)
    ensures Names(a) == Names(b)
  {
    hide Base;
    forall f | f in a ensures Base(f.path) in Names(b) {
      var i :| 0 <= i < |a| && a[i] == f;
      assert b[i] in b;
    }
    forall f | f in b ensures Base(f.path) in Names(a) {
      var i :| 0 <= i < |b| && b[i] == f;
      assert a[i] in a;
    }
  }
}
