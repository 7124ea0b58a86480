/**
 What the spliced sets say. A reader of set lines, written after nft's syntax and apart from the code that
 writes them, finds in the candidate exactly the resolved addresses, in order, each with its lifetime.
 */
module Elements {
  import opened Common
  import opened Text
  import opened Identity
  import opened Drift

  // ---------- reading ----------

  /** Where `t` first stands in `s`, or the length of `s`. */
  function Find(s: string, t: string): (i: nat)
    ensures i <= |s|
  {
    if s == "" || (|t| <= |s| && s[..|t|] == t) then 0 else 1 + Find(s[1..], t)
  }

  function Before(s: string, t: string): string {
    s[..Find(s, t)]
  }

  function After(s: string, t: string): string {
    var i := Find(s, t);
    if i + |t| <= |s| then s[i + |t|..] else ""
  }

  /** The pieces of `s` between the separators. */
  function Cut(s: string, t: string): seq<string>
    requires t != ""
    decreases |s|
  {
    if Find(s, t) + |t| <= |s| then [Before(s, t)] + Cut(After(s, t), t) else [s]
  }

  datatype Timeout = Timeout(value: string, lifetime: string)

  function ReadElement(item: string): Timeout {
    Timeout(Before(item, " timeout "), After(item, " timeout "))
  }

  function ReadElements(items: seq<string>): seq<Timeout> {
    if items == [] then [] else [ReadElement(items[0])] + ReadElements(items[1..])
  }

  const OPENING := "elements = { "

  /** The elements of a set's line: what stands between the inner braces. */
  function ReadLine(line: string): seq<Timeout> {
    if Find(line, OPENING) == |line| then [] else ReadElements(Cut(Before(After(line, OPENING), " }"), ", "))
  }

  /** The elements of the first set of that name. */
  function ReadSet(lines: seq<string>, name: string): seq<Timeout> {
    if lines == [] then []
    else if Find(lines[0], name) < |lines[0]| then ReadLine(lines[0])
    else ReadSet(lines[1..], name)
  }

  /** A duration of nft's in nanoseconds. */
  function ReadDuration(s: string): int {
    if s == "" then 0
    else
      var unit := UnitOf(s[|s| - 1]);
      if s[0] == '-' && |s| > 1 then -(Number(s[1..|s| - 1]) * unit) else Number(s[..|s| - 1]) * unit
  }

  // ---------- finding ----------

  lemma {:induction false} FindAt(a: string, t: string, b: string, j: nat)
    requires j < |t| && t[j] !in a && t[j] !in t[..j]
    ensures Find(a + t + b, t) == |a|
  {
    var s := a + t + b;
    if a == "" {
      assert s[..|t|] == t;
    } else {
      assert s[j] != t[j] by { if j >= |a| { assert s[j] == t[..j][j - |a|]; } }
      assert |t| <= |s| ==> s[..|t|][j] == s[j];
      assert s[1..] == a[1..] + t + b;
      FindAt(a[1..], t, b, j);
    }
  }

  lemma {:induction false} FindNone(a: string, t: string, j: nat)
    requires j < |t| && t[j] !in a
    ensures Find(a, t) == |a|
  {
    if a != "" {
      assert |t| <= |a| ==> a[..|t|][j] == a[j];
      FindNone(a[1..], t, j);
    }
  }

  lemma {:induction false} FindHas(s: string, t: string)
    requires t != "" && Find(s, t) < |s|
    ensures Has(s, t)
  {
    assert s[0..] == s;
    if |t| <= |s| && s[..|t|] == t {
      assert Matches(s[0..], t, Exactly(""));
    } else {
      HasNext(s, t);
      hide Has;
      FindHas(s[1..], t);
    }
  }

  /** What stands before and after a separator. */
  lemma Parted(a: string, t: string, b: string, j: nat)
    requires j < |t| && t[j] !in a && t[j] !in t[..j]
    ensures Find(a + t + b, t) == |a| && Before(a + t + b, t) == a && After(a + t + b, t) == b
  {
    FindAt(a, t, b, j);
    var s := a + t + b;
    assert s[..|a|] == a && s[|a| + |t|..] == b;
  }

  // ---------- the elements of a list ----------

  /** No separator of the syntax. */
  predicate Solid(s: string) {
    ' ' !in s && ',' !in s && '}' !in s
  }

  function Expected(values: seq<string>, t: string): (r: seq<Timeout>)
    ensures |r| == |values| && forall i :: 0 <= i < |values| ==> r[i] == Timeout(values[i], t)
  {
    if values == [] then [] else [Timeout(values[0], t)] + Expected(values[1..], t)
  }

  lemma ElementRead(v: string, t: string)
    requires Solid(v)
    ensures ReadElement(v + " timeout " + t) == Timeout(v, t)
  {
    Parted(v, " timeout ", t, 0);
  }

  lemma ItemSolid(v: string, t: string)
    requires Solid(v) && Solid(t)
    ensures ',' !in v + " timeout " + t && '}' !in v + " timeout " + t && ' ' !in v
  {
  }

  lemma {:induction false} TimedRead(values: seq<string>, t: string)
    requires values != [] && Solid(t) && forall i :: 0 <= i < |values| ==> Solid(values[i])
    ensures ReadElements(Cut(Timed(values, t), ", ")) == Expected(values, t)
    ensures '}' !in Timed(values, t)
  {
    hide ReadElement, Find, Before, After, Solid, ReadElements, Expected;
    var item := values[0] + " timeout " + t;
    ItemSolid(values[0], t);
    ElementRead(values[0], t);
    if |values| == 1 {
      FindNone(item, ", ", 0);
      assert Cut(item, ", ") == [item];
      Nothing(values[1..], t);
      FirstElement(values, t, []);
      assert [item] + [] == [item];
    } else {
      var rest := Timed(values[1..], t);
      TimedRead(values[1..], t);
      Parted(item, ", ", rest, 0);
      assert Timed(values, t) == item + ", " + rest;
      assert Cut(item + ", " + rest, ", ") == [item] + Cut(rest, ", ");
      FirstElement(values, t, Cut(rest, ", "));
    }
  }

  lemma Nothing(values: seq<string>, t: string)
    ensures values == [] ==> ReadElements([]) == Expected(values, t)
  {
  }

  lemma FirstElement(values: seq<string>, t: string, items: seq<string>)
    requires values != [] && ReadElements(items) == Expected(values[1..], t)
    requires ReadElement(values[0] + " timeout " + t) == Timeout(values[0], t)
    ensures ReadElements([values[0] + " timeout " + t] + items) == Expected(values, t)
  {
    hide ReadElement;
    var all := [values[0] + " timeout " + t] + items;
    assert all[1..] == items && all[0] == values[0] + " timeout " + t;
  }

  lemma PrintedSolid(v: string)
    requires Printed(v)
    ensures Solid(v)
  {
  }

  // ---------- the lines of the two sets ----------

  lemma OpeningLetters(h: string)
    requires Calm(h)
    ensures |OPENING| == 13 && OPENING[9] == '=' && '=' !in OPENING[..9]
    ensures '=' !in h && '=' !in h + " }" && '=' !in h + " "
  {
  }

  /** The line of a set reads as its elements. */
  lemma ListedRead(first: string, kind: string, t: string, values: seq<string>)
    requires Declares(first, kind) && Calm(t) && Solid(t) && Addresses(values)
    ensures ReadLine(Listed(first, kind, t, values)) == Expected(values, t)
  {
    HeadCalm(first, kind, t);
    var h := INDENT + Head(first, kind, t);
    OpeningLetters(h);
    forall i | 0 <= i < |values| ensures Solid(values[i]) { PrintedSolid(values[i]); }
    hide Head, Calm, Solid, Printed, Find, Cut, Before, After, Timed;
    if values == [] {
      FindNone(h + " }", OPENING, 9);
    } else {
      var list := Timed(values, t);
      TimedRead(values, t);
      ListedText(h, list);
      Parted(h + " ", OPENING, list + " }; }", 9);
      Closed(list);
    }
  }

  lemma Closed(list: string)
    requires '}' !in list
    ensures Before(list + " }; }", " }") == list
  {
    assert " }"[1] == '}' && " }"[..1] == " ";
    Parted(list, " }", "; }", 1);
    assert list + " }" + "; }" == list + " }; }";
  }

  lemma ListedText(h: string, list: string)
    ensures h + LIST + " " + list + " }; }" == h + " " + OPENING + (list + " }; }")
  {
    assert LIST + " " == " " + OPENING;
  }

  // ---------- the candidate ----------

  lemma {:induction false} Skipped(before: seq<string>, rest: seq<string>, name: string)
    requires name != "" && forall i :: 0 <= i < |before| ==> !Has(before[i], name)
    ensures ReadSet(before + rest, name) == ReadSet(rest, name)
  {
    hide Has, ReadLine;
    if before == [] {
      assert before + rest == rest;
    } else {
      if Find(before[0], name) < |before[0]| { FindHas(before[0], name); }
      assert (before + rest)[1..] == before[1..] + rest;
      Skipped(before[1..], rest, name);
    }
  }

  lemma FirstLetter(first: string, kind: string)
    requires Declares(first, kind)
    ensures first != "" && first[0] !in INDENT
  {
  }

  lemma Regroup(a: string, b: string, c: string, d: string, e: string)
    ensures a + (b + c + d + ";") + e == a + b + (c + d + ";" + e)
  {
  }

  lemma DeclaresFound(first: string, kind: string, t: string, values: seq<string>)
    requires Declares(first, kind) && Calm(t)
    ensures Find(Listed(first, kind, t, values), first) < |Listed(first, kind, t, values)|
  {
    hide Find, Calm, Timed, Declares;
    FirstLetter(first, kind);
    var rest := if values == [] then " }" else LIST + " " + Timed(values, t) + " }; }";
    FindAt(INDENT, first, kind + t + ";" + rest, 0);
    Regroup(INDENT, first, kind, t, rest);
    if values != [] { Regroup2(INDENT + Head(first, kind, t), LIST, Timed(values, t)); }
  }

  lemma Regroup2(a: string, b: string, c: string)
    ensures a + b + " " + c + " }; }" == a + (b + " " + c + " }; }")
  {
  }

  /** Of two lines between others, the first that names a set is read. */
  lemma AroundRead(before: seq<string>, x: string, y: string, after: seq<string>, name: string)
    requires name != "" && forall i :: 0 <= i < |before| ==> !Has(before[i], name)
    ensures Find(x, name) < |x| ==> ReadSet(Around(before, x, y, after), name) == ReadLine(x)
    ensures !Has(x, name) && Find(y, name) < |y| ==> ReadSet(Around(before, x, y, after), name) == ReadLine(y)
  {
    hide Has, Find, ReadLine;
    var rest := [x] + ([y] + after);
    assert Around(before, x, y, after) == before + rest;
    Skipped(before, rest, name);
    assert rest[0] == x && rest[1..] == [y] + after && ([y] + after)[0] == y;
    if Find(x, name) < |x| { FindHas(x, name); }
  }

  /** Of the lines around the two sets, the one of each name is read. */
  lemma ShownRead(before: seq<string>, v4: seq<string>, v6: seq<string>, t: string, after: seq<string>)
    requires Silent(before) && Calm(t) && Solid(t) && 'w' !in t && Addresses(v4) && Addresses(v6)
    ensures ReadSet(Shown(before, v4, v6, t, after), FIRST4) == Expected(v4, t)
    ensures ReadSet(Shown(before, v4, v6, t, after), FIRST6) == Expected(v6, t)
  {
    hide Listed, Has, Find, ReadLine, ReadSet, Calm, Solid, Around, Expected;
    OtherAbsent(t, v4);
    ListedRead(FIRST4, KIND4, t, v4);
    ListedRead(FIRST6, KIND6, t, v6);
    DeclaresFound(FIRST4, KIND4, t, v4);
    DeclaresFound(FIRST6, KIND6, t, v6);
    var l4, l6 := Listed(FIRST4, KIND4, t, v4), Listed(FIRST6, KIND6, t, v6);
    AroundRead(before, l4, l6, after, FIRST4);
    AroundRead(before, l4, l6, after, FIRST6);
  }

  lemma SoughtSolid(ttl: int)
    ensures Solid(Sought(ttl))
  {
    var d := if ttl <= 0 then HOUR else ttl;
    var unit := if d % HOUR == 0 then HOUR else if d % MINUTE == 0 then MINUTE else SECOND;
    var q := Quotient(d, unit);
    DigitsPlain(q);
    assert Sought(ttl)[..|Digits(q)|] == Digits(q);
    assert forall k :: 0 <= k < |Digits(q)| ==> Sought(ttl)[k] == Digits(q)[k];
  }

  /**
   The candidate's firewall file, split into lines and read, gives exactly the resolved addresses, in order,
   each with the declared lifetime; every other file, and every other line of that one, is as it was.
   */
  lemma CandidateReads(files: seq<File>, v4: seq<string>, v6: seq<string>, ttl: int, before: seq<string>,
      after: seq<string>)
    requires Silent(before) && Silent(after) && Addresses(v4) && Addresses(v6) && ttl >= 0
    requires FirewallAt(files) < |files|
    requires files[FirewallAt(files)].data == Join(Shown(before, [], [], Declared(ttl), after))
    ensures var r := Candidate(files, v4, v6, ttl); var i := FirewallAt(files);
      && r.Some? && |r.value| == |files|
      && (forall j :: 0 <= j < |files| && j != i ==> r.value[j] == files[j])
      && r.value[i] == files[i].(data := r.value[i].data)
      && var lines := Split(r.value[i].data);
      && ReadSet(lines, FIRST4) == Expected(v4, Declared(ttl))
      && ReadSet(lines, FIRST6) == Expected(v6, Declared(ttl))
      && |lines| == |before| + 2 + |after| && lines[..|before|] == before && lines[|before| + 2..] == after
  {
    hide Has, Split, Listed, Calm, Solid, Addresses, Declared, Sought, FirewallAt, Join, Spliced, Quiet, Silent;
    var t := Declared(ttl);
    DeclarationFound(ttl);
    SoughtCalm(ttl);
    SoughtSolid(ttl);
    SplicedShown(before, v4, v6, ttl, after);
    ShownMentions(before, v4, v6, t, after);
    DeclarationQuiet(FIRST4, KIND4, t, v4) by { assert Addresses(v4); AllPrinted(v4); }
    DeclarationQuiet(FIRST6, KIND6, t, v6) by { assert Addresses(v6); AllPrinted(v6); }
    AroundLines(before, Listed(FIRST4, KIND4, t, v4), Listed(FIRST6, KIND6, t, v6), after);
    SplitJoin(Shown(before, v4, v6, t, after));
    ShownRead(before, v4, v6, t, after);
  }

  lemma AllPrinted(values: seq<string>)
    requires Addresses(values)
    ensures forall i :: 0 <= i < |values| ==> Printed(values[i])
  {
  }

  /** Without a firewall file, or with one that mentions neither set, there is no candidate. */
  lemma CandidateRefuses(files: seq<File>, v4: seq<string>, v6: seq<string>, ttl: int)
    requires
      || (forall i :: 0 <= i < |files| ==> Base(files[i].path) != "firewall.nft")
      || (FirewallAt(files) < |files|
          && !Has(files[FirewallAt(files)].data, "ddns_whitelist_v4") && !Has(files[FirewallAt(files)].data, FIRST6))
    ensures Candidate(files, v4, v6, ttl).None?
  {
    var i := FirewallAt(files);
    if i < |files| {
      var text, t := files[i].data, Sought(ttl);
      DeclarationsNameSets(text, t);
      hide Has, Base, Declare4, Declare6, WithElements;
      if !Has(text, SET4) && !Has(text, FIRST6) {
        ReplaceAbsent(text, Declare4(t), WithElements(Declare4(t), v4, t));
        ReplaceAbsent(text, Declare6(t), WithElements(Declare6(t), v6, t));
      }
    }
  }

  lemma DeclarationsNameSets(text: string, t: string)
    ensures Has(text, Declare4(t)) ==> Has(text, SET4)
    ensures Has(text, Declare6(t)) ==> Has(text, FIRST6)
  {
    hide Has;
    DeclarationAbsent(text, t);
    if Has(text, FIRST4) { HasPart(text, "set ", SET4, " "); }
  }

  /** One rendered firewall file named, spliced and finalized under `g`, as it is stored. */
  lemma StoredFileReads(f: File, d: Generation, g: Generation, v4: seq<string>, v6: seq<string>, ttl: int,
      before: seq<string>, after: seq<string>)
    requires Silent(before) && Silent(after) && Renders(f, ttl, before, after) && Base(f.path) == FIREWALL
    requires Usable(Base(f.path)) && Addresses(v4) && Addresses(v6) && ttl >= 0 && IsHash(d) && IsHash(g)
    ensures var lines := Split(Final(Embedded(Final(f, d), v4, v6, ttl), g).data);
      ReadSet(lines, FIRST4) == Expected(v4, Declared(ttl)) && ReadSet(lines, FIRST6) == Expected(v6, Declared(ttl))
  {
    var t := Declared(ttl);
    FinalFields(f, d);
    FinalBase(f, d);
    var e := Embedded(Final(f, d), v4, v6, ttl);
    FinalFields(e, g);
    RestorableParts(f.data, before, t, after);
    DeclarationFound(ttl);
    SoughtCalm(ttl);
    SoughtSolid(ttl);
    hide Silent, Restorable, Addresses, Shown, Normal, Named, Spliced, Base, Calm, Solid, Final, Seam, Has, Join, Split,
        Sought, Declared, Quiet;
    TextCycle(before, after, v4, v6, ttl, d, g);
    NamedJoin(Shown(before, v4, v6, t, after), g);
    ShownNormal(before, v4, v6, t, after, g);
    SilentNamed(before, g);
    SilentNamed(after, g);
    ShownLines(NamedLines(before, g), v4, v6, t, NamedLines(after, g));
    SplitJoin(Shown(NamedLines(before, g), v4, v6, t, NamedLines(after, g)));
    ShownRead(NamedLines(before, g), v4, v6, t, NamedLines(after, g));
  }

  lemma ShownLines(before: seq<string>, v4: seq<string>, v6: seq<string>, t: string, after: seq<string>)
    requires Silent(before) && Silent(after) && Calm(t) && Addresses(v4) && Addresses(v6)
    ensures Lines(Shown(before, v4, v6, t, after))
  {
    DeclarationQuiet(FIRST4, KIND4, t, v4);
    DeclarationQuiet(FIRST6, KIND6, t, v6);
    hide Listed, Calm, Quiet, Silent;
    AroundLines(before, Listed(FIRST4, KIND4, t, v4), Listed(FIRST6, KIND6, t, v6), after);
  }

  /**
   So the generation that an apply stores for a rendered configuration holds, in its firewall file, exactly the
   resolved addresses, in order, each with the declared lifetime.
   */
  lemma StoredReads(c: Coding, rendered: seq<File>, v4: seq<string>, v6: seq<string>, ttl: int,
      before: seq<string>, after: seq<string>, i: nat)
    requires Hashes(c) && Finalize(c, rendered, true).Some? && Rendered(rendered, ttl, before, after)
    requires Addresses(v4) && Addresses(v6) && ttl >= 0
    requires i < |rendered| && Base(rendered[i].path) == FIREWALL
    ensures
      var named := Finalize(c, rendered, true).value.1;
      var spliced := Candidate(named, v4, v6, ttl);
      && spliced.Some? && Finalize(c, spliced.value, true).Some?
      && var out := Finalize(c, spliced.value, true).value.1;
      && |out| == |rendered| && Base(out[i].path) == FIREWALL
      && var lines := Split(out[i].data);
      ReadSet(lines, FIRST4) == Expected(v4, Declared(ttl)) && ReadSet(lines, FIRST6) == Expected(v6, Declared(ttl))
  {
    hide Base, Silent, Addresses, Renders, Spliced, Candidate, Final, Distinct, Finalize, Split, ReadSet, Embedded;
    CandidateMade(c, rendered, v4, v6, ttl, before, after);
    FinalizedParts(c, rendered, true);
    var (d, named) := Finalize(c, rendered, true).value;
    var spliced := Each(named, (f: File) => Embedded(f, v4, v6, ttl));
    FinalizedParts(c, spliced, true);
    var (g, out) := Finalize(c, spliced, true).value;
    StoredFileReads(rendered[i], d, g, v4, v6, ttl, before, after);
    EmbeddedBase(named[i], v4, v6, ttl);
  }

  lemma EmbeddedBase(f: File, v4: seq<string>, v6: seq<string>, ttl: int)
    ensures Embedded(f, v4, v6, ttl).path == f.path
  {
  }

  // ---------- lifetimes ----------

  function UnitOf(unit: char): int {
    match unit case 'h' => 3600_000_000_000 case 'm' => 60_000_000_000 case _ => 1_000_000_000
  }

  lemma NumberRead(digits: string, n: nat, unit: char)
    requires digits != "" && Digit(digits[0]) && Number(digits) == n
    ensures ReadDuration(digits + [unit]) == n * UnitOf(unit)
    ensures ReadDuration("-" + digits + [unit]) == -(n * UnitOf(unit))
  {
    hide Number;
    var s, t := digits + [unit], "-" + digits + [unit];
    assert s[..|s| - 1] == digits && t[1..|t| - 1] == digits;
    assert s[|s| - 1] == t[|t| - 1] == unit;
    assert t[0] == '-' && s[0] == digits[0];
  }

  lemma Negated(n: int, unit: int)
    ensures -(n * unit) == -n * unit
  {
  }

  lemma DecimalRead(q: int, unit: char)
    ensures ReadDuration(Decimal(q) + [unit]) == q * UnitOf(unit)
  {
    hide Digits, Number, ReadDuration, UnitOf;
    var n := if q < 0 then -q else q;
    DigitsPlain(n);
    DigitsRead(n);
    NumberRead(Digits(n), n, unit);
    Negated(n, UnitOf(unit));
  }

  lemma QuotientTimes(d: int, size: int, k: int)
    requires 0 < size && 0 < k && d % (k * size) == 0
    ensures Quotient(d, k * size) * (k * size) == Quotient(d, size) * size == d
  {
    Divides(d, k * size);
    Multiple(d, d / (k * size), k, size);
    Divides(d, size);
  }

  lemma Multiple(d: int, q: int, k: int, size: int)
    requires 0 < size && d == q * (k * size)
    ensures d % size == 0
  {
    assert d == (q * k) * size;
    Remainderless(d, q * k, size);
  }

  lemma Remainderless(d: int, q: int, size: int)
    requires 0 < size && d == q * size
    ensures d % size == 0
  {
    var r, e := d % size, d / size;
    assert d == e * size + r;
    assert r == (q - e) * size;
    Multiples(q - e, size);
  }

  lemma Multiples(k: int, size: int)
    requires 0 < size
    ensures k >= 1 ==> k * size >= size
    ensures k <= -1 ==> k * size <= -size
  {
  }

  lemma Divides(d: int, size: int)
    requires 0 < size && d % size == 0
    ensures d == d / size * size && Quotient(d, size) * size == d
  {
    if d < 0 {
      assert d == d / size * size;
      Remainderless(-d, -(d / size), size);
      assert -d == -d / size * size;
    }
  }

  /** The text of a lifetime denotes it, down to whole seconds. */
  lemma DurationReads(d: int)
    ensures ReadDuration(NftDuration(d)) == Quotient(d, SECOND) * SECOND
    ensures d % SECOND == 0 ==> ReadDuration(NftDuration(d)) == d
  {
    hide ReadDuration, Quotient;
    if d % HOUR == 0 {
      DecimalRead(Quotient(d, HOUR), 'h');
      QuotientTimes(d, SECOND, 3600);
    } else if d % MINUTE == 0 {
      DecimalRead(Quotient(d, MINUTE), 'm');
      QuotientTimes(d, SECOND, 60);
    } else {
      DecimalRead(Quotient(d, SECOND), 's');
      if d % SECOND == 0 { Divides(d, SECOND); }
    }
  }

  /** The renderer's default lifetime is an hour. */
  lemma DefaultReads()
    ensures ReadDuration(Declared(0)) == 3600_000_000_000
  {
    DurationReads(HOUR);
  }
}
