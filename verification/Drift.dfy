/**
 DDNS drift: resolved addresses are spliced into the firewall text of a candidate, and taken out
 again to recover the name the operator's configuration alone would have.
 */
module Drift {
  import opened Common
  import opened Text
  import opened Identity
  import opened Sorting

  // ---------- durations ----------

  const SECOND := 1_000_000_000
  const MINUTE := 60 * SECOND
  const HOUR := 60 * MINUTE

  /** Division that truncates toward zero. */
  function Quotient(d: int, unit: int): int
    requires 0 < unit
  {
    if d >= 0 then d / unit else -(-d / unit)
  }

  /** A duration in nanoseconds in the largest unit that divides it. */
  function NftDuration(d: int): string {
    if d % HOUR == 0 then Decimal(Quotient(d, HOUR)) + "h"
    else if d % MINUTE == 0 then Decimal(Quotient(d, MINUTE)) + "m"
    else Decimal(Quotient(d, SECOND)) + "s"
  }

  /** What the renderer declares: an absent lifetime is an hour. */
  function Declared(ttl: int): string {
    NftDuration(if ttl == 0 then HOUR else ttl)
  }

  /** What the splice looks for: a lifetime that is not positive is an hour. */
  function Sought(ttl: int): string {
    NftDuration(if ttl <= 0 then HOUR else ttl)
  }

  /** The splice finds the declaration exactly when the lifetime is not negative. */
  lemma DeclarationFound(ttl: int)
    ensures Sought(ttl) == Declared(ttl) <==> ttl >= 0
  {
    if ttl < 0 {
      assert Sought(ttl) == Digits(1) + "h" == "1h";
      NegativeDeclared(ttl);
    }
  }

  lemma NegativeDeclared(ttl: int)
    requires ttl < 0
    ensures Declared(ttl) != "" && (Declared(ttl)[0] == '-' || Declared(ttl)[0] == '0')
  {
    var unit := if ttl % HOUR == 0 then HOUR else if ttl % MINUTE == 0 then MINUTE else SECOND;
    var q := Quotient(ttl, unit);
    assert q <= 0;
    assert Decimal(q)[0] == '-' || Decimal(q)[0] == '0';
  }

  // ---------- names, line by line ----------

  ghost predicate OneLine(pre: string, form: Form) {
    '\n' !in pre && 0 < |pre| && (form.AnyHash? || '\n' !in form.text)
  }

  /** A match lies within one line. */
  lemma MatchesLine(a: string, b: string, pre: string, form: Form)
    requires OneLine(pre, form)
    ensures Matches(a + "\n" + b, pre, form) <==> Matches(a, pre, form)
  {
    var s := a + "\n" + b;
    var w := |pre| + Width(form);
    if w <= |a| {
      assert s[..w] == a[..w];
      MatchesSame(a, s, pre, form);
    } else {
      assert s[|a|] == '\n';
      NoMatchOver(s, pre, form, 0, |a|);
      assert s[0..] == s;
    }
  }

  /** Rewriting works line by line. */
  lemma {:induction false} RewriteAcross(a: string, b: string, pre: string, form: Form, to: string)
    requires OneLine(pre, form)
    ensures Rewrite(a + "\n" + b, pre, form, to) == Rewrite(a, pre, form, to) + "\n" + Rewrite(b, pre, form, to)
    decreases |a|
  {
    hide Rewrite;
    var s := a + "\n" + b;
    var w := |pre| + Width(form);
    MatchesLine(a, b, pre, form);
    if Matches(a, pre, form) {
      AtMatch(a, pre, form, to);
      AtMatch(s, pre, form, to);
      assert s[w..] == a[w..] + "\n" + b;
      RewriteAcross(a[w..], b, pre, form, to);
    } else {
      AtOther(s, pre, form, to);
      if a == "" {
        AtEnd(pre, form, to);
        assert s[1..] == b;
      } else {
        AtOther(a, pre, form, to);
        assert s[1..] == a[1..] + "\n" + b;
        RewriteAcross(a[1..], b, pre, form, to);
      }
    }
  }

  function RewriteLines(ls: seq<string>, pre: string, form: Form, to: string): (r: seq<string>)
    ensures |r| == |ls|
  {
    seq(|ls|, i requires 0 <= i < |ls| => Rewrite(ls[i], pre, form, to))
  }

  lemma {:induction false} RewriteJoin(ls: seq<string>, pre: string, form: Form, to: string)
    requires OneLine(pre, form)
    ensures Rewrite(Join(ls), pre, form, to) == Join(RewriteLines(ls, pre, form, to))
  {
    var r := RewriteLines(ls, pre, form, to);
    if |ls| > 1 {
      RewriteJoin(ls[1..], pre, form, to);
      RewriteAcross(ls[0], Join(ls[1..]), pre, form, to);
      assert r[1..] == RewriteLines(ls[1..], pre, form, to);
    }
  }

  lemma NamesOneLine()
    ensures OneLine(PATH, AnyHash) && OneLine(PATH, Exactly(HOLE))
    ensures OneLine(MARK, AnyHash) && OneLine(MARK, Exactly(HOLE))
  {
  }

  function NormalLines(ls: seq<string>): (r: seq<string>)
    ensures |r| == |ls|
  {
    seq(|ls|, i requires 0 <= i < |ls| => Normal(ls[i], NAMES))
  }

  function NamedLines(ls: seq<string>, g: Generation): (r: seq<string>)
    ensures |r| == |ls|
  {
    seq(|ls|, i requires 0 <= i < |ls| => Named(ls[i], NAMES, g))
  }

  lemma NormalJoin(ls: seq<string>)
    ensures Normal(Join(ls), NAMES) == Join(NormalLines(ls))
  {
    NamesOneLine();
    RewriteJoin(ls, PATH, AnyHash, HOLE);
    var r := RewriteLines(ls, PATH, AnyHash, HOLE);
    RewriteJoin(r, MARK, AnyHash, HOLE);
    assert RewriteLines(r, MARK, AnyHash, HOLE) == NormalLines(ls);
  }

  lemma NamedJoin(ls: seq<string>, g: Generation)
    ensures Named(Join(ls), NAMES, g) == Join(NamedLines(ls, g))
  {
    NamesOneLine();
    RewriteJoin(ls, PATH, Exactly(HOLE), g);
    var r := RewriteLines(ls, PATH, Exactly(HOLE), g);
    RewriteJoin(r, MARK, Exactly(HOLE), g);
    assert RewriteLines(r, MARK, Exactly(HOLE), g) == NamedLines(ls, g);
  }

  // ---------- the splice ----------

  const SET4 := "ddns_whitelist_v4"
  const FIRST4 := "set " + SET4 + " "
  const FIRST6 := "set ddns_whitelist_v6 "
  const LIST := " elements = {"
  const INDENT := "    "

  const KIND4 := "{ type ipv4_addr; flags " + "timeout; timeout "
  const KIND6 := "{ type ipv6_addr; flags interval, " + "timeout; timeout "

  function Head(first: string, kind: string, timeout: string): string {
    first + kind + timeout + ";"
  }

  function Declare4(timeout: string): string {
    Head(FIRST4, KIND4, timeout) + " }"
  }

  function Declare6(timeout: string): string {
    Head(FIRST6, KIND6, timeout) + " }"
  }

  /** The addresses with their lifetimes, separated by commas. */
  function Timed(values: seq<string>, timeout: string): string {
    if values == [] then ""
    else if |values| == 1 then values[0] + " timeout " + timeout
    else values[0] + " timeout " + timeout + ", " + Timed(values[1..], timeout)
  }

  predicate EndsWith(s: string, t: string) {
    |t| <= |s| && s[|s| - |t|..] == t
  }

  function TrimSuffix(s: string, t: string): string {
    if EndsWith(s, t) then s[..|s| - |t|] else s
  }

  function WithElements(declaration: string, values: seq<string>, timeout: string): string {
    if values == [] then declaration
    else TrimSuffix(declaration, " }") + LIST + " " + Timed(values, timeout) + " }; }"
  }

  /** The first occurrence of `was` replaced. */
  function ReplaceFirst(s: string, was: string, to: string): string {
    if Matches(s, was, Exactly("")) then to + s[|was|..]
    else if s == "" then ""
    else [s[0]] + ReplaceFirst(s[1..], was, to)
  }

  function Spliced(text: string, v4: seq<string>, v6: seq<string>, ttl: int): string {
    var t := Sought(ttl);
    var text4 := ReplaceFirst(text, Declare4(t), WithElements(Declare4(t), v4, t));
    ReplaceFirst(text4, Declare6(t), WithElements(Declare6(t), v6, t))
  }

  const FIREWALL := "firewall.nft"

  /** The first file named like the firewall, or the number of files. */
  function FirewallAt(files: seq<File>): (i: nat)
    ensures i <= |files|
    ensures i < |files| ==> Base(files[i].path) == FIREWALL
    ensures forall j :: 0 <= j < i ==> Base(files[j].path) != FIREWALL
  {
    if files == [] || Base(files[0].path) == FIREWALL then 0 else 1 + FirewallAt(files[1..])
  }

  /** The candidate with its firewall file spliced; nothing without such a file or without DDNS sets. */
  function Candidate(files: seq<File>, v4: seq<string>, v6: seq<string>, ttl: int): Option<seq<File>> {
    var i := FirewallAt(files);
    if i == |files| then None
    else
      var text := Spliced(files[i].data, v4, v6, ttl);
      if Has(text, SET4) then Some(files[i := files[i].(data := text)]) else None
  }

  method EmbedCandidate(files: seq<File>, v4: seq<string>, v6: seq<string>, ttl: int) returns (r: Option<seq<File>>)
    ensures r == Candidate(files, v4, v6, ttl)
  {
    hide ReplaceFirst, Has, Base;
    for i := 0 to |files|
      invariant forall j :: 0 <= j < i ==> Base(files[j].path) != FIREWALL
    {
      if Base(files[i].path) != FIREWALL { continue; }
      assert FirewallAt(files) == i;
      var t := Sought(ttl);
      var text := files[i].data;
      text := ReplaceFirst(text, Declare4(t), WithElements(Declare4(t), v4, t));
      text := ReplaceFirst(text, Declare6(t), WithElements(Declare6(t), v6, t));
      if !Has(text, SET4) { return None; }
      return Some(files[i := files[i].(data := text)]);
    }
    return None;
  }

  /** A DDNS set's line loses its elements; any other line stays. */
  function StripLine(line: string): string {
    var start := First(line, LIST, Exactly(""));
    if (Has(line, FIRST4) || Has(line, FIRST6)) && start < |line| && EndsWith(line, " }; }")
    then line[..start] + " }"
    else line
  }

  function StripLines(ls: seq<string>): (r: seq<string>)
    ensures |r| == |ls|
  {
    seq(|ls|, i requires 0 <= i < |ls| => StripLine(ls[i]))
  }

  function Stripped(text: string): string {
    Join(StripLines(Split(text)))
  }

  method StripElements(text: string) returns (r: string)
    ensures r == Stripped(text)
  {
    var lines := Split(text);
    hide Has, First, Split;
    for i := 0 to |lines|
      invariant |lines| == |Split(text)|
      invariant forall j :: 0 <= j < i ==> lines[j] == StripLine(Split(text)[j])
      invariant forall j :: i <= j < |lines| ==> lines[j] == Split(text)[j]
    {
      var line := lines[i];
      if Has(line, FIRST4) || Has(line, FIRST6) {
        var start := First(line, LIST, Exactly(""));
        if start < |line| && EndsWith(line, " }; }") {
          lines := lines[i := line[..start] + " }"];
        }
      }
    }
    assert lines == StripLines(Split(text));
    return Join(lines);
  }

  // ---------- splicing, line by line ----------

  /** The first line that holds `was` has it replaced. */
  function ReplaceLines(ls: seq<string>, was: string, to: string): seq<string> {
    if ls == [] then []
    else if Has(ls[0], was) then [ReplaceFirst(ls[0], was, to)] + ls[1..]
    else [ls[0]] + ReplaceLines(ls[1..], was, to)
  }

  lemma ReplaceFront(s: string, was: string, to: string)
    requires Matches(s, was, Exactly(""))
    ensures |was| <= |s| && ReplaceFirst(s, was, to) == to + s[|was|..]
  {
  }

  lemma ReplaceNext(s: string, was: string, to: string)
    requires s != "" && !Matches(s, was, Exactly(""))
    ensures ReplaceFirst(s, was, to) == [s[0]] + ReplaceFirst(s[1..], was, to)
  {
  }

  /** A text that holds another holds it at its front or after its first character. */
  lemma HasNext(s: string, t: string)
    ensures s != "" ==> (Has(s, t) <==> Matches(s, t, Exactly("")) || Has(s[1..], t))
    ensures Has(s, t) ==> |t| <= |s|
  {
    assert s[0..] == s;
    if s != "" {
      forall k | 0 <= k <= |s[1..]| ensures s[1..][k..] == s[k + 1..] {
      }
      if k :| 0 <= k <= |s| && Matches(s[k..], t, Exactly("")) && 0 < k {
        assert s[k..] == s[1..][k - 1..];
      }
    }
  }

  lemma {:induction false} ReplaceHere(a: string, b: string, was: string, to: string)
    requires Has(a, was)
    ensures ReplaceFirst(a + b, was, to) == ReplaceFirst(a, was, to) + b
  {
    HasNext(a, was);
    hide Has, ReplaceFirst;
    if Matches(a, was, Exactly("")) {
      ReplaceFront(a, was, to);
      MatchesLonger(a, b, was, Exactly(""));
      ReplaceFront(a + b, was, to);
      assert (a + b)[|was|..] == a[|was|..] + b;
    } else if a != "" {
      assert (a + b)[..|was|] == a[..|was|];
      MatchesSame(a, a + b, was, Exactly(""));
      ReplaceNext(a, was, to);
      ReplaceNext(a + b, was, to);
      assert (a + b)[1..] == a[1..] + b;
      ReplaceHere(a[1..], b, was, to);
    } else {
      HasNothing(was);
    }
  }

  lemma HasNothing(t: string)
    ensures Has("", t) ==> Matches("", t, Exactly(""))
  {
    assert ""[0..] == "";
  }

  lemma {:induction false} ReplaceLater(a: string, b: string, was: string, to: string)
    requires !Has(a, was) && was != "" && '\n' !in was
    ensures ReplaceFirst(a + "\n" + b, was, to) == a + "\n" + ReplaceFirst(b, was, to)
    decreases |a|
  {
    var s := a + "\n" + b;
    NotAcross(a, b, was);
    HasNext(a, was);
    hide Has, ReplaceFirst, Matches;
    ReplaceNext(s, was, to);
    if a == "" {
      assert s[1..] == b;
    } else {
      assert s[1..] == a[1..] + "\n" + b;
      ReplaceLater(a[1..], b, was, to);
    }
  }

  lemma NotAcross(a: string, b: string, was: string)
    requires !Has(a, was) && '\n' !in was && was != ""
    ensures !Matches(a + "\n" + b, was, Exactly(""))
  {
    var s := a + "\n" + b;
    assert a[0..] == a && s[0..] == s;
    if |was| <= |a| {
      assert s[..|was|] == a[..|was|];
      MatchesSame(a, s, was, Exactly(""));
    } else {
      NoMatchOver(s, was, Exactly(""), 0, |a|);
    }
  }

  lemma {:induction false} ReplaceJoin(ls: seq<string>, was: string, to: string)
    requires was != "" && '\n' !in was
    ensures ReplaceFirst(Join(ls), was, to) == Join(ReplaceLines(ls, was, to))
  {
    if ls == [] {
      ReplaceAbsent("", was, to);
    } else if |ls| == 1 {
      if !Has(ls[0], was) { ReplaceAbsent(ls[0], was, to); }
    } else {
      ReplaceJoin(ls[1..], was, to);
      ReplaceFirstLine(ls[0], Join(ls[1..]), was, to);
      hide ReplaceFirst, Has;
    }
  }

  lemma ReplaceFirstLine(a: string, b: string, was: string, to: string)
    requires was != "" && '\n' !in was
    ensures ReplaceFirst(a + "\n" + b, was, to) ==
            if Has(a, was) then ReplaceFirst(a, was, to) + "\n" + b else a + "\n" + ReplaceFirst(b, was, to)
  {
    hide ReplaceFirst, Has;
    if Has(a, was) {
      ReplaceHere(a, "\n" + b, was, to);
      assert a + ("\n" + b) == a + "\n" + b;
    } else {
      ReplaceLater(a, b, was, to);
    }
  }

  lemma {:induction false} ReplaceAbsent(a: string, was: string, to: string)
    requires !Has(a, was)
    ensures ReplaceFirst(a, was, to) == a
  {
    assert a[0..] == a;
    assert !Matches(a[0..], was, Exactly(""));
    if a != "" {
      HasNext(a, was);
      hide Has;
      ReplaceAbsent(a[1..], was, to);
    }
  }

  lemma {:induction false} ReplaceAmong(before: seq<string>, line: string, after: seq<string>, was: string, to: string)
    requires Has(line, was) && forall i :: 0 <= i < |before| ==> !Has(before[i], was)
    ensures ReplaceLines(before + [line] + after, was, to) == before + [ReplaceFirst(line, was, to)] + after
  {
    var ls := before + [line] + after;
    if before == [] {
      assert ls[0] == line && ls[1..] == after;
    } else {
      assert ls[0] == before[0] && ls[1..] == before[1..] + [line] + after;
      ReplaceAmong(before[1..], line, after, was, to);
    }
  }

  // ---------- the declarations' lines ----------

  /** The text of an address or prefix without a zone. */
  predicate Printed(v: string) {
    forall k :: 0 <= k < |v| ==>
      Hex(v[k]) || v[k] == ':' || v[k] == '.' || (v[k] == '/' && DigitNext(v, k))
  }

  predicate DigitNext(v: string, k: nat) {
    k + 1 < |v| && Digit(v[k + 1])
  }

  /** No name can stand in such a text. */
  predicate Quiet(s: string) {
    && (forall k :: 0 <= k < |s| ==> s[k] != '-' && s[k] != '\n')
    && (forall k :: 0 <= k < |s| && s[k] == '/' ==> SafeNext(s, k))
  }

  predicate SafeNext(s: string, k: nat) {
    k + 1 < |s| && s[k + 1] != 'v'
  }

  predicate Calm(s: string) {
    forall k :: 0 <= k < |s| ==> s[k] != '-' && s[k] != '\n' && s[k] != '/' && s[k] != '='
  }

  lemma QuietJoined(a: string, b: string)
    requires Quiet(a) && Quiet(b)
    ensures Quiet(a + b)
  {
    var s := a + b;
    forall k | 0 <= k < |s| && s[k] == '/' ensures SafeNext(s, k) {
      if k < |a| {
        assert SafeNext(a, k);
      } else {
        assert SafeNext(b, k - |a|);
      }
    }
  }

  /** A quiet text holds no name and no placeholder, so names pass it by. */
  lemma QuietUnnamed(s: string, g: Generation)
    requires Quiet(s)
    ensures Normal(s, NAMES) == s && Named(s, NAMES, g) == s
  {
    QuietFree(s, AnyHash);
    QuietFree(s, Exactly(HOLE));
    FreeUnchanged(s, PATH, AnyHash, HOLE);
    FreeUnchanged(s, MARK, AnyHash, HOLE);
    FreeUnchanged(s, PATH, Exactly(HOLE), g);
    FreeUnchanged(s, MARK, Exactly(HOLE), g);
  }

  lemma QuietFree(s: string, form: Form)
    requires Quiet(s)
    ensures Free(s, PATH, form) && Free(s, MARK, form)
  {
    PathLetters();
    MarkLetters();
    assert MARK[7] == '-';
    hide Letters;
    forall k | 0 <= k <= |s| ensures !Matches(s[k..], PATH, form) && !Matches(s[k..], MARK, form) {
      if k + 7 < |s| {
        NoMatchAt(s, MARK, form, k, 7);
        assert s[k] == '/' ==> SafeNext(s, k);
        if s[k] == '/' { NoMatchAt(s, PATH, form, k, 1); } else { NoMatchAt(s, PATH, form, k, 0); }
      }
    }
  }

  // ---------- one name in a quiet text ----------

  lemma FrontRewritten(pre: string, x: string, b: string, form: Form, to: string)
    requires 0 < |pre| && |x| == Width(form) && Fills(form, x) && Free(b, pre, form)
    ensures Rewrite(pre + x + b, pre, form, to) == pre + to + b
  {
    var t := pre + x + b;
    assert t[..|pre|] == pre && t[|pre|..|pre| + |x|] == x && t[|pre| + |x|..] == b;
    AtMatch(t, pre, form, to);
    FreeUnchanged(b, pre, form, to);
  }

  lemma Tail3(a: string, b: string, c: string, d: string)
    ensures a + b + c + d == a + (b + c + d) && (a + (b + c + d))[|a|..] == b + c + d && (a + (b + c + d))[..|a|] == a
  {
  }

  lemma RewrittenOnce(a: string, pre: string, x: string, b: string, form: Form, to: string)
    requires 0 < |pre| && |x| == Width(form) && Fills(form, x) && Free(b, pre, form)
    requires var s := a + pre + x + b; forall k :: 0 <= k < |a| ==> !Matches(s[k..], pre, form)
    ensures Rewrite(a + pre + x + b, pre, form, to) == a + pre + to + b
  {
    hide Rewrite, Matches, Free, Fills;
    CopyPrefix(a + pre + x + b, pre, form, to, |a|);
    FrontRewritten(pre, x, b, form, to);
    Tail3(a, pre, x, b);
    Tail3(a, pre, to, b);
  }

  /** What stands for a name, or is one. */
  predicate NameLike(x: string) {
    '-' !in x && '/' !in x
  }

  lemma Dashes()
    ensures '-' !in PATH && MARK[7] == '-' && '-' !in MARK[..7] && |MARK| == 40 && |PATH| == 29
    ensures NameLike(HOLE)
  {
    MarkLetters();
    PathLetters();
    assert '-' !in "/var/lib" && '-' !in "/cnftctl" && '-' !in "/generations/";
    assert MARK[..7] == "cnftctl";
  }

  lemma OnceOnPath(a: string, x: string, b: string, form: Form)
    requires Quiet(a) && Quiet(b) && NameLike(x)
    ensures var s := a + PATH + x + b;
      (forall k :: 0 <= k < |a| ==> !Matches(s[k..], PATH, form)) && Free(s, MARK, form)
  {
    var s := a + PATH + x + b;
    Dashes();
    PathLetters();
    hide Letters;
    assert forall k :: 0 <= k < |s| ==> s[k] != '-';
    forall k | 0 <= k < |a| ensures !Matches(s[k..], PATH, form) {
      if a[k] == '/' {
        assert SafeNext(a, k);
        NoMatchAt(s, PATH, form, k, 1);
      } else {
        NoMatchAt(s, PATH, form, k, 0);
      }
    }
    forall k | 0 <= k <= |s| ensures !Matches(s[k..], MARK, form) {
      if k + 7 < |s| { NoMatchAt(s, MARK, form, k, 7); }
    }
  }

  lemma OnceOnMark(a: string, x: string, b: string, form: Form)
    requires Quiet(a) && Quiet(b) && NameLike(x)
    ensures var s := a + MARK + x + b;
      (forall k :: 0 <= k < |a| ==> !Matches(s[k..], MARK, form)) && Free(s, PATH, form)
  {
    var s := a + MARK + x + b;
    Dashes();
    PathLetters();
    MarkLetters();
    assert '/' !in MARK;
    hide Letters;
    forall k | 0 <= k < |a| ensures !Matches(s[k..], MARK, form) {
      assert s[k + 7] != '-' by { if k + 7 >= |a| { assert s[k + 7] == MARK[..7][k + 7 - |a|]; } }
      NoMatchAt(s, MARK, form, k, 7);
    }
    var n := |a| + |MARK| + |x|;
    forall k | 0 <= k <= |s| ensures !Matches(s[k..], PATH, form) {
      if k + 1 < |s| {
        if k < |a| && a[k] == '/' {
          assert SafeNext(a, k);
          NoMatchAt(s, PATH, form, k, 1);
        } else if n <= k && s[k] == '/' {
          assert s[k] == b[k - n] && SafeNext(b, k - n);
          NoMatchAt(s, PATH, form, k, 1);
        } else {
          NoMatchAt(s, PATH, form, k, 0);
        }
      }
    }
  }

  /** In an otherwise quiet text, a name's one place is filled after either prefix, and emptied again. */
  lemma OneNamed(a: string, b: string, g: Generation)
    requires Quiet(a) && Quiet(b) && IsHash(g)
    ensures Named(a + PATH + HOLE + b, NAMES, g) == a + PATH + g + b
    ensures Named(a + MARK + HOLE + b, NAMES, g) == a + MARK + g + b
    ensures Normal(a + PATH + g + b, NAMES) == a + PATH + HOLE + b
    ensures Normal(a + MARK + g + b, NAMES) == a + MARK + HOLE + b
  {
    Dashes();
    HoleLetters();
    assert NameLike(g);
    OnceRewritten(a, b, HOLE, Exactly(HOLE), g);
    OnceRewritten(a, b, g, AnyHash, HOLE);
  }

  lemma OnceRewritten(a: string, b: string, x: string, form: Form, to: string)
    requires Quiet(a) && Quiet(b) && NameLike(x) && NameLike(to) && |x| == Width(form) && Fills(form, x)
    ensures var s := a + PATH + x + b; Rewrite(Rewrite(s, PATH, form, to), MARK, form, to) == a + PATH + to + b
    ensures var s := a + MARK + x + b; Rewrite(Rewrite(s, PATH, form, to), MARK, form, to) == a + MARK + to + b
  {
    QuietFree(b, form);
    OnceOnPath(a, x, b, form);
    OnceOnPath(a, to, b, form);
    OnceOnMark(a, x, b, form);
    Dashes();
    hide Matches, Free, Fills, Quiet, NameLike;
    RewrittenOnce(a, PATH, x, b, form, to);
    FreeUnchanged(a + PATH + to + b, MARK, form, to);
    FreeUnchanged(a + MARK + x + b, PATH, form, to);
    RewrittenOnce(a, MARK, x, b, form, to);
  }

  lemma PrintedQuiet(v: string)
    requires Printed(v)
    ensures Quiet(v)
  {
    forall k | 0 <= k < |v| && v[k] == '/' ensures SafeNext(v, k) {
      assert DigitNext(v, k);
    }
  }

  lemma {:induction false} TimedQuiet(values: seq<string>, t: string)
    requires Quiet(t) && forall i :: 0 <= i < |values| ==> Printed(values[i])
    ensures Quiet(Timed(values, t))
  {
    if values != [] {
      PrintedQuiet(values[0]);
      assert Quiet(" timeout ") && Quiet(", ");
      QuietJoined(values[0], " timeout ");
      QuietJoined(values[0] + " timeout ", t);
      if |values| > 1 {
        QuietJoined(values[0] + " timeout " + t, ", ");
        TimedQuiet(values[1..], t);
        QuietJoined(values[0] + " timeout " + t + ", ", Timed(values[1..], t));
      }
    }
  }

  lemma SoughtCalm(ttl: int)
    ensures Calm(Sought(ttl)) && 'w' !in Sought(ttl)
  {
    var d := if ttl <= 0 then HOUR else ttl;
    var unit := if d % HOUR == 0 then HOUR else if d % MINUTE == 0 then MINUTE else SECOND;
    var q := Quotient(d, unit);
    DigitsPlain(q);
    assert Sought(ttl)[..|Digits(q)|] == Digits(q);
    assert forall k :: 0 <= k < |Digits(q)| ==> Sought(ttl)[k] == Digits(q)[k];
  }

  /** The declaration of a set, on its line, and what the splice makes of that line. */
  function Plainly(first: string, kind: string, t: string): string {
    INDENT + Head(first, kind, t) + " }"
  }

  function Listed(first: string, kind: string, t: string, values: seq<string>): string {
    if values == [] then Plainly(first, kind, t)
    else INDENT + Head(first, kind, t) + LIST + " " + Timed(values, t) + " }; }"
  }

  ghost predicate Declares(first: string, kind: string) {
    (first == FIRST4 && kind == KIND4) || (first == FIRST6 && kind == KIND6)
  }

  lemma FirstCalm()
    ensures Calm(FIRST4) && Calm(FIRST6)
  {
  }

  lemma KindCalm()
    ensures Calm(KIND4)
    ensures Calm(KIND6)
  {
    KindWords();
    CalmJoined("{ type ipv4_addr; flags ", "timeout; timeout ");
    CalmJoined("{ type ipv6_addr; flags interval, ", "timeout; timeout ");
  }

  lemma KindWords()
    ensures Calm("{ type ipv4_addr; flags ")
    ensures Calm("{ type ipv6_addr; flags interval, ")
    ensures Calm("timeout; timeout ")
  {
    assert Calm("{ type ipv4_addr; flags ");
    assert Calm("timeout; timeout ");
  }

  lemma HeadCalm(first: string, kind: string, t: string)
    requires Declares(first, kind) && Calm(t)
    ensures Calm(INDENT + Head(first, kind, t)) && |INDENT| == 4
  {
    FirstCalm();
    KindCalm();
    assert Calm(first) && Calm(kind);
    hide Declares;
    assert Calm(INDENT) && Calm(";");
    assert Calm(first + kind);
    assert Calm(first + kind + t);
    assert Calm(first + kind + t + ";");
  }

  /** Names pass a set's line by, with or without elements. */
  lemma DeclarationQuiet(first: string, kind: string, t: string, values: seq<string>)
    requires Declares(first, kind) && Calm(t) && forall i :: 0 <= i < |values| ==> Printed(values[i])
    ensures Quiet(Listed(first, kind, t, values))
  {
    HeadCalm(first, kind, t);
    var h := INDENT + Head(first, kind, t);
    assert Quiet(h) && Quiet(t);
    hide Head;
    if values == [] {
      assert Quiet(" }");
      QuietJoined(h, " }");
      assert Plainly(first, kind, t) == h + " }";
    } else {
      TimedQuiet(values, t);
      assert Quiet(LIST + " ") && Quiet(" }; }");
      QuietJoined(h, LIST + " ");
      QuietJoined(h + (LIST + " "), Timed(values, t));
      QuietJoined(h + (LIST + " ") + Timed(values, t), " }; }");
      assert h + (LIST + " ") + Timed(values, t) + " }; }" == h + LIST + " " + Timed(values, t) + " }; }";
    }
  }

  lemma ListAt(h: string, rest: string)
    requires Calm(h)
    ensures First(h + LIST + rest, LIST, Exactly("")) == |h|
  {
    var s := h + LIST + rest;
    assert |LIST| == 13 && LIST[10] == '=' && forall k :: 0 <= k < 10 ==> LIST[k] != '=';
    forall q | 0 <= q < |h| ensures !Matches(s[q..], LIST, Exactly("")) {
      assert s[q + 10] != '=' by {
        if q + 10 < |h| { assert s[q + 10] == h[q + 10]; } else { assert s[q + 10] == LIST[q + 10 - |h|]; }
      }
      NoMatchAt(s, LIST, Exactly(""), q, 10);
    }
    var t := s[|h|..];
    assert t == LIST + rest;
    assert t[..13] == LIST && t[13..13] == "";
    assert Matches(s[|h|..], LIST, Exactly(""));
  }

  lemma HasMiddle(a: string, t: string, b: string)
    ensures Has(a + t + b, t)
  {
    var s := a + t + b;
    assert s[|a|..] == t + b;
    assert s[|a|..][..|t|] == t;
    assert Matches(s[|a|..], t, Exactly(""));
  }

  lemma HeadNamesSet(first: string, kind: string, t: string, rest: string)
    ensures Has(INDENT + Head(first, kind, t) + rest, first)
  {
    HasMiddle(INDENT, first, kind + t + ";" + rest);
    assert INDENT + Head(first, kind, t) + rest == INDENT + first + (kind + t + ";" + rest);
  }

  /** Stripping a spliced line gives the declaration back. */
  lemma StripListed(first: string, kind: string, t: string, values: seq<string>)
    requires Declares(first, kind) && Calm(t)
    ensures StripLine(Listed(first, kind, t, values)) == Plainly(first, kind, t)
  {
    HeadCalm(first, kind, t);
    var h := INDENT + Head(first, kind, t);
    assert Calm(" }");
    hide Head, Has, First, Timed, Calm;
    if values == [] {
      CalmJoined(h, " }");
      NoList(h + " }");
    } else {
      StripHead(first, kind, t, Timed(values, t));
    }
  }

  lemma StripHead(first: string, kind: string, t: string, list: string)
    requires Declares(first, kind) && Calm(INDENT + Head(first, kind, t))
    ensures StripLine(INDENT + Head(first, kind, t) + LIST + " " + list + " }; }")
         == INDENT + Head(first, kind, t) + " }"
  {
    var h := INDENT + Head(first, kind, t);
    var rest := " " + list + " }; }";
    HeadNamesSet(first, kind, t, LIST + rest);
    Regrouped(h, list);
    hide Head, Has, Calm;
    StripAt(h, " " + list);
  }

  lemma Regrouped(h: string, list: string)
    ensures h + (LIST + (" " + list + " }; }")) == h + LIST + " " + list + " }; }"
    ensures h + LIST + (" " + list + " }; }") == h + LIST + " " + list + " }; }"
  {
    var tail := " }; }";
    assert h + (LIST + (" " + list + tail)) == h + LIST + " " + list + tail;
    assert h + LIST + (" " + list + tail) == h + LIST + " " + list + tail;
  }

  lemma StripAt(h: string, list: string)
    requires Calm(h) && var s := h + LIST + (list + " }; }"); Has(s, FIRST4) || Has(s, FIRST6)
    ensures StripLine(h + LIST + (list + " }; }")) == h + " }"
  {
    var tail := " }; }";
    ListAt(h, list + tail);
    hide Has, First, Calm;
    EndsJoined(h + LIST, list, tail);
    assert (h + LIST + (list + tail))[..|h|] == h;
  }

  lemma EndsJoined(a: string, b: string, t: string)
    ensures EndsWith(a + (b + t), t)
  {
    var s := a + (b + t);
    assert s[|s| - |t|..] == t;
  }

  lemma CalmJoined(a: string, b: string)
    requires Calm(a) && Calm(b)
    ensures Calm(a + b)
  {
  }

  lemma NoList(s: string)
    requires Calm(s)
    ensures StripLine(s) == s
  {
    var j := First(s, LIST, Exactly(""));
    assert LIST[10] == '=';
    if j < |s| {
      NeedsOwn(s[j..], LIST, Exactly(""), 10);
    }
  }

  // ---------- what the splice does to the two lines ----------

  lemma ReplaceWhole(was: string, to: string)
    ensures ReplaceFirst(was, was, to) == to
  {
    assert was[..|was|] == was && was[|was|..] == "";
    assert Matches(was, was, Exactly(""));
  }

  lemma {:induction false} ReplaceIndented(a: string, was: string, to: string)
    requires was != "" && was[0] !in a
    ensures ReplaceFirst(a + was, was, to) == a + to
  {
    var s := a + was;
    hide ReplaceFirst, Matches;
    if a == "" {
      assert s == was;
      ReplaceWhole(was, to);
    } else {
      ReplaceNext(s, was, to) by { assert s[0] == a[0] && s[0..] == s; NoMatchAt(s, was, Exactly(""), 0, 0); }
      assert s[1..] == a[1..] + was;
      ReplaceIndented(a[1..], was, to);
    }
  }

  lemma DeclarationReplaced(first: string, kind: string, t: string, values: seq<string>)
    requires Declares(first, kind) && Calm(t)
    ensures
      var was := Head(first, kind, t) + " }";
      && was != "" && '\n' !in was && Has(Plainly(first, kind, t), was)
      && ReplaceFirst(Plainly(first, kind, t), was, WithElements(was, values, t)) == Listed(first, kind, t, values)
  {
    var h := Head(first, kind, t);
    DeclarationText(first, kind, t);
    ElementsText(h, values, t);
    hide Head, Has, Timed, Calm, WithElements;
    ReplaceOnLine(INDENT, h + " }", WithElements(h + " }", values, t));
  }

  lemma ReplaceOnLine(indent: string, was: string, to: string)
    requires was != "" && was[0] !in indent
    ensures Has(indent + was, was) && ReplaceFirst(indent + was, was, to) == indent + to
  {
    ReplaceIndented(indent, was, to);
    HasMiddle(indent, was, "");
    assert indent + was + "" == indent + was;
  }

  /** A declaration with elements, on its line. */
  lemma ElementsText(h: string, values: seq<string>, t: string)
    ensures INDENT + (h + " }") == INDENT + h + " }"
    ensures INDENT + WithElements(h + " }", values, t) ==
            if values == [] then INDENT + h + " }" else INDENT + h + LIST + " " + Timed(values, t) + " }; }"
  {
    SuffixTrimmed(h, " }");
    if values != [] {
      FourParts(INDENT, h, LIST + " ", Timed(values, t), " }; }");
      assert h + (LIST + " ") == h + LIST + " ";
      assert INDENT + h + (LIST + " ") == INDENT + h + LIST + " ";
    }
  }

  lemma SuffixTrimmed(h: string, t: string)
    ensures TrimSuffix(h + t, t) == h
  {
    assert (h + t)[|h|..] == t && (h + t)[..|h|] == h;
  }

  lemma FourParts(a: string, b: string, c: string, d: string, e: string)
    ensures a + (b + c + d + e) == a + b + c + d + e
  {
  }

  lemma DeclarationText(first: string, kind: string, t: string)
    requires Declares(first, kind) && Calm(t)
    ensures
      var was := Head(first, kind, t) + " }";
      was != "" && '\n' !in was && was[0] !in INDENT
  {
    FirstCalm();
    KindCalm();
    assert Calm(first) && Calm(kind);
    assert first[0] == 's';
  }

  lemma HasLonger(s: string, t: string, more: string)
    requires Has(s, t + more)
    ensures Has(s, t)
  {
    var k :| 0 <= k <= |s| && Matches(s[k..], t + more, Exactly(""));
    assert s[k..][..|t|] == s[k..][..|t + more|][..|t|];
    assert Matches(s[k..], t, Exactly(""));
  }

  lemma {:induction false} TimedLetters(values: seq<string>, t: string)
    requires 'w' !in t && forall i :: 0 <= i < |values| ==> Printed(values[i])
    ensures 'w' !in Timed(values, t)
  {
    if values != [] {
      assert 'w' !in values[0];
      if |values| > 1 { TimedLetters(values[1..], t); }
    }
  }

  /** The line of the one set does not mention the other. */
  lemma OtherAbsent(t: string, values: seq<string>)
    requires Calm(t) && 'w' !in t && forall i :: 0 <= i < |values| ==> Printed(values[i])
    ensures !Has(Listed(FIRST4, KIND4, t, values), FIRST6)
  {
    hide Has, Printed, Calm, Timed;
    var p := INDENT + FIRST4;
    var q := Rest4(t, values);
    ListedRest(t, values);
    RestLetters(t, values);
    FirstLetters();
    OtherAt(p + q, p, q);
  }

  function Rest4(t: string, values: seq<string>): string {
    if values == [] then KIND4 + t + ";" + " }" else KIND4 + t + ";" + LIST + " " + Timed(values, t) + " }; }"
  }

  lemma ListedRest(t: string, values: seq<string>)
    ensures Listed(FIRST4, KIND4, t, values) == INDENT + FIRST4 + Rest4(t, values)
  {
    hide Timed;
    MovedOut(INDENT, FIRST4, KIND4, t, ";");
    if values == [] {
      assert INDENT + FIRST4 + (KIND4 + t + ";") + " }" == INDENT + FIRST4 + (KIND4 + t + ";" + " }");
    } else {
      MovedIn(INDENT + FIRST4, KIND4 + t + ";", LIST, Timed(values, t), " }; }");
    }
  }

  lemma MovedOut(a: string, b: string, c: string, d: string, e: string)
    ensures a + (b + c + d + e) == a + b + (c + d + e)
  {
  }

  lemma MovedIn(a: string, b: string, c: string, d: string, e: string)
    ensures a + b + c + " " + d + e == a + (b + c + " " + d + e)
  {
  }

  lemma RestLetters(t: string, values: seq<string>)
    requires 'w' !in t && forall i :: 0 <= i < |values| ==> Printed(values[i])
    ensures 'w' !in Rest4(t, values)
  {
    TimedLetters(values, t);
    KindLetters();
    hide Timed, Printed;
  }

  lemma KindLetters()
    ensures 'w' !in KIND4 && 'w' !in LIST
  {
  }

  lemma FirstLetters()
    ensures |INDENT + FIRST4| == 26 && |FIRST6| == 22
    ensures FIRST6[9] == 'w' && FIRST6[20] == '6' && (INDENT + FIRST4)[24] == '4'
    ensures forall k :: 0 <= k < 26 && (INDENT + FIRST4)[k] == 'w' ==> k == 13
  {
  }

  lemma OtherAt(s: string, p: string, q: string)
    requires s == p + q && 'w' !in q && |p| == 26 && |FIRST6| == 22
    requires FIRST6[9] == 'w' && FIRST6[20] == '6' && p[24] == '4'
    requires forall k :: 0 <= k < 26 && p[k] == 'w' ==> k == 13
    ensures !Has(s, FIRST6)
  {
    forall k | 0 <= k <= |s| ensures !Matches(s[k..], FIRST6, Exactly("")) {
      if k + 22 <= |s| {
        if k == 4 {
          NoMatchAt(s, FIRST6, Exactly(""), k, 20);
        } else {
          assert s[k + 9] != 'w' by {
            if k + 9 < 26 { assert s[k + 9] == p[k + 9]; } else { assert s[k + 9] == q[k + 9 - 26]; }
          }
          NoMatchAt(s, FIRST6, Exactly(""), k, 9);
        }
      }
    }
  }

  // ---------- the firewall text through the whole cycle ----------

  /** Lines that do not mention the DDNS sets. */
  ghost predicate Silent(ls: seq<string>) {
    forall i :: 0 <= i < |ls| ==> '\n' !in ls[i] && !Has(ls[i], FIRST4) && !Has(ls[i], FIRST6)
  }

  ghost predicate Addresses(values: seq<string>) {
    forall i :: 0 <= i < |values| ==> Printed(values[i])
  }

  /** The firewall's lines, with these addresses in its two sets. */
  function Shown(before: seq<string>, v4: seq<string>, v6: seq<string>, t: string, after: seq<string>): seq<string> {
    Around(before, Listed(FIRST4, KIND4, t, v4), Listed(FIRST6, KIND6, t, v6), after)
  }

  function Around(before: seq<string>, x: string, y: string, after: seq<string>): seq<string> {
    before + [x] + ([y] + after)
  }

  lemma NormalAround(before: seq<string>, x: string, y: string, after: seq<string>, g: Generation)
    ensures NormalLines(Around(before, x, y, after))
         == Around(NormalLines(before), Normal(x, NAMES), Normal(y, NAMES), NormalLines(after))
    ensures NamedLines(Around(before, x, y, after), g)
         == Around(NamedLines(before, g), Named(x, NAMES, g), Named(y, NAMES, g), NamedLines(after, g))
  {
    hide Normal, Named;
  }

  lemma StrippedAround(before: seq<string>, x: string, y: string, after: seq<string>)
    ensures StripLines(Around(before, x, y, after))
         == Around(StripLines(before), StripLine(x), StripLine(y), StripLines(after))
  {
    hide StripLine;
  }

  /** Two declarations on consecutive lines are replaced in turn. */
  lemma ReplacedAround(before: seq<string>, x: string, y: string, after: seq<string>, wx: string, x': string,
      wy: string, y': string)
    requires wx != "" && '\n' !in wx && wy != "" && '\n' !in wy
    requires Has(x, wx) && Has(y, wy)
    requires forall i :: 0 <= i < |before| ==> !Has(before[i], wx) && !Has(before[i], wy)
    requires !Has(ReplaceFirst(x, wx, x'), wy)
    ensures ReplaceFirst(ReplaceFirst(Join(Around(before, x, y, after)), wx, x'), wy, y')
         == Join(Around(before, ReplaceFirst(x, wx, x'), ReplaceFirst(y, wy, y'), after))
  {
    hide Has, ReplaceFirst, Join;
    var e := ReplaceFirst(x, wx, x');
    ReplaceJoin(Around(before, x, y, after), wx, x');
    ReplaceAmong(before, x, [y] + after, wx, x');
    ReplaceJoin(Around(before, e, y, after), wy, y');
    assert Around(before, e, y, after) == (before + [e]) + [y] + after;
    ReplaceAmong(before + [e], y, after, wy, y');
    assert (before + [e]) + [ReplaceFirst(y, wy, y')] + after == Around(before, e, ReplaceFirst(y, wy, y'), after);
  }

  lemma SplicedShown(before: seq<string>, v4: seq<string>, v6: seq<string>, ttl: int, after: seq<string>)
    requires Silent(before) && Addresses(v4)
    ensures
      var t := Sought(ttl);
      Spliced(Join(Shown(before, [], [], t, after)), v4, v6, ttl) == Join(Shown(before, v4, v6, t, after))
  {
    var t := Sought(ttl);
    SoughtCalm(ttl);
    OtherAbsent(t, v4);
    var l4, l6 := Plainly(FIRST4, KIND4, t), Plainly(FIRST6, KIND6, t);
    var e4, e6 := Listed(FIRST4, KIND4, t, v4), Listed(FIRST6, KIND6, t, v6);
    DeclarationReplaced(FIRST4, KIND4, t, v4);
    DeclarationReplaced(FIRST6, KIND6, t, v6);
    DeclarationsAbsent(before, t);
    DeclarationAbsent(e4, t);
    NothingListed(t);
    hide Listed, Plainly, Head, WithElements, ReplaceFirst, Has, Calm, Sought, Silent, Around, Join;
    var w4, w6 := Declare4(t), Declare6(t);
    ReplacedAround(before, l4, l6, after, w4, WithElements(w4, v4, t), w6, WithElements(w6, v6, t));
  }

  lemma DeclarationAbsent(line: string, t: string)
    ensures !Has(line, FIRST4) ==> !Has(line, Declare4(t))
    ensures !Has(line, FIRST6) ==> !Has(line, Declare6(t))
  {
    assert Declare4(t) == FIRST4 + (KIND4 + t + ";" + " }");
    assert Declare6(t) == FIRST6 + (KIND6 + t + ";" + " }");
    hide Has, Head;
    if Has(line, Declare4(t)) { HasLonger(line, FIRST4, KIND4 + t + ";" + " }"); }
    if Has(line, Declare6(t)) { HasLonger(line, FIRST6, KIND6 + t + ";" + " }"); }
  }

  lemma DeclarationsAbsent(ls: seq<string>, t: string)
    requires Silent(ls)
    ensures forall i :: 0 <= i < |ls| ==> !Has(ls[i], Declare4(t)) && !Has(ls[i], Declare6(t))
  {
    forall i | 0 <= i < |ls| ensures !Has(ls[i], Declare4(t)) && !Has(ls[i], Declare6(t)) {
      DeclarationAbsent(ls[i], t);
    }
  }

  lemma ShownNormal(before: seq<string>, v4: seq<string>, v6: seq<string>, t: string, after: seq<string>, g: Generation)
    requires Calm(t) && Addresses(v4) && Addresses(v6)
    ensures NormalLines(Shown(before, v4, v6, t, after)) == Shown(NormalLines(before), v4, v6, t, NormalLines(after))
    ensures NamedLines(Shown(before, v4, v6, t, after), g) == Shown(NamedLines(before, g), v4, v6, t,
        NamedLines(after, g))
  {
    var e4, e6 := Listed(FIRST4, KIND4, t, v4), Listed(FIRST6, KIND6, t, v6);
    DeclarationQuiet(FIRST4, KIND4, t, v4);
    DeclarationQuiet(FIRST6, KIND6, t, v6);
    QuietUnnamed(e4, g);
    QuietUnnamed(e6, g);
    hide Listed, Normal, Named, Calm, Quiet, Around, NormalLines, NamedLines, Addresses;
    NormalAround(before, e4, e6, after, g);
  }

  lemma StrippedShown(before: seq<string>, v4: seq<string>, v6: seq<string>, t: string, after: seq<string>)
    requires Silent(before) && Silent(after) && Calm(t) && Addresses(v4) && Addresses(v6)
    ensures Stripped(Join(Shown(before, v4, v6, t, after))) == Join(Shown(before, [], [], t, after))
  {
    var e4, e6 := Listed(FIRST4, KIND4, t, v4), Listed(FIRST6, KIND6, t, v6);
    DeclarationQuiet(FIRST4, KIND4, t, v4);
    DeclarationQuiet(FIRST6, KIND6, t, v6);
    StripListed(FIRST4, KIND4, t, v4);
    StripListed(FIRST6, KIND6, t, v6);
    NothingListed(t);
    hide Listed, Plainly, Calm, Addresses;
    AroundLines(before, e4, e6, after);
    hide Has, Split, Quiet;
    SplitJoin(Around(before, e4, e6, after));
    StrippedAround(before, e4, e6, after);
    SilentStrip(before);
    SilentStrip(after);
  }

  lemma AroundLines(before: seq<string>, x: string, y: string, after: seq<string>)
    requires Silent(before) && Silent(after) && Quiet(x) && Quiet(y)
    ensures Lines(Around(before, x, y, after))
  {
    hide Has;
  }

  lemma SilentStrip(ls: seq<string>)
    requires Silent(ls)
    ensures StripLines(ls) == ls
  {
    hide Has;
  }

  lemma NothingListed(t: string)
    ensures Listed(FIRST4, KIND4, t, []) == Plainly(FIRST4, KIND4, t)
    ensures Listed(FIRST6, KIND6, t, []) == Plainly(FIRST6, KIND6, t)
  {
  }

  /** Names written into silent lines leave them silent. */
  lemma SilentNamed(ls: seq<string>, g: Generation)
    requires Silent(ls) && IsHash(g)
    ensures Silent(NamedLines(ls, g))
  {
    forall i | 0 <= i < |ls|
      ensures '\n' !in Named(ls[i], NAMES, g) && !Has(Named(ls[i], NAMES, g), FIRST4)
          && !Has(Named(ls[i], NAMES, g), FIRST6)
    {
      LineNamed(ls[i], g);
    }
  }

  lemma LineNamed(l: string, g: Generation)
    requires IsHash(g) && '\n' !in l && !Has(l, FIRST4) && !Has(l, FIRST6)
    ensures '\n' !in Named(l, NAMES, g) && !Has(Named(l, NAMES, g), FIRST4) && !Has(Named(l, NAMES, g), FIRST6)
  {
    var form := Exactly(HOLE);
    var m := Rewrite(l, PATH, form, g);
    NamesOneLine();
    CharacterKept(l, PATH, form, g, '\n');
    CharacterKept(m, MARK, form, g, '\n');
    FirstMarks();
    FirstKept(l, FIRST4, g);
    FirstKept(l, FIRST6, g);
  }

  lemma FirstKept(l: string, first: string, g: Generation)
    requires IsHash(g) && !Has(l, first) && first != "" && first[0] == 's' && '/' !in first && ':' !in first
    ensures !Has(Named(l, NAMES, g), first)
  {
    PathLetters();
    MarkLetters();
    hide Letters;
    var m := Rewrite(l, PATH, Exactly(HOLE), g);
    AbsentKept(l, PATH, Exactly(HOLE), g, first);
    AbsentKept(m, MARK, Exactly(HOLE), g, first);
    hide Rewrite, Matches;
    assert Free(Named(l, NAMES, g), first, Exactly(""));
  }

  lemma FirstMarks()
    ensures FIRST4[0] == FIRST6[0] == 's' && ':' !in FIRST4 && ':' !in FIRST6 && '/' !in FIRST4 && '/' !in FIRST6
  {
  }

  ghost predicate Restorable(ls: seq<string>) {
    forall i :: 0 <= i < |ls| ==> Clean(ls[i], NAMES) && !Seam(ls[i], NAMES)
  }

  lemma LinesBack(ls: seq<string>, g: Generation)
    requires Restorable(ls) && IsHash(g)
    ensures NormalLines(NamedLines(ls, g)) == ls
    ensures NormalLines(ls) == ls
  {
    NamesSuit();
    hide Suitable;
    forall i | 0 <= i < |ls| ensures Normal(Named(ls[i], NAMES, g), NAMES) == ls[i] && Normal(ls[i], NAMES) == ls[i] {
      RoundTrip(ls[i], NAMES, g);
      CleanIsNormal(ls[i], NAMES);
    }
  }

  lemma {:induction false} InJoin(ls: seq<string>, i: nat, t: string)
    requires i < |ls| && Has(ls[i], t)
    ensures Has(Join(ls), t)
  {
    if |ls| > 1 {
      var k :| 0 <= k <= |ls[i]| && Matches(ls[i][k..], t, Exactly(""));
      var rest := Join(ls[1..]);
      if i == 0 {
        MatchesLonger(ls[0][k..], "\n" + rest, t, Exactly(""));
        assert Join(ls)[k..] == ls[0][k..] + ("\n" + rest);
      } else {
        InJoin(ls[1..], i - 1, t);
        var j :| 0 <= j <= |rest| && Matches(rest[j..], t, Exactly(""));
        assert Join(ls)[|ls[0]| + 1 + j..] == rest[j..];
      }
    }
  }

  lemma ShownMentions(before: seq<string>, v4: seq<string>, v6: seq<string>, t: string, after: seq<string>)
    ensures Has(Join(Shown(before, v4, v6, t, after)), SET4)
  {
    var l := Listed(FIRST4, KIND4, t, v4);
    ListedMentions(v4, t);
    hide Has, Listed;
    assert Shown(before, v4, v6, t, after)[|before|] == l;
    InJoin(Shown(before, v4, v6, t, after), |before|, SET4);
  }

  lemma ListedMentions(values: seq<string>, t: string)
    ensures Has(Listed(FIRST4, KIND4, t, values), SET4)
  {
    var h := INDENT + Head(FIRST4, KIND4, t);
    var rest := if values == [] then " }" else LIST + " " + Timed(values, t) + " }; }";
    HeadNamesSet(FIRST4, KIND4, t, rest);
    hide Head, Has;
    assert Listed(FIRST4, KIND4, t, values) == h + rest;
    HasPart(h + rest, "set ", SET4, " ");
  }

  lemma HasPart(s: string, a: string, t: string, b: string)
    requires Has(s, a + t + b)
    ensures Has(s, t)
  {
    var k :| 0 <= k <= |s| && Matches(s[k..], a + t + b, Exactly(""));
    MatchesPart(s[k..], a, t, b);
    hide Matches;
    assert s[k..][|a|..] == s[k + |a|..];
    assert Matches(s[k + |a|..], t, Exactly(""));
  }

  lemma MatchesPart(s: string, a: string, t: string, b: string)
    requires Matches(s, a + t + b, Exactly(""))
    ensures |a| <= |s| && Matches(s[|a|..], t, Exactly(""))
  {
    var n := |a| + |t|;
    assert s[..|a + t + b|][|a|..n] == t;
    assert s[..|a + t + b|][|a|..n] == s[|a|..][..|t|];
  }

  /**
   The whole cycle of the firewall text: named, spliced, normalized, named again and stored; read
   back, stripped and normalized, it is the text that was rendered.
   */
  lemma TextCycle(before: seq<string>, after: seq<string>, v4: seq<string>, v6: seq<string>, ttl: int,
      d: Generation, g: Generation)
    requires Silent(before) && Silent(after) && Restorable(before) && Restorable(after)
    requires Addresses(v4) && Addresses(v6) && ttl >= 0 && IsHash(d) && IsHash(g)
    ensures
      var e := Join(Shown(before, [], [], Declared(ttl), after));
      var spliced := Spliced(Named(e, NAMES, d), v4, v6, ttl);
      && Has(spliced, SET4)
      && Normal(spliced, NAMES) == Join(Shown(before, v4, v6, Declared(ttl), after))
      && Normal(Stripped(Named(Normal(spliced, NAMES), NAMES, g)), NAMES) == e
  {
    var t := Declared(ttl);
    DeclarationFound(ttl);
    SoughtCalm(ttl);
    SilentNamed(before, d);
    SilentNamed(before, g);
    SilentNamed(after, g);
    LinesBack(before, d);
    LinesBack(after, d);
    LinesBack(before, g);
    LinesBack(after, g);
    hide Declared, Sought, Silent, Restorable, Calm, Shown, Normal, Named, Stripped, Spliced, Join;
    var e := Shown(before, [], [], t, after);
    NamedJoin(e, d);
    ShownNormal(before, [], [], t, after, d);
    ShownMentions(NamedLines(before, d), v4, v6, t, NamedLines(after, d));
    SplicedShown(NamedLines(before, d), v4, v6, ttl, NamedLines(after, d));
    NormalJoin(Shown(NamedLines(before, d), v4, v6, t, NamedLines(after, d)));
    ShownNormal(NamedLines(before, d), v4, v6, t, NamedLines(after, d), d);
    NamedJoin(Shown(before, v4, v6, t, after), g);
    ShownNormal(before, v4, v6, t, after, g);
    StrippedShown(NamedLines(before, g), v4, v6, t, NamedLines(after, g));
    NormalJoin(Shown(NamedLines(before, g), [], [], t, NamedLines(after, g)));
    ShownNormal(NamedLines(before, g), [], [], t, NamedLines(after, g), g);
  }

  // ---------- the drift check ----------

  /** The active generation's files as its manifest lists them; nothing when one is unsafe or missing. */
  ghost function ReadBack(d: Directory, g: Generation, entries: seq<ManifestEntry>): Option<seq<File>> {
    if forall i :: 0 <= i < |entries| ==> Base(entries[i].path) == entries[i].path && entries[i].path in d.files
    then Some(seq(|entries|, i requires 0 <= i < |entries| => Reread(d, g, entries[i])))
    else None
  }

  function Reread(d: Directory, g: Generation, e: ManifestEntry): File
    requires e.path in d.files
  {
    File(PATH + g + "/" + e.path, e.mode, d.files[e.path].data)
  }

  function Restored(f: File): File {
    if Base(f.path) == FIREWALL then f.(data := Stripped(f.data)) else f
  }

  /**
   Whether the active generation is what the rendered files call for: with DDNS, after taking the
   resolved addresses out of it.
   */
  ghost function InSync(c: Coding, rendered: seq<File>, ddns: bool, active: Option<Generation>, d: Directory)
    : Option<bool>
  {
    match Finalize(c, rendered, ddns)
    case None => None
    case Some(desired) =>
      if active.None? then Some(false)
      else if !ddns then Some(active.value == desired.0)
      else if d.manifest.None? || d.manifest.value.version != 1 || !d.manifest.value.ddnsDesired then None
      else
        match ReadBack(d, active.value, d.manifest.value.files)
        case None => None
        case Some(files) =>
          match Finalize(c, Each(files, Restored), true)
          case None => None
          case Some(intent) => Some(intent.0 == desired.0)
  }

  method RenderedInSync(c: Coding, rendered: seq<File>, ddns: bool, active: Option<Generation>, d: Directory)
    returns (r: Option<bool>)
    ensures r == InSync(c, rendered, ddns, active, d)
  {
    hide Finalize, Base, Stripped;
    var desired := FinalizeFiles(c, rendered, ddns);
    if desired.None? { return None; }
    if active.None? { return Some(false); }
    if !ddns { return Some(active.value == desired.value.0); }
    if d.manifest.None? || d.manifest.value.version != 1 || !d.manifest.value.ddnsDesired { return None; }
    var entries := d.manifest.value.files;
    var files: seq<File> := [];
    for i := 0 to |entries|
      invariant |files| == i
      invariant forall j :: 0 <= j < i ==> Base(entries[j].path) == entries[j].path && entries[j].path in d.files
      invariant forall j :: 0 <= j < i ==> files[j] == Reread(d, active.value, entries[j])
    {
      var name := Base(entries[i].path);
      if name != entries[i].path || name !in d.files { return None; }
      files := files + [File(PATH + active.value + "/" + name, entries[i].mode, d.files[name].data)];
    }
    ghost var read := ReadBack(d, active.value, entries);
    assert read.Some? && |read.value| == |files| && forall j :: 0 <= j < |files| ==> read.value[j] == files[j];
    assert read.value == files;
    var intent := IntentName(c, files);
    if intent.None? { return None; }
    return Some(intent.value.0 == desired.value.0);
  }

  /** The name of files with the resolved addresses taken out. */
  method IntentName(c: Coding, files: seq<File>) returns (r: Option<(Generation, seq<File>)>)
    ensures r == Finalize(c, Each(files, Restored), true)
  {
    hide Finalize, Base, Stripped;
    var normalized := files;
    for i := 0 to |files|
      invariant |normalized| == |files|
      invariant forall j :: 0 <= j < i ==> normalized[j] == Restored(files[j])
      invariant forall j :: i <= j < |files| ==> normalized[j] == files[j]
    {
      if Base(normalized[i].path) == FIREWALL {
        var text := StripElements(normalized[i].data);
        normalized := normalized[i := normalized[i].(data := text)];
      }
    }
    assert normalized == Each(files, Restored);
    r := FinalizeFiles(c, normalized, true);
  }

  // ---------- applying is in sync ----------

  /** What the renderer produces for a configuration with DDNS. */
  ghost predicate Rendered(files: seq<File>, ttl: int, before: seq<string>, after: seq<string>) {
    && Silent(before) && Silent(after)
    && (forall i :: 0 <= i < |files| ==> Renders(files[i], ttl, before, after))
    && (exists i :: 0 <= i < |files| && Base(files[i].path) == FIREWALL)
  }

  ghost predicate Renders(f: File, ttl: int, before: seq<string>, after: seq<string>) {
    && Perm(f.mode) != 0 && Base(f.path) != RECORD && !Seam(Normal(f.data, NAMES), NAMES)
    && (Base(f.path) == FIREWALL ==> Normal(f.data, NAMES) == Join(Shown(before, [], [], Declared(ttl), after)))
  }

  /** The firewall file gets the addresses; the others stay. */
  function Embedded(f: File, v4: seq<string>, v6: seq<string>, ttl: int): File {
    if Base(f.path) == FIREWALL then f.(data := Spliced(f.data, v4, v6, ttl)) else f
  }

  /** One file through the whole cycle: named `d`, spliced, named `g`, stored, read back, stripped. */
  function Cycled(f: File, d: Generation, v4: seq<string>, v6: seq<string>, ttl: int, g: Generation): File {
    Back(Final(Embedded(Final(f, d), v4, v6, ttl), g), g)
  }

  /** A stored file as the drift check sees it. */
  function Back(f: File, g: Generation): File {
    Restored(File(PATH + g + "/" + Base(f.path), Perm(f.mode), f.data))
  }

  lemma {:induction false} LineOf(ls: seq<string>, i: nat) returns (a: string, b: string)
    requires i < |ls|
    ensures Join(ls) == a + ls[i] + b
  {
    if |ls| == 1 {
      a, b := "", "";
    } else if i == 0 {
      a, b := "", "\n" + Join(ls[1..]);
    } else {
      a, b := LineOf(ls[1..], i - 1);
      a := ls[0] + "\n" + a;
    }
  }

  /** Every line of a normalized text without a seam can be named and restored. */
  lemma RestorableLines(s: string, ls: seq<string>)
    requires Normal(s, NAMES) == Join(ls) && !Seam(Join(ls), NAMES)
    ensures Restorable(ls)
  {
    NamesSuit();
    NormalIsClean(s, NAMES);
    hide Suitable, Normal, Seam, Join, Free;
    forall i | 0 <= i < |ls| ensures Clean(ls[i], NAMES) && !Seam(ls[i], NAMES) {
      var a, b := LineOf(ls, i);
      FreeInside(a, ls[i], b, PATH, AnyHash);
      FreeInside(a, ls[i], b, MARK, AnyHash);
      if Seam(ls[i], NAMES) { SeamOutside(a, ls[i], b, NAMES); }
    }
  }

  lemma RestorableParts(s: string, before: seq<string>, t: string, after: seq<string>)
    requires Normal(s, NAMES) == Join(Shown(before, [], [], t, after)) && !Seam(Normal(s, NAMES), NAMES)
    ensures Restorable(before) && Restorable(after)
  {
    hide Normal, Seam, Join, Listed, Clean;
    var ls := Shown(before, [], [], t, after);
    RestorableLines(s, ls);
    assert forall i :: 0 <= i < |before| ==> ls[i] == before[i];
    assert forall i :: 0 <= i < |after| ==> ls[|before| + 2 + i] == after[i];
  }

  lemma CycledAlike(f: File, d: Generation, v4: seq<string>, v6: seq<string>, ttl: int, g: Generation,
      before: seq<string>, after: seq<string>)
    requires Silent(before) && Silent(after) && Renders(f, ttl, before, after) && Usable(Base(f.path))
    requires Addresses(v4) && Addresses(v6) && ttl >= 0 && IsHash(d) && IsHash(g)
    ensures Alike(f, Cycled(f, d, v4, v6, ttl, g))
    ensures Base(f.path) == FIREWALL ==> Has(Embedded(Final(f, d), v4, v6, ttl).data, SET4)
  {
    hide Silent, Restorable, Addresses;
    var e := Embedded(Final(f, d), v4, v6, ttl);
    CycledFields(f, d, v4, v6, ttl, g);
    FinalFields(f, d);
    if Base(f.path) == FIREWALL {
      hide Base, Named, Normal, Final, Has, Spliced, Stripped, Seam;
      RestorableParts(f.data, before, Declared(ttl), after);
      TextCycle(before, after, v4, v6, ttl, d, g);
    } else {
      hide Base, Named, Normal, Final;
      FinalAlike(f, d);
      FinalAlike(e, g);
      FinalFields(e, g);
    }
  }

  /** Names and modes through the cycle, and the text in terms of the spliced text. */
  lemma CycledFields(f: File, d: Generation, v4: seq<string>, v6: seq<string>, ttl: int, g: Generation)
    requires Usable(Base(f.path)) && Perm(f.mode) != 0
    ensures Base(Embedded(Final(f, d), v4, v6, ttl).path) == Base(f.path)
    ensures
      var x := Cycled(f, d, v4, v6, ttl, g);
      && Base(x.path) == Base(f.path) && Perm(x.mode) == Perm(f.mode)
      && var text := Named(Normal(Embedded(Final(f, d), v4, v6, ttl).data, NAMES), NAMES, g);
      x.data == if Base(f.path) == FIREWALL then Stripped(text) else text
  {
    FinalBase(f, d);
    FinalFields(f, d);
    var e := Embedded(Final(f, d), v4, v6, ttl);
    hide Final, Spliced, Stripped, Named, Normal, Base, Perm;
    StoredFields(e, g);
  }

  /** A finalized file read back from its directory has its name and permissions. */
  lemma StoredFields(e: File, g: Generation)
    requires Usable(Base(e.path)) && Perm(e.mode) != 0
    ensures
      var held := Final(e, g);
      var x := File(PATH + g + "/" + Base(held.path), Perm(held.mode), held.data);
      && Base(x.path) == Base(e.path) && Perm(x.mode) == Perm(e.mode)
      && x.data == Named(Normal(e.data, NAMES), NAMES, g)
  {
    BaseForm(e.path);
    FinalBase(e, g);
    FinalFields(e, g);
    ReadBase(Base(e.path), g);
    hide Final, Named, Normal, Base;
  }

  lemma FinalFields(f: File, g: Generation)
    ensures Final(f, g).mode == f.mode && Final(f, g).data == Named(Normal(f.data, NAMES), NAMES, g)
  {
  }

  lemma ReadBase(name: string, g: Generation)
    requires name != "" && '/' !in name
    ensures Base(PATH + g + "/" + name) == name && Base(name) == name
  {
    BaseMoved(PATH + g + "/", name);
    assert PATH + g + "/" + name == (PATH + g + "/") + name;
    LastAfter("/", name);
    LastWhole(name);
  }

  lemma {:induction false} LastWhole(name: string)
    requires '/' !in name
    ensures Last(name) == name
    decreases |name|
  {
    if name != "" {
      LastWhole(name[..|name| - 1]);
      assert name == name[..|name| - 1] + [name[|name| - 1]];
    }
  }

  lemma AcceptableSame(a: seq<File>, b: seq<File>)
    requires |a| == |b| && Acceptable(a) && forall i :: 0 <= i < |a| ==> Base(a[i].path) == Base(b[i].path)
    ensures Acceptable(b)
  {
    hide Base;
  }

  lemma FinalizesAcceptable(c: Coding, files: seq<File>, ddns: bool)
    requires Acceptable(files)
    ensures Finalize(c, files, ddns).Some?
  {
    hide Base, Normal;
    AcceptableSame(files, Each(files, Semantic));
  }

  lemma FinalizedParts(c: Coding, files: seq<File>, ddns: bool)
    requires Hashes(c) && Finalize(c, files, ddns).Some?
    ensures
      var (g, out) := Finalize(c, files, ddns).value;
      && IsHash(g) && Acceptable(files) && out == Each(files, (f: File) => Final(f, g))
      && forall i :: 0 <= i < |files| ==> Base(out[i].path) == Base(files[i].path)
  {
    var (g, out) := Finalize(c, files, ddns).value;
    FinalizedUsable(c, files, ddns);
    hide Base, Final, Normal, Distinct;
    forall i | 0 <= i < |files| ensures Base(out[i].path) == Base(files[i].path) {
      FinalBase(files[i], g);
    }
  }

  lemma CandidateEmbeds(named: seq<File>, v4: seq<string>, v6: seq<string>, ttl: int)
    requires Distinct(named) && FirewallAt(named) < |named|
    requires Has(Spliced(named[FirewallAt(named)].data, v4, v6, ttl), SET4)
    ensures Candidate(named, v4, v6, ttl) == Some(Each(named, (f: File) => Embedded(f, v4, v6, ttl)))
  {
    hide Candidate, Has, FirewallAt, Spliced, Base, Distinct, Each;
    var i := FirewallAt(named);
    CandidateAt(named, v4, v6, ttl);
    OnlyFirewallEmbeds(named, i, v4, v6, ttl);
  }

  lemma OnlyFirewallEmbeds(named: seq<File>, i: nat, v4: seq<string>, v6: seq<string>, ttl: int)
    requires Distinct(named) && i < |named| && Base(named[i].path) == FIREWALL
    ensures Each(named, (f: File) => Embedded(f, v4, v6, ttl))
        == named[i := named[i].(data := Spliced(named[i].data, v4, v6, ttl))]
  {
    OneFirewall(named, i);
    hide Base, Spliced, Distinct;
    EachAtOne(named, (f: File) => Embedded(f, v4, v6, ttl), i);
  }

  lemma CandidateAt(named: seq<File>, v4: seq<string>, v6: seq<string>, ttl: int)
    requires FirewallAt(named) < |named|
    requires Has(Spliced(named[FirewallAt(named)].data, v4, v6, ttl), SET4)
    ensures
      var i := FirewallAt(named);
      Candidate(named, v4, v6, ttl) == Some(named[i := named[i].(data := Spliced(named[i].data, v4, v6, ttl))])
  {
  }

  lemma OneFirewall(fs: seq<File>, i: nat)
    requires Distinct(fs) && i < |fs| && Base(fs[i].path) == FIREWALL
    ensures forall j :: 0 <= j < |fs| && j != i ==> Base(fs[j].path) != FIREWALL
  {
    hide Base;
    forall j | 0 <= j < |fs| && j != i ensures Base(fs[j].path) != Base(fs[i].path) {
    }
  }

  /** A change that leaves all files but one alone. */
  lemma EachAtOne(fs: seq<File>, k: File -> File, i: nat)
    requires i < |fs| && forall j :: 0 <= j < |fs| && j != i ==> k(fs[j]) == fs[j]
    ensures Each(fs, k) == fs[i := k(fs[i])]
  {
  }

  /** Every DDNS candidate that the renderer's files lead to, spliced and finalized. */
  lemma CandidateMade(c: Coding, rendered: seq<File>, v4: seq<string>, v6: seq<string>, ttl: int,
      before: seq<string>, after: seq<string>)
    requires Hashes(c) && Finalize(c, rendered, true).Some? && Rendered(rendered, ttl, before, after)
    requires Addresses(v4) && Addresses(v6) && ttl >= 0
    ensures
      var (d, named) := Finalize(c, rendered, true).value;
      && Acceptable(rendered)
      && Candidate(named, v4, v6, ttl) == Some(Each(named, (f: File) => Embedded(f, v4, v6, ttl)))
      && Finalize(c, Each(named, (f: File) => Embedded(f, v4, v6, ttl)), true).Some?
  {
    hide Finalize, Silent, Restorable, Addresses, Spliced, Has, Alike, Normal, Base, Final, Renders, Distinct;
    FinalizedParts(c, rendered, true);
    var (d, named) := Finalize(c, rendered, true).value;
    var spliced := Each(named, (f: File) => Embedded(f, v4, v6, ttl));
    forall i | 0 <= i < |rendered|
      ensures Base(spliced[i].path) == Base(rendered[i].path)
      ensures Base(rendered[i].path) == FIREWALL ==> Has(spliced[i].data, SET4)
    {
      CycledAlike(rendered[i], d, v4, v6, ttl, d, before, after);
    }
    AcceptableSame(rendered, named);
    AcceptableSame(rendered, spliced);
    FinalizesAcceptable(c, spliced, true);
    var w :| 0 <= w < |rendered| && Base(rendered[w].path) == FIREWALL;
    assert Base(named[w].path) == FIREWALL;
    CandidateEmbeds(named, v4, v6, ttl);
  }

  /** Reading back a written directory gives its files, in the manifest's order. */
  lemma ReadBackWritten(c: Coding, fs: seq<File>, ddns: bool, g: Generation)
    requires Acceptable(fs) && RECORD !in Names(fs)
    ensures
      var m := Manifest(1, Entries(c, fs), ddns);
      var read := ReadBack(Written(m, fs), g, m.files);
      && read.Some? && |read.value| == |fs|
      && forall i :: 0 <= i < |fs| ==> read.value[i] == File(PATH + g + "/" + Base(fs[i].path), Perm(fs[i].mode),
          fs[i].data)
  {
    WrittenFiles(fs, Manifest(1, Entries(c, fs), ddns));
    hide Written;
    forall i | 0 <= i < |fs| {
      EntryRead(c, fs, i, Written(Manifest(1, Entries(c, fs), ddns), fs), g);
    }
    hide Base, Filed, Names, Perm, Reread;
  }

  lemma WrittenFiles(fs: seq<File>, m: Manifest)
    requires Distinct(fs) && RECORD !in Names(fs)
    ensures Written(m, fs).files == Filed(fs)
  {
    FiledNames(fs);
    hide Base, Names, Distinct;
  }

  lemma EntryRead(c: Coding, fs: seq<File>, i: nat, d: Directory, g: Generation)
    requires Acceptable(fs) && i < |fs| && d.files == Filed(fs)
    ensures
      var e := Entries(c, fs)[i];
      && Base(e.path) == e.path && e.path in d.files
      && Reread(d, g, e) == File(PATH + g + "/" + Base(fs[i].path), Perm(fs[i].mode), fs[i].data)
  {
    FiledAt(fs, i);
    BaseForm(fs[i].path);
    assert Usable(Base(fs[i].path));
    ReadBase(Base(fs[i].path), g);
    hide Base, Filed, Perm, PATH, Distinct;
    assert Entries(c, fs)[i] == Entry(c, fs[i]);
  }

  /**
   Right after applying a configuration with DDNS, whatever addresses were resolved, the drift check
   finds the active generation in sync with that configuration.
   */
  lemma AppliedIsInSync(c: Coding, rendered: seq<File>, v4: seq<string>, v6: seq<string>, ttl: int,
      before: seq<string>, after: seq<string>)
    requires Hashes(c) && Finalize(c, rendered, true).Some? && Rendered(rendered, ttl, before, after)
    requires Addresses(v4) && Addresses(v6) && ttl >= 0
    ensures
      var named := Finalize(c, rendered, true).value.1;
      var spliced := Candidate(named, v4, v6, ttl);
      && spliced.Some? && Finalize(c, spliced.value, true).Some?
      && var (g, out) := Finalize(c, spliced.value, true).value;
      && Build(c, out).Some?
      && var b := Build(c, out).value;
      && InSync(c, rendered, true, Some(g), Written(b.manifest.(ddnsDesired := true), b.files)) == Some(true)
      && Finalize(c, out, true) == Some((g, out))
  {
    hide Base, Sorted, Rendered, Names, Spliced, Candidate, Filed, Perm, Restored, Final, Distinct, Addresses, Has;
    var (d, named) := Finalize(c, rendered, true).value;
    CandidateMade(c, rendered, v4, v6, ttl, before, after);
    var spliced := Each(named, (f: File) => Embedded(f, v4, v6, ttl));
    var (g, out) := Finalize(c, spliced, true).value;
    FinalSorted(c, spliced, true);
    var held := Sorted(out);
    StoredNamed(c, rendered, v4, v6, ttl, before, after);
    SplicedLucky(c, rendered, v4, v6, ttl, before, after, g);
    FinalizeTwice(c, spliced, true);
    AcceptableSorted(out);
    SortedNames(out);
    RecordUnused(rendered, out, ttl, before, after);
    ReadBackWritten(c, held, true, g);
    var m := Manifest(1, Entries(c, held), true);
    var read := ReadBack(Written(m, held), g, m.files).value;
    assert Each(read, Restored) == Each(held, (f: File) => Back(f, g));
  }

  lemma RecordUnused(rendered: seq<File>, out: seq<File>, ttl: int, before: seq<string>, after: seq<string>)
    requires Rendered(rendered, ttl, before, after) && |out| == |rendered|
    requires forall i :: 0 <= i < |out| ==> Base(out[i].path) == Base(rendered[i].path)
    ensures RECORD !in Names(out)
  {
    hide Base;
    forall i | 0 <= i < |out| ensures Base(out[i].path) != RECORD {
      assert Renders(rendered[i], ttl, before, after);
    }
  }

  /** The stored files, read back and stripped, have the name of the rendered ones. */
  lemma StoredNamed(c: Coding, rendered: seq<File>, v4: seq<string>, v6: seq<string>, ttl: int, before: seq<string>,
      after: seq<string>)
    requires Hashes(c) && Finalize(c, rendered, true).Some? && Rendered(rendered, ttl, before, after)
    requires Addresses(v4) && Addresses(v6) && ttl >= 0
    requires
      var named := Finalize(c, rendered, true).value.1;
      Acceptable(rendered) && Finalize(c, Each(named, (f: File) => Embedded(f, v4, v6, ttl)), true).Some?
    ensures
      var named := Finalize(c, rendered, true).value.1;
      var (g, out) := Finalize(c, Each(named, (f: File) => Embedded(f, v4, v6, ttl)), true).value;
      && |out| == |rendered| && (forall i :: 0 <= i < |out| ==> Base(out[i].path) == Base(rendered[i].path))
      && NameOf(c, Each(Sorted(out), (f: File) => Back(f, g)), true)
      == NameOf(c, rendered, true)
  {
    hide Sorted, Normal, Base, Perm, Distinct, Final, Embedded, Back, Has, Silent, Restorable, Addresses, Renders,
        Alike;
    var (d, named) := Finalize(c, rendered, true).value;
    var spliced := Each(named, (f: File) => Embedded(f, v4, v6, ttl));
    var (g, out) := Finalize(c, spliced, true).value;
    forall i | 0 <= i < |rendered|
      ensures Base(out[i].path) == Base(rendered[i].path) && Alike(rendered[i], Back(out[i], g))
    {
      StoredAlike(rendered[i], d, v4, v6, ttl, g, before, after);
    }
    BackNamed(c, rendered, out, g);
  }

  lemma StoredAlike(f: File, d: Generation, v4: seq<string>, v6: seq<string>, ttl: int, g: Generation,
      before: seq<string>, after: seq<string>)
    requires Silent(before) && Silent(after) && Renders(f, ttl, before, after) && Usable(Base(f.path))
    requires Addresses(v4) && Addresses(v6) && ttl >= 0 && IsHash(d) && IsHash(g)
    ensures
      var held := Final(Embedded(Final(f, d), v4, v6, ttl), g);
      Base(held.path) == Base(f.path) && Alike(f, Back(held, g))
  {
    assert Perm(f.mode) != 0;
    hide Silent, Restorable, Addresses, Renders, Final, Embedded, Base, Normal, Perm, Back, Alike;
    CycledAlike(f, d, v4, v6, ttl, g, before, after);
    CycledFields(f, d, v4, v6, ttl, g);
    FinalBase(Embedded(Final(f, d), v4, v6, ttl), g);
  }

  lemma BackNamed(c: Coding, rendered: seq<File>, out: seq<File>, g: Generation)
    requires |out| == |rendered|
    requires forall i :: 0 <= i < |out| ==>
      Base(out[i].path) == Base(rendered[i].path) && Alike(rendered[i], Back(out[i], g))
    ensures NameOf(c, Each(Sorted(out), (f: File) => Back(f, g)), true) == NameOf(c, rendered, true)
  {
    hide Sorted, Base, Back, NameOf, Alike;
    var rel := (x: File, y: File) => Base(x.path) == Base(y.path) && Alike(x, Back(y, g));
    assert Pairwise(rel, rendered, out);
    SortedPairwise(rel, rendered, out);
    var restored := Each(Sorted(out), (f: File) => Back(f, g));
    forall i | 0 <= i < |rendered| ensures Alike(Sorted(rendered)[i], restored[i]) {
      assert rel(Sorted(rendered)[i], Sorted(out)[i]);
    }
    AlikeSameName(c, Sorted(rendered), restored, true);
    SortedKeeps(rendered);
    OrderIrrelevant(c, rendered, Sorted(rendered), true);
  }

  /** A seam lies within one line. */
  lemma SeamAcross(a: string, b: string)
    requires Seam(a + "\n" + b, NAMES)
    ensures Seam(a, NAMES) || Seam(b, NAMES)
  {
    var s := a + "\n" + b;
    var k :| 0 <= k <= |s| && SeamAt(s[k..], NAMES);
    if k <= |a| {
      SeamLine(a[k..], b) by { assert s[k..] == a[k..] + "\n" + b; }
    } else {
      assert s[k..] == b[k - |a| - 1..];
    }
  }

  lemma SeamLine(a: string, b: string)
    requires SeamAt(a + "\n" + b, NAMES)
    ensures SeamAt(a, NAMES)
  {
    NamesOneLine();
    HoleLetters();
    hide Matches;
    var n := |PATH| + |HOLE|;
    MatchesLine(a, b, PATH, Exactly(HOLE));
    MatchesFits(a, PATH, Exactly(HOLE));
    assert (a + "\n" + b)[n..] == a[n..] + "\n" + b;
    MatchesLine(a[n..], b, MARK[1..], Exactly(HOLE));
  }

  lemma MatchesFits(s: string, pre: string, form: Form)
    requires Matches(s, pre, form)
    ensures |pre| + Width(form) <= |s|
  {
  }

  lemma {:induction false} JoinSeamless(ls: seq<string>)
    requires forall i :: 0 <= i < |ls| ==> !Seam(ls[i], NAMES)
    ensures !Seam(Join(ls), NAMES)
  {
    hide Seam;
    if ls == [] {
      NamesSuit();
      NothingToName(NAMES, HOLE);
    } else if |ls| > 1 {
      JoinSeamless(ls[1..]);
      if Seam(Join(ls), NAMES) { SeamAcross(ls[0], Join(ls[1..])); }
    }
  }

  lemma QuietSeamless(s: string)
    requires Quiet(s)
    ensures !Seam(s, NAMES)
  {
    QuietFree(s, Exactly(HOLE));
    hide Quiet, Matches;
  }

  lemma ShownSeamless(before: seq<string>, v4: seq<string>, v6: seq<string>, t: string, after: seq<string>)
    requires Restorable(before) && Restorable(after) && Calm(t) && Addresses(v4) && Addresses(v6)
    ensures !Seam(Join(Shown(before, v4, v6, t, after)), NAMES)
  {
    hide Calm, Quiet, Seam, Clean, Listed, Printed;
    DeclarationQuiet(FIRST4, KIND4, t, v4);
    DeclarationQuiet(FIRST6, KIND6, t, v6);
    QuietSeamless(Listed(FIRST4, KIND4, t, v4));
    QuietSeamless(Listed(FIRST6, KIND6, t, v6));
    JoinSeamless(Shown(before, v4, v6, t, after));
  }

  /** No name is unlucky for a spliced candidate. */
  lemma SplicedLucky(c: Coding, rendered: seq<File>, v4: seq<string>, v6: seq<string>, ttl: int,
      before: seq<string>, after: seq<string>, g: Generation)
    requires Hashes(c) && Finalize(c, rendered, true).Some? && Rendered(rendered, ttl, before, after)
    requires Addresses(v4) && Addresses(v6) && ttl >= 0
    ensures
      var named := Finalize(c, rendered, true).value.1;
      forall f :: f in Each(named, (f: File) => Embedded(f, v4, v6, ttl)) ==> !Unlucky(f, g)
  {
    hide Finalize, Silent, Restorable, Addresses, Final, Embedded, Base, Renders, Unlucky, Distinct;
    FinalizedParts(c, rendered, true);
    var (d, named) := Finalize(c, rendered, true).value;
    forall i | 0 <= i < |rendered| ensures !Unlucky(Embedded(named[i], v4, v6, ttl), g) {
      EmbeddedLucky(rendered[i], d, v4, v6, ttl, before, after, g);
    }
  }

  lemma EmbeddedLucky(f: File, d: Generation, v4: seq<string>, v6: seq<string>, ttl: int, before: seq<string>,
      after: seq<string>, g: Generation)
    requires Silent(before) && Silent(after) && Renders(f, ttl, before, after) && Usable(Base(f.path)) && IsHash(d)
    requires Addresses(v4) && Addresses(v6) && ttl >= 0
    ensures !Unlucky(Embedded(Final(f, d), v4, v6, ttl), g)
  {
    hide Silent, Restorable, Addresses, Seam, Spliced, Final, Base, Named, Normal, Calm;
    FinalFields(f, d);
    FinalBase(f, d);
    if Base(f.path) == FIREWALL {
      RestorableParts(f.data, before, Declared(ttl), after);
      TextCycle(before, after, v4, v6, ttl, d, d);
      SoughtCalm(ttl);
      DeclarationFound(ttl);
      ShownSeamless(before, v4, v6, Declared(ttl), after);
    } else {
      FinalAlike(f, d);
    }
  }

  /**
   Without collisions the check says in sync exactly when the active generation, its resolved
   addresses taken out, agrees with the rendered files on names, modes and normalized text.
   */
  lemma InSyncMeans(c: Coding, rendered: seq<File>, active: Generation, d: Directory, read: seq<File>)
    requires Hashes(c) && Encodes(c) && Finalize(c, rendered, true).Some?
        && Finalize(c, Each(read, Restored), true).Some?
    requires d.manifest.Some? && d.manifest.value.version == 1 && d.manifest.value.ddnsDesired
    requires ReadBack(d, active, d.manifest.value.files) == Some(read)
    requires Apart(c, Hashed(c, rendered, true) + Hashed(c, Each(read, Restored), true))
    ensures InSync(c, rendered, true, Some(active), d) == Some(true)
       <==> Pairwise(Alike, Sorted(rendered), Sorted(Each(read, Restored)))
  {
    hide Sorted, Alike, Hashes, Encodes, Apart, Hashed, ReadBack, NameOf;
    NamePinsDown(c, rendered, true, Each(read, Restored), true);
  }

  /** The file a manifest lists at `i` is in another directory, or missing. */
  predicate Unreadable(d: Directory, m: Manifest, i: nat) {
    i < |m.files| && (('/' in m.files[i].path && m.files[i].path != "/") || m.files[i].path !in d.files)
  }

  /**
   The check's other answers: without DDNS the names are compared; with it, a generation whose manifest is
   missing, of another version or of no DDNS intent, or which lists a file under another directory or one that
   is missing, is an error and never out of sync.
   */
  lemma InSyncOtherwise(c: Coding, rendered: seq<File>, ddns: bool, active: Option<Generation>, d: Directory, i: nat)
    requires Finalize(c, rendered, ddns).Some?
    ensures active.None? ==> InSync(c, rendered, ddns, active, d) == Some(false)
    ensures active.Some? && !ddns ==>
      InSync(c, rendered, ddns, active, d) == Some(active.value == Finalize(c, rendered, ddns).value.0)
    ensures active.Some? && ddns && (d.manifest.None? || d.manifest.value.version != 1) ==>
      InSync(c, rendered, ddns, active, d).None?
    ensures active.Some? && ddns && d.manifest.Some? && !d.manifest.value.ddnsDesired ==>
      InSync(c, rendered, ddns, active, d).None?
    ensures active.Some? && ddns && d.manifest.Some? && Unreadable(d, d.manifest.value, i) ==>
      InSync(c, rendered, ddns, active, d).None?
  {
    hide Finalize, Base, Stripped;
    if d.manifest.Some? && i < |d.manifest.value.files| {
      BasePlain(d.manifest.value.files[i].path);
    }
  }

  /** A base name has no slash in it, unless it is the root's. */
  lemma BasePlain(path: string)
    ensures Base(path) == path ==> '/' !in path || path == "/"
  {
    BaseForm(path);
  }
}
