/**
 What the recogniser accepts of files with an override: a grammar of their lines, written apart from the
 automaton, and the proof that the automaton accepts exactly the files of that grammar.
 */
module Overrides {
  import opened Common
  import opened Text
  import opened Recogniser

  // ---------- the grammar ----------

  predicate IsSource(line: string) {
    OptionalComma(line, SOURCE)
  }

  predicate IsContext(line: string) {
    StringLine(line, CONTEXT, "")
  }

  predicate OnlyClosing(ls: seq<string>) {
    forall i :: 0 <= i < |ls| ==> ls[i] == "  }" || ls[i] == "}"
  }

  /** The override's closing line, and then closing lines among which is the file's. */
  predicate ClosedOff(ls: seq<string>) {
    ls != [] && ls[0] == "  }" && OnlyClosing(ls) && "}" in ls
  }

  /**
   After a reason: nothing more without a comma; with one a source, followed by a context if it ends in a comma
   itself, or a context, which a source may follow although it has no comma.
   */
  predicate AfterReason(comma: bool, ls: seq<string>) {
    if !comma then ClosedOff(ls)
    else if ls == [] then false
    else if IsSource(ls[0]) then AfterSource(EndsInComma(ls[0]), ls[1..])
    else IsContext(ls[0]) && AfterContext(ls[1..])
  }

  predicate AfterSource(comma: bool, ls: seq<string>) {
    if comma then ls != [] && IsContext(ls[0]) && ClosedOff(ls[1..]) else ClosedOff(ls)
  }

  predicate AfterContext(ls: seq<string>) {
    ClosedOff(ls) || (ls != [] && IsSource(ls[0]) && ClosedOff(ls[1..]))
  }

  /** The lines of an override and of the end of the file. */
  predicate OverrideLines(ls: seq<string>) {
    && 3 <= |ls| && ls[0] == OVERRIDE && BoolLine(ls[1], ACKNOWLEDGED) && OptionalComma(ls[2], REASON)
    && AfterReason(EndsInComma(ls[2]), ls[3..])
  }

  // ---------- the automaton on these lines ----------

  function ScanRest(s: Scan, ls: seq<string>): Scan
    decreases |ls|
  {
    if ls == [] then s else ScanRest(Late(s, ls[0]), ls[1..])
  }

  lemma {:induction false} RestMore(s: Scan, ls: seq<string>, line: string)
    ensures ScanRest(s, ls + [line]) == Late(ScanRest(s, ls), line)
    decreases |ls|
  {
    hide Late;
    if ls == [] {
      assert ls + [line] == [line];
    } else {
      assert (ls + [line])[1..] == ls[1..] + [line];
      RestMore(Late(s, ls[0]), ls[1..], line);
    }
  }

  lemma {:induction false} RestScanned(lines: seq<string>, k: nat, id: string)
    requires 14 <= k <= |lines|
    ensures Scanned(lines, id) == ScanRest(Scanned(lines[..k], id), lines[k..])
    decreases |lines|
  {
    hide Late, Early, Scanned;
    if k == |lines| {
      assert lines[..k] == lines;
    } else {
      var n := |lines| - 1;
      RestScanned(lines[..n], k, id);
      ScannedNext(lines, n, id);
      assert lines[..n + 1] == lines && lines[..n][..k] == lines[..k];
      assert lines[k..] == lines[..n][k..] + [lines[n]];
      RestMore(Scanned(lines[..k], id), lines[..n][k..], lines[n]);
    }
  }

  lemma LateKeeps(s: Scan, line: string)
    ensures var t := Late(s, line);
      t.phase == s.phase && t.override == s.override && (s.bad ==> t.bad) && (s.closedOverride ==> t.closedOverride)
  {
    hide OptionalComma, StringLine, EndsInComma;
  }

  lemma {:induction false} RestKeeps(s: Scan, ls: seq<string>)
    ensures var t := ScanRest(s, ls); t.phase == s.phase && t.override == s.override && (s.bad ==> t.bad)
    decreases |ls|
  {
    hide Late;
    if ls != [] {
      LateKeeps(s, ls[0]);
      RestKeeps(Late(s, ls[0]), ls[1..]);
    }
  }

  /** The rest of a file is accepted. */
  predicate Accepts(s: Scan, ls: seq<string>) {
    var t := ScanRest(s, ls);
    !t.bad && t.closedOverride && t.closed
  }

  lemma AcceptsNext(s: Scan, ls: seq<string>)
    ensures ls == [] ==> (Accepts(s, ls) <==> !s.bad && s.closedOverride && s.closed)
    ensures ls != [] ==> (Accepts(s, ls) <==> Accepts(Late(s, ls[0]), ls[1..]))
    ensures s.bad ==> !Accepts(s, ls)
  {
    hide Late;
    RestKeeps(s, ls);
  }

  lemma LateClosed(s: Scan, line: string)
    requires s.override && s.closedOverride && !s.bad && !ClosingBad(s)
    ensures line == "  }" ==> Late(s, line) == s
    ensures line == "}" ==> Late(s, line) == s.(closed := true)
    ensures line != "  }" && line != "}" ==> Late(s, line).bad
  {
    hide OptionalComma, StringLine, EndsInComma;
  }

  lemma {:induction false} ClosingAccepted(s: Scan, ls: seq<string>)
    requires s.override && s.closedOverride && !s.bad && !ClosingBad(s)
    ensures Accepts(s, ls) <==> OnlyClosing(ls) && (s.closed || "}" in ls)
    decreases |ls|
  {
    hide Late, Accepts;
    AcceptsNext(s, ls);
    if ls != [] {
      var t := Late(s, ls[0]);
      LateClosed(s, ls[0]);
      AcceptsNext(t, ls[1..]);
      assert ls == [ls[0]] + ls[1..];
      if ls[0] == "  }" || ls[0] == "}" { ClosingAccepted(t, ls[1..]); }
    }
  }

  /** The override stands open, and nothing was wrong so far. */
  predicate Open(s: Scan) {
    s.override && !s.bad && !s.closedOverride && !s.closed
  }

  lemma Kinds(line: string)
    ensures IsSource(line) ==> line != "  }" && line != "}" && !IsContext(line)
    ensures IsContext(line) ==> line != "  }" && line != "}"
  {
    hide Body;
    assert |SOURCE| == 14 && SOURCE[5] == 's' && |CONTEXT| == 15 && CONTEXT[5] == 'c';
    StartsAt(line, SOURCE + "\"", 5);
    StartsAt(line, CONTEXT + "\"", 5);
  }

  lemma LateOpen(s: Scan, line: string)
    requires Open(s)
    ensures line == "  }" ==> Late(s, line) == s.(bad := ClosingBad(s), closedOverride := true)
    ensures line == "}" ==> Late(s, line).bad
    ensures IsSource(line) && !s.seenSource ==>
      Late(s, line) == s.(bad := !s.reasonComma, seenSource := true, sourceComma := EndsInComma(line))
    ensures IsContext(line) && !s.seenContext ==>
      Late(s, line) == s.(bad := !(if s.seenSource then s.sourceComma else s.reasonComma), seenContext := true)
    ensures line != "  }" && line != "}" && !(IsSource(line) && !s.seenSource) && !(IsContext(line) && !s.seenContext)
            ==> Late(s, line).bad
  {
    Kinds(line);
    hide OptionalComma, StringLine, EndsInComma;
  }

  /** Once the override's closing line comes, only closing lines may follow. */
  lemma ClosesOff(s: Scan, ls: seq<string>)
    requires Open(s) && ls != [] && ls[0] == "  }"
    ensures Accepts(s, ls) <==> !ClosingBad(s) && ClosedOff(ls)
  {
    hide Late, Accepts;
    LateOpen(s, ls[0]);
    AcceptsNext(s, ls);
    var t := Late(s, ls[0]);
    AcceptsNext(t, ls[1..]);
    assert ls == [ls[0]] + ls[1..];
    if !ClosingBad(s) { ClosingAccepted(t, ls[1..]); }
  }

  lemma BothSeen(s: Scan, ls: seq<string>)
    requires Open(s) && s.seenSource && s.seenContext
    ensures Accepts(s, ls) <==> ClosedOff(ls)
  {
    hide Late, Accepts, IsSource, IsContext;
    AcceptsNext(s, ls);
    if ls != [] {
      LateOpen(s, ls[0]);
      AcceptsNext(Late(s, ls[0]), ls[1..]);
      if ls[0] == "  }" { ClosesOff(s, ls); }
    }
  }

  lemma ContextSeen(s: Scan, ls: seq<string>)
    requires Open(s) && !s.seenSource && s.seenContext && s.reasonComma
    ensures Accepts(s, ls) <==> AfterContext(ls)
  {
    hide Late, Accepts, IsSource, IsContext;
    AcceptsNext(s, ls);
    if ls != [] {
      Kinds(ls[0]);
      LateOpen(s, ls[0]);
      AcceptsNext(Late(s, ls[0]), ls[1..]);
      if ls[0] == "  }" {
        ClosesOff(s, ls);
      } else if IsSource(ls[0]) {
        BothSeen(Late(s, ls[0]), ls[1..]);
      }
    }
  }

  lemma SourceSeen(s: Scan, ls: seq<string>)
    requires Open(s) && s.seenSource && !s.seenContext
    ensures Accepts(s, ls) <==> AfterSource(s.sourceComma, ls)
  {
    hide Late, Accepts, IsSource, IsContext;
    AcceptsNext(s, ls);
    if ls != [] {
      Kinds(ls[0]);
      LateOpen(s, ls[0]);
      AcceptsNext(Late(s, ls[0]), ls[1..]);
      if ls[0] == "  }" {
        ClosesOff(s, ls);
      } else if IsContext(ls[0]) && s.sourceComma {
        BothSeen(Late(s, ls[0]), ls[1..]);
      }
    }
  }

  lemma NothingSeen(s: Scan, ls: seq<string>)
    requires Open(s) && !s.seenSource && !s.seenContext
    ensures Accepts(s, ls) <==> AfterReason(s.reasonComma, ls)
  {
    hide Late, Accepts, IsSource, IsContext;
    AcceptsNext(s, ls);
    if ls != [] {
      Kinds(ls[0]);
      LateOpen(s, ls[0]);
      AcceptsNext(Late(s, ls[0]), ls[1..]);
      if ls[0] == "  }" {
        ClosesOff(s, ls);
      } else if IsSource(ls[0]) && s.reasonComma {
        SourceSeen(Late(s, ls[0]), ls[1..]);
      } else if IsContext(ls[0]) && s.reasonComma {
        ContextSeen(Late(s, ls[0]), ls[1..]);
      }
    }
  }

  // ---------- whole files ----------

  lemma ThreeMore(s: Scan, a: string, b: string, c: string, id: string)
    requires s.override && !s.bad && !s.phase.Nothing? && s == START.(phase := s.phase, override := true)
    ensures var t := Early(Early(Early(s, 12, a, id), 13, b, id), 14, c, id);
      && (!t.bad <==> a == OVERRIDE && BoolLine(b, ACKNOWLEDGED) && OptionalComma(c, REASON))
      && (!t.bad ==> t == s.(reasonComma := EndsInComma(c)))
  {
    hide BoolLine, OptionalComma, EndsInComma, StringLine, HashLine;
  }

  /** After the first eleven lines of a finished record with an override. */
  lemma OverrideAccepted(r: Record, ls: seq<string>)
    requires WellFormed(r) && r.override.Some? && Decided(r).Some?
    ensures Recognised(Top(r) + ls, r.id) == if OverrideLines(ls) then Decided(r) else None
  {
    var top, lines := Top(r), Top(r) + ls;
    TopScanned(r);
    TopSize(r);
    if |ls| < 3 {
      TooShort(r, ls);
    } else {
      hide Scanned, Early, Late, Top, WellFormed, AfterReason;
      ThreeScanned(top, ls[..3], r.id);
      ThreeMore(AfterTop(r), ls[0], ls[1], ls[2], r.id);
      RestScanned(lines, 14, r.id);
      assert lines[..14] == top + ls[..3] && lines[14..] == ls[3..];
      var s := Scanned(top + ls[..3], r.id);
      RestKeeps(s, ls[3..]);
      AcceptsNext(s, ls[3..]);
      if !s.bad { NothingSeen(s, ls[3..]); }
    }
  }

  lemma TooShort(r: Record, ls: seq<string>)
    requires WellFormed(r) && r.override.Some? && Decided(r).Some? && |ls| < 3
    ensures Recognised(Top(r) + ls, r.id) == None
  {
    TopScanned(r);
    TopSize(r);
    hide Top, WellFormed, Good;
    var lines := Top(r) + ls;
    if |ls| == 0 {
      assert lines == Top(r);
    } else {
      ScannedMore(Top(r), ls[0], r.id);
      if |ls| == 1 {
        assert lines == Top(r) + [ls[0]];
      } else {
        ScannedMore(Top(r) + [ls[0]], ls[1], r.id);
        assert lines == Top(r) + [ls[0]] + [ls[1]];
      }
    }
  }

  /** The lines after the first eleven, with an override or without. */
  predicate Ending(override: bool, ls: seq<string>) {
    if override then OverrideLines(ls) else ls == ["}"]
  }

  ghost predicate AcceptedForm(lines: seq<string>, id: string, phase: string) {
    exists r: Record :: RecordForm(r, lines, id, phase)
  }

  ghost predicate RecordForm(r: Record, lines: seq<string>, id: string, phase: string) {
    && WellFormed(r) && r.id == id && Decided(r) == Some(phase)
    && 11 <= |lines| && lines[..11] == Top(r) && Ending(r.override.Some?, lines[11..])
  }

  /**
   The script accepts exactly the files that begin like some finished record's and end in one of the grammar's
   endings, and it prints that record's phase.
   */
  lemma AcceptedExactly(lines: seq<string>, id: string, phase: string)
    ensures Recognised(lines, id) == Some(phase) <==> AcceptedForm(lines, id, phase)
  {
    if Recognised(lines, id) == Some(phase) {
      FormOfAccepted(lines, id, phase);
    }
    if r: Record :| RecordForm(r, lines, id, phase) {
      AcceptedOfForm(r, lines, id, phase);
    }
  }

  lemma AcceptedOfForm(r: Record, lines: seq<string>, id: string, phase: string)
    requires RecordForm(r, lines, id, phase)
    ensures Recognised(lines, id) == Some(phase)
  {
    hide Recognised, WellFormed, Top, OverrideLines;
    assert lines == Top(r) + lines[11..];
    if r.override.Some? {
      OverrideAccepted(r, lines[11..]);
    } else {
      PrintedRecognised(r);
      assert lines == Printed(r);
    }
  }

  lemma FormOfAccepted(lines: seq<string>, id: string, phase: string)
    requires Recognised(lines, id) == Some(phase)
    ensures AcceptedForm(lines, id, phase)
  {
    var r;
    if Scanned(lines, id).override {
      r := HeadOf(lines, id);
      hide Recognised, WellFormed, Top, OverrideLines, Scanned;
      assert lines == Top(r) + lines[11..];
      if Decided(r).Some? { OverrideAccepted(r, lines[11..]); } else { Undecided(r, lines[11..]); }
    } else {
      r := AcceptedIsPrinted(lines, id);
      hide Recognised, WellFormed, OverrideLines, Scanned;
      TopSize(r);
      hide Top;
      assert Printed(r)[..11] == Top(r) && Printed(r)[11..] == ["}"];
    }
    assert RecordForm(r, lines, id, phase);
  }

  lemma Undecided(r: Record, ls: seq<string>)
    requires WellFormed(r) && Decided(r).None?
    ensures Recognised(Top(r) + ls, r.id).None?
  {
    TopScanned(r);
    hide Top, Scanned, WellFormed;
    RefusalStays(Top(r), ls, r.id);
  }

  lemma HeadOf(lines: seq<string>, id: string) returns (r: Record)
    requires Recognised(lines, id).Some? && Scanned(lines, id).override
    ensures 12 <= |lines| && WellFormed(r) && r.id == id && lines[..11] == Top(r) && r.override.Some?
  {
    hide Scanned, Field, StringLine, HashLine, BoolLine, OptionalComma, EndsInComma, Top, WellFormed, Good;
    if |lines| <= 11 { EarlyOpen(lines, id); }
    EarlyOpen(lines[..11], id);
    PrefixKept(lines, 10, id);
    PrefixKept(lines, 11, id);
    r := Fields(lines, id, Scanned(lines[..11], id).phase);
    if !EndsInComma(lines[10]) { NoOverride(lines, id); }
  }

  /** Without a comma on the eleventh line, no override is ever seen. */
  lemma {:induction false} NoOverride(lines: seq<string>, id: string)
    requires 11 <= |lines| && !EndsInComma(lines[10])
    ensures !Scanned(lines, id).override
    decreases |lines|
  {
    hide Scanned, EndsInComma, Good, Late;
    var n := |lines| - 1;
    ScannedNext(lines, n, id);
    assert lines[..n + 1] == lines;
    if n == 10 {
      EarlyOpen(lines[..10], id);
    } else {
      NoOverride(lines[..n], id);
      LateKeeps(Scanned(lines[..n], id), lines[n]);
    }
  }
}
