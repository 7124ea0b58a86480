/**
 The packaging script's line automaton, which decides whether a state file records a transaction that
 is over, and the printer whose files it reads.
 */
module Recogniser {
  import opened Common
  import opened Text
  import Protocol
  import ProtocolRuns

  // ---------- the printer ----------

  datatype Override = Override(acknowledged: bool, reason: string, source: string, context: string)

  datatype Record = Record(
    id: string, phase: string, startedAt: string, deadline: string,
    generation: string, previous: string, freshInstall: bool, firewallWasEnabled: bool,
    confirmed: bool, rolledBack: bool, override: Option<Override>)

  const DIGITS := "0123456789abcdef"

  /** A character by its code, as \uXXXX. */
  function Unicode(n: nat): string {
    "\\u" + [DIGITS[n / 4096 % 16], DIGITS[n / 256 % 16], DIGITS[n / 16 % 16], DIGITS[n % 16]]
  }

  /** Section 7 of RFC 8259, with the characters special to HTML and the line separators also escaped. */
  function Escape(c: char): string {
    if c == '"' then "\\\""
    else if c == '\\' then "\\\\"
    else if c == '\n' then "\\n"
    else if c == '\r' then "\\r"
    else if c == '\t' then "\\t"
    else if c as int == 8 then "\\b"
    else if c as int == 12 then "\\f"
    else if c as int < 32 || c == '<' || c == '>' || c == '&' then Unicode(c as int)
    else if c as int == 0x2028 || c as int == 0x2029 then Unicode(c as int)
    else [c]
  }

  function EscapeAll(s: string): string {
    if s == "" then "" else Escape(s[0]) + EscapeAll(s[1..])
  }

  function Bool(b: bool): string {
    if b then "true" else "false"
  }

  /** A field whose value is a string with this body. */
  function Field(name: string, body: string): string {
    name + "\"" + body + "\""
  }

  const ID := "  \"id\": "
  const PHASE := "  \"phase\": "
  const STARTED := "  \"started_at\": "
  const DEADLINE := "  \"rollback_deadline\": "
  const GENERATION := "  \"generation\": "
  const PREVIOUS := "  \"previous_generation\": "
  const FRESH := "  \"fresh_install\": "
  const ENABLED := "  \"firewall_was_enabled\": "
  const CONFIRMED := "  \"confirmed\": "
  const ROLLEDBACK := "  \"rolled_back\": "
  const OVERRIDE := "  \"ssh_override\": {"
  const ACKNOWLEDGED := "    \"acknowledged\": "
  const REASON := "    \"reason\": "
  const SOURCE := "    \"source\": "
  const CONTEXT := "    \"context\": "

  /** The first eleven lines. */
  function Top(r: Record): seq<string> {
    ["{", Field(ID, r.id) + ",", Field(PHASE, r.phase) + ",",
     Field(STARTED, r.startedAt) + ",", Field(DEADLINE, r.deadline) + ",",
     Field(GENERATION, r.generation) + ",", Field(PREVIOUS, r.previous) + ",",
     FRESH + Bool(r.freshInstall) + ",", ENABLED + Bool(r.firewallWasEnabled) + ",",
     CONFIRMED + Bool(r.confirmed) + ",",
     ROLLEDBACK + Bool(r.rolledBack) + (if r.override.Some? then "," else "")]
  }

  /** The override's lines; an empty source or context is left out. */
  function Inner(o: Override): seq<string> {
    var more := o.source != "" || o.context != "";
    [OVERRIDE, ACKNOWLEDGED + Bool(o.acknowledged) + ",",
     Field(REASON, EscapeAll(o.reason)) + (if more then "," else "")]
    + (if o.source != "" then [Field(SOURCE, EscapeAll(o.source)) + (if o.context != "" then "," else "")] else [])
    + (if o.context != "" then [Field(CONTEXT, EscapeAll(o.context))] else [])
    + ["  }"]
  }

  /** The lines of a transaction's state file. */
  function Printed(r: Record): seq<string> {
    Top(r) + (if r.override.Some? then Inner(r.override.value) else []) + ["}"]
  }

  // ---------- the patterns ----------

  predicate HexDigit(c: char) {
    '0' <= c <= '9' || 'a' <= c <= 'f' || 'A' <= c <= 'F'
  }

  /** The body of a string: plain characters and escapes. */
  predicate Body(s: string) {
    if s == "" then true
    else if s[0] == '"' then false
    else if s[0] != '\\' then Body(s[1..])
    else if |s| < 2 then false
    else if s[1] == 'u' then
      |s| >= 6 && HexDigit(s[2]) && HexDigit(s[3]) && HexDigit(s[4]) && HexDigit(s[5]) && Body(s[6..])
    else
      && (|| s[1] == '"' || s[1] == '\\' || s[1] == '/'
          || s[1] == 'b' || s[1] == 'f' || s[1] == 'n' || s[1] == 'r' || s[1] == 't')
      && Body(s[2..])
  }

  /** `line` is a field with any string, followed by `tail`. */
  predicate StringLine(line: string, name: string, tail: string) {
    && |name| + 2 + |tail| <= |line|
    && line[..|name| + 1] == name + "\""
    && line[|line| - |tail| - 1..] == "\"" + tail
    && Body(line[|name| + 1..|line| - |tail| - 1])
  }

  /** A field with any string, with or without a comma. */
  predicate OptionalComma(line: string, name: string) {
    StringLine(line, name, "") || StringLine(line, name, ",")
  }

  predicate BoolLine(line: string, name: string) {
    line == name + "true," || line == name + "false,"
  }

  predicate HashLine(line: string, name: string) {
    |line| == |name| + 67 && line == Field(name, line[|name| + 1..|name| + 65]) + ","
        && IsHash(line[|name| + 1..|name| + 65])
  }

  predicate EndsInComma(line: string) {
    line != "" && line[|line| - 1] == ','
  }

  // ---------- the automaton ----------

  /** The phase seen on the third line. */
  datatype Found = Nothing | Recorded | Undone

  datatype Scan = Scan(bad: bool, phase: Found, override: bool, seenSource: bool, seenContext: bool,
                       reasonComma: bool, sourceComma: bool, closedOverride: bool, closed: bool)

  const START := Scan(false, Nothing, false, false, false, false, false, false, false)

  const RECORDED := "confirmed"
  const UNDONE := "rolled-back"

  function Phase(f: Found): string {
    match f
    case Nothing => ""
    case Recorded => RECORDED
    case Undone => UNDONE
  }

  predicate ClosingBad(s: Scan) {
    (!s.seenSource && !s.seenContext && s.reasonComma) || (s.seenSource && !s.seenContext && s.sourceComma)
  }

  /** What the `n`-th line must be, for the first fourteen but the third. */
  predicate Good(s: Scan, n: nat, line: string, id: string) {
    if n == 1 then line == "{"
    else if n == 2 then line == Field(ID, id) + ","
    else if n == 4 then StringLine(line, STARTED, ",")
    else if n == 5 then StringLine(line, DEADLINE, ",")
    else if n == 6 then HashLine(line, GENERATION)
    else if n == 7 then HashLine(line, PREVIOUS) || line == Field(PREVIOUS, "") + ","
    else if n == 8 then BoolLine(line, FRESH)
    else if n == 9 then BoolLine(line, ENABLED)
    else if n == 10 then
      && (s.phase.Recorded? ==> line == CONFIRMED + "true,")
      && (s.phase.Undone? ==> BoolLine(line, CONFIRMED))
    else if n == 11 then
      && (s.phase.Recorded? ==> line == ROLLEDBACK + "false" || line == ROLLEDBACK + "false,")
      && (s.phase.Undone? ==> line == ROLLEDBACK + "true" || line == ROLLEDBACK + "true,")
    else if n == 12 then if s.override then line == OVERRIDE else line == "}"
    else if n == 13 then s.override && BoolLine(line, ACKNOWLEDGED)
    else s.override && OptionalComma(line, REASON)
  }

  predicate IsPhase(line: string, phase: string) {
    line == Field(PHASE, phase) + ","
  }

  function PhaseSeen(line: string): Found {
    if IsPhase(line, RECORDED) then Recorded else if IsPhase(line, UNDONE) then Undone else Nothing
  }

  function Phased(s: Scan, line: string): Scan {
    if PhaseSeen(line).Nothing? then s.(bad := true) else s.(phase := PhaseSeen(line))
  }

  /** What the `n`-th line does, for the first fourteen. */
  function Early(s: Scan, n: nat, line: string, id: string): Scan {
    if n == 3 then Phased(s, line)
    else
      var t := s.(bad := s.bad || !Good(s, n, line, id));
      if n == 11 then t.(override := s.override || EndsInComma(line))
      else if n == 12 then t.(closed := s.closed || !s.override)
      else if n == 14 then t.(reasonComma := EndsInComma(line))
      else t
  }

  /** What a later line does. */
  function Late(s: Scan, line: string): Scan {
    if !s.override then s.(bad := true)
    else if line == "  }" then s.(bad := s.bad || ClosingBad(s), closedOverride := true)
    else if line == "}" then s.(bad := s.bad || !s.closedOverride, closed := true)
    else if s.closedOverride then s.(bad := true)
    else if !s.seenSource && OptionalComma(line, SOURCE) then
      s.(bad := s.bad || !s.reasonComma, seenSource := true, sourceComma := EndsInComma(line))
    else if !s.seenContext && StringLine(line, CONTEXT, "") then
      s.(bad := s.bad || !(if s.seenSource then s.sourceComma else s.reasonComma), seenContext := true)
    else s.(bad := true)
  }

  function Next(s: Scan, n: nat, line: string, id: string): Scan {
    if n <= 14 then Early(s, n, line, id) else Late(s, line)
  }

  function Scanned(lines: seq<string>, id: string): Scan {
    if lines == [] then START
    else Next(Scanned(lines[..|lines| - 1], id), |lines|, lines[|lines| - 1], id)
  }

  function Verdict(s: Scan): Option<string> {
    if s.bad || (s.override && !s.closedOverride) || !s.closed || s.phase.Nothing? then None else Some(Phase(s.phase))
  }

  /** The phase of the finished transaction these lines record, if they record one. */
  function Recognised(lines: seq<string>, id: string): Option<string> {
    Verdict(Scanned(lines, id))
  }

  lemma ScannedNext(lines: seq<string>, i: nat, id: string)
    requires i < |lines|
    ensures Scanned(lines[..i + 1], id) == Next(Scanned(lines[..i], id), i + 1, lines[i], id)
  {
    hide Next;
    assert lines[..i + 1][..i] == lines[..i];
  }

  method LateLine(was: Scan, line: string) returns (s: Scan)
    ensures s == Late(was, line)
  {
    hide StringLine, OptionalComma, EndsInComma;
    s := was;
    if !s.override {
      s := s.(bad := true);
    } else if line == "  }" {
      if (!s.seenSource && !s.seenContext && s.reasonComma) || (s.seenSource && !s.seenContext && s.sourceComma) {
        s := s.(bad := true);
      }
      s := s.(closedOverride := true);
    } else if line == "}" {
      if !s.closedOverride { s := s.(bad := true); }
      s := s.(closed := true);
    } else if s.closedOverride {
      s := s.(bad := true);
    } else if !s.seenSource && OptionalComma(line, SOURCE) {
      if !s.reasonComma { s := s.(bad := true); }
      s := s.(seenSource := true, sourceComma := EndsInComma(line));
    } else if !s.seenContext && StringLine(line, CONTEXT, "") {
      if !(if s.seenSource then s.sourceComma else s.reasonComma) { s := s.(bad := true); }
      s := s.(seenContext := true);
    } else {
      s := s.(bad := true);
    }
  }

  method Inspect(lines: seq<string>, id: string) returns (r: Option<string>)
    ensures r == Recognised(lines, id)
  {
    hide Early, Late, Scanned;
    var s := START;
    assert s == Scanned(lines[..0], id) by { NothingScanned(id); assert lines[..0] == []; }
    for i := 0 to |lines|
      invariant s == Scanned(lines[..i], id)
    {
      ScannedNext(lines, i, id);
      if i < 14 {
        s := Early(s, i + 1, lines[i], id);
      } else {
        s := LateLine(s, lines[i]);
      }
    }
    assert lines[..|lines|] == lines;
    if s.override && !s.closedOverride { s := s.(bad := true); }
    if s.bad || !s.closed || s.phase.Nothing? { return None; }
    return Some(Phase(s.phase));
  }

  lemma NothingScanned(id: string)
    ensures Scanned([], id) == START
  {
  }

  // ---------- strings ----------

  lemma {:induction false} BodyJoined(a: string, b: string)
    requires Body(a) && Body(b)
    ensures Body(a + b)
    decreases |a|
  {
    var s := a + b;
    if a == "" {
      assert s == b;
    } else if a[0] != '\\' {
      assert s[1..] == a[1..] + b;
      BodyJoined(a[1..], b);
    } else if a[1] == 'u' {
      assert s[6..] == a[6..] + b;
      BodyJoined(a[6..], b);
    } else {
      assert s[2..] == a[2..] + b;
      BodyJoined(a[2..], b);
    }
  }

  lemma EscapeBody(c: char)
    ensures Body(Escape(c)) && '\n' !in Escape(c)
  {
    if Escape(c) == Unicode(c as int) {
      UnicodeBody(c as int);
    } else if Escape(c) == [c] {
      assert [c][1..] == "";
    } else {
      assert Escape(c)[2..] == "";
    }
  }

  lemma UnicodeBody(n: nat)
    ensures Body(Unicode(n)) && '\n' !in Unicode(n)
  {
    DigitForm(n / 4096 % 16);
    DigitForm(n / 256 % 16);
    DigitForm(n / 16 % 16);
    DigitForm(n % 16);
    assert Unicode(n)[6..] == "";
  }

  lemma DigitForm(k: nat)
    requires k < 16
    ensures HexDigit(DIGITS[k]) && DIGITS[k] != '\n'
  {
  }

  /** Escaping makes any text a string's body, on one line. */
  lemma {:induction false} EscapedBody(s: string)
    ensures Body(EscapeAll(s)) && '\n' !in EscapeAll(s)
  {
    if s != "" {
      EscapeBody(s[0]);
      EscapedBody(s[1..]);
      BodyJoined(Escape(s[0]), EscapeAll(s[1..]));
    }
  }

  lemma FieldLine(name: string, body: string, tail: string)
    requires Body(body)
    ensures StringLine(Field(name, body) + tail, name, tail)
  {
    var line := Field(name, body) + tail;
    assert line[..|name| + 1] == name + "\"";
    assert line[|line| - |tail| - 1..] == "\"" + tail;
    assert line[|name| + 1..|line| - |tail| - 1] == body;
  }

  lemma FieldHash(name: string, hash: string)
    requires IsHash(hash)
    ensures HashLine(Field(name, hash) + ",", name)
  {
    var line := Field(name, hash) + ",";
    assert line[|name| + 1..|name| + 65] == hash;
  }

  lemma CommaSeen(line: string)
    ensures EndsInComma(line + ",")
    ensures line != "" && line[|line| - 1] != ',' ==> !EndsInComma(line)
  {
  }

  // ---------- what the printer writes ----------

  /** A record as the program makes them: hashes for names, and time stamps that need no escaping. */
  predicate WellFormed(r: Record) {
    && Body(r.startedAt) && Body(r.deadline)
    && IsHash(r.generation) && (r.previous == "" || IsHash(r.previous))
  }

  /** The transaction is over, and its flags say so. */
  function Decided(r: Record): Option<string> {
    if r.phase == RECORDED && r.confirmed && !r.rolledBack then Some(RECORDED)
    else if r.phase == UNDONE && r.rolledBack then Some(UNDONE)
    else None
  }

  // ---------- line by line ----------

  lemma SameField(name: string, a: string, b: string, tail: string)
    ensures Field(name, a) + tail == Field(name, b) + tail <==> a == b
  {
    var x, y := Field(name, a) + tail, Field(name, b) + tail;
    if x == y {
      assert |a| == |b|;
      assert a == x[|name| + 1..|name| + 1 + |a|] == b;
    }
  }

  lemma SameBool(name: string, b: bool, tail: string)
    ensures name + Bool(b) + tail == name + "true" + tail <==> b
    ensures name + Bool(b) + tail == name + "false" + tail <==> !b
  {
    var n := |name|;
    assert (name + Bool(b) + tail)[n] == if b then 't' else 'f';
    assert (name + "true" + tail)[n] == 't' && (name + "false" + tail)[n] == 'f';
  }

  lemma PrintedBool(name: string, b: bool)
    ensures BoolLine(name + Bool(b) + ",", name)
  {
    assert name + "true," == name + "true" + "," && name + "false," == name + "false" + ",";
  }

  lemma PhaseLine(s: Scan, r: Record)
    ensures Early(s, 3, Field(PHASE, r.phase) + ",", r.id) ==
      if r.phase == RECORDED then s.(phase := Recorded)
      else if r.phase == UNDONE then s.(phase := Undone)
      else s.(bad := true)
  {
    SameField(PHASE, r.phase, RECORDED, ",");
    SameField(PHASE, r.phase, UNDONE, ",");
    hide Field;
  }

  lemma StampLines(s: Scan, r: Record)
    requires WellFormed(r)
    ensures Early(s, 4, Field(STARTED, r.startedAt) + ",", r.id) == s
    ensures Early(s, 5, Field(DEADLINE, r.deadline) + ",", r.id) == s
  {
    FieldLine(STARTED, r.startedAt, ",");
    FieldLine(DEADLINE, r.deadline, ",");
    hide StringLine, Field;
  }

  lemma NameLines(s: Scan, r: Record)
    requires WellFormed(r)
    ensures Early(s, 6, Field(GENERATION, r.generation) + ",", r.id) == s
    ensures Early(s, 7, Field(PREVIOUS, r.previous) + ",", r.id) == s
  {
    hide HashLine, Field, IsHash, Body, Phased, EndsInComma;
    FieldHash(GENERATION, r.generation);
    if r.previous != "" { FieldHash(PREVIOUS, r.previous); }
  }

  lemma FlagLines(s: Scan, r: Record)
    ensures Early(s, 8, FRESH + Bool(r.freshInstall) + ",", r.id) == s
    ensures Early(s, 9, ENABLED + Bool(r.firewallWasEnabled) + ",", r.id) == s
  {
    PrintedBool(FRESH, r.freshInstall);
    PrintedBool(ENABLED, r.firewallWasEnabled);
    hide BoolLine;
  }

  lemma ConfirmedLine(s: Scan, r: Record)
    ensures Early(s, 10, CONFIRMED + Bool(r.confirmed) + ",", r.id)
         == s.(bad := s.bad || (s.phase.Recorded? && !r.confirmed))
  {
    PrintedBool(CONFIRMED, r.confirmed);
    SameBool(CONFIRMED, r.confirmed, ",");
    assert CONFIRMED + "true," == CONFIRMED + "true" + ",";
    hide BoolLine, Bool;
  }

  lemma UndoneLine(s: Scan, r: Record)
    requires !s.override
    ensures Early(s, 11, ROLLEDBACK + Bool(r.rolledBack) + (if r.override.Some? then "," else ""), r.id)
         == s.(bad := s.bad || (s.phase.Recorded? && r.rolledBack) || (s.phase.Undone? && !r.rolledBack),
               override := r.override.Some?)
  {
    UndoneEnd(r.rolledBack, r.override.Some?);
    hide Bool, EndsInComma;
  }

  lemma UndoneEnd(b: bool, comma: bool)
    ensures
      var line := ROLLEDBACK + Bool(b) + (if comma then "," else "");
      && (line == ROLLEDBACK + "true" || line == ROLLEDBACK + "true," <==> b)
      && (line == ROLLEDBACK + "false" || line == ROLLEDBACK + "false," <==> !b)
      && (EndsInComma(line) <==> comma)
  {
    var tail := if comma then "," else "";
    var line := ROLLEDBACK + Bool(b) + tail;
    var n := |ROLLEDBACK|;
    assert line[n] == if b then 't' else 'f';
    assert (ROLLEDBACK + "true")[n] == 't' && (ROLLEDBACK + "true,")[n] == 't';
    assert (ROLLEDBACK + "false")[n] == 'f' && (ROLLEDBACK + "false,")[n] == 'f';
    assert ROLLEDBACK + "true" + "," == ROLLEDBACK + "true," && ROLLEDBACK + "false" + "," == ROLLEDBACK + "false,";
    assert ROLLEDBACK + Bool(b) + "" == ROLLEDBACK + Bool(b);
    assert line[|line| - 1] == if comma then ',' else 'e';
  }

  /** The automaton after the first eleven printed lines. */
  function AfterTop(r: Record): Scan {
    START.(bad := Decided(r).None?,
           phase := if r.phase == RECORDED then Recorded else if r.phase == UNDONE then Undone else Nothing,
           override := r.override.Some?)
  }

  lemma ScannedMore(lines: seq<string>, line: string, id: string)
    ensures Scanned(lines + [line], id) == Next(Scanned(lines, id), |lines| + 1, line, id)
  {
    hide Next;
    assert (lines + [line])[..|lines|] == lines;
  }

  lemma TopScanned(r: Record)
    requires WellFormed(r)
    ensures Scanned(Top(r), r.id) == AfterTop(r)
  {
    hide Early, Field, Bool, Scanned, WellFormed;
    var t := Top(r);
    var s2 := START;
    FirstTwo(r);
    var s3 := Early(START, 3, t[2], r.id);
    PhaseLine(START, r);
    StampLines(s3, r);
    NameLines(s3, r);
    FlagLines(s3, r);
    ConfirmedLine(s3, r);
    var s10 := Early(s3, 10, t[9], r.id);
    UndoneLine(s10, r);
    ScannedEleven(t, r.id, START, s3, s10);
  }

  lemma FirstTwo(r: Record)
    ensures Early(START, 1, "{", r.id) == START
    ensures Early(START, 2, Field(ID, r.id) + ",", r.id) == START
  {
  }

  /** Eleven lines whose effects are known one by one. */
  lemma ScannedEleven(t: seq<string>, id: string, s2: Scan, s3: Scan, s10: Scan)
    requires |t| == 11
    requires Early(START, 1, t[0], id) == s2 && Early(s2, 2, t[1], id) == s2 && Early(s2, 3, t[2], id) == s3
    requires Early(s3, 4, t[3], id) == s3 && Early(s3, 5, t[4], id) == s3 && Early(s3, 6, t[5], id) == s3
    requires Early(s3, 7, t[6], id) == s3 && Early(s3, 8, t[7], id) == s3 && Early(s3, 9, t[8], id) == s3
    requires Early(s3, 10, t[9], id) == s10
    ensures Scanned(t, id) == Early(s10, 11, t[10], id)
  {
    hide Early;
    NothingScanned(id);
    assert t[..0] == [] && t[..11] == t;
    ScannedNext(t, 0, id);
    ScannedNext(t, 1, id);
    ScannedNext(t, 2, id);
    ScannedNext(t, 3, id);
    ScannedNext(t, 4, id);
    ScannedNext(t, 5, id);
    ScannedNext(t, 6, id);
    ScannedNext(t, 7, id);
    ScannedNext(t, 8, id);
    ScannedNext(t, 9, id);
    ScannedNext(t, 10, id);
    hide Scanned;
  }

  // ---------- the end of the file ----------

  /** Nothing takes a refusal back. */
  lemma {:induction false} RefusalStays(lines: seq<string>, more: seq<string>, id: string)
    requires Scanned(lines, id).bad
    ensures Scanned(lines + more, id).bad
    decreases |more|
  {
    hide Scanned, Next;
    if more == [] {
      assert lines + more == lines;
    } else {
      ScannedMore(lines, more[0], id);
      StepRefused(Scanned(lines, id), |lines| + 1, more[0], id);
      RefusalStays(lines + [more[0]], more[1..], id);
      assert lines + [more[0]] + more[1..] == lines + more;
    }
  }

  lemma StepRefused(s: Scan, n: nat, line: string, id: string)
    requires s.bad
    ensures Next(s, n, line, id).bad
  {
    hide Early, StringLine, OptionalComma, EndsInComma, Field;
    if n <= 14 {
      hide Late;
      EarlyRefused(s, n, line, id);
    }
  }

  lemma EarlyRefused(s: Scan, n: nat, line: string, id: string)
    requires s.bad
    ensures Early(s, n, line, id).bad
  {
    hide Good, EndsInComma, Field, Phased;
    PhasedForm(s, line);
  }

  lemma PhasedForm(s: Scan, line: string)
    ensures Phased(s, line).override == s.override && Phased(s, line).closed == s.closed
    ensures s.bad ==> Phased(s, line).bad
    ensures !Phased(s, line).bad ==>
      !Phased(s, line).phase.Nothing? && IsPhase(line, Phase(Phased(s, line).phase))
  {
    hide PhaseSeen, IsPhase, Phase;
    PhaseSeenForm(line);
  }

  lemma PhaseSeenForm(line: string)
    ensures !PhaseSeen(line).Nothing? ==> IsPhase(line, Phase(PhaseSeen(line)))
  {
    hide IsPhase;
  }

  lemma ReasonLine(s: Scan, o: Override, comma: bool, id: string)
    requires s.override
    ensures Early(s, 14, Field(REASON, EscapeAll(o.reason)) + (if comma then "," else ""), id)
        == s.(reasonComma := comma)
  {
    EscapedBody(o.reason);
    TextLine(REASON, EscapeAll(o.reason), comma);
    hide StringLine, Field;
  }

  /** A printed field with or without its comma. */
  lemma TextLine(name: string, body: string, comma: bool)
    requires Body(body)
    ensures
      var line := Field(name, body) + (if comma then "," else "");
      && OptionalComma(line, name) && (EndsInComma(line) <==> comma) && (!comma ==> StringLine(line, name, ""))
  {
    FieldLine(name, body, if comma then "," else "");
    var line := Field(name, body) + (if comma then "," else "");
    assert line[|line| - 1] == if comma then ',' else '"';
    hide Body;
  }

  lemma SourceLine(s: Scan, body: string, comma: bool)
    requires s.override && !s.closedOverride && !s.seenSource && Body(body)
    ensures Late(s, Field(SOURCE, body) + (if comma then "," else ""))
         == s.(bad := s.bad || !s.reasonComma, seenSource := true, sourceComma := comma)
  {
    TextLine(SOURCE, body, comma);
    NotClosing(SOURCE, body, if comma then "," else "") by { assert SOURCE[2] == ' ' && |SOURCE| == 14; }
    hide OptionalComma, StringLine, EndsInComma, Field;
  }

  lemma NotClosing(name: string, body: string, tail: string)
    requires |name| == 14 || |name| == 15
    requires name[2] == ' '
    ensures Field(name, body) + tail != "  }" && Field(name, body) + tail != "}"
  {
    assert (Field(name, body) + tail)[2] == ' ';
  }

  lemma ContextLine(s: Scan, body: string)
    requires s.override && !s.closedOverride && !s.seenContext && Body(body)
    ensures Late(s, Field(CONTEXT, body))
         == s.(bad := s.bad || !(if s.seenSource then s.sourceComma else s.reasonComma), seenContext := true)
  {
    var line := Field(CONTEXT, body);
    TextLine(CONTEXT, body, false);
    assert line + "" == line;
    NotClosing(CONTEXT, body, "") by { assert CONTEXT[2] == ' ' && |CONTEXT| == 15; }
    NotSource(body);
    hide OptionalComma, StringLine, EndsInComma, Field;
  }

  lemma NotSource(body: string)
    ensures !OptionalComma(Field(CONTEXT, body), SOURCE)
  {
    var line := Field(CONTEXT, body);
    assert line[5] == 'c';
    assert (SOURCE + "\"")[5] == 's';
    StartsAt(line, SOURCE + "\"", 5);
    hide Body;
  }

  lemma StartsAt(line: string, start: string, k: nat)
    requires k < |start|
    ensures |start| <= |line| && line[..|start|] == start ==> line[k] == start[k]
  {
    if |start| <= |line| && line[..|start|] == start {
      assert line[..|start|][k] == line[k];
    }
  }

  /** What the automaton has seen when the override closes. */
  function AfterInner(s: Scan, o: Override): Scan {
    var more := o.source != "" || o.context != "";
    s.(reasonComma := more,
       seenSource := o.source != "", sourceComma := o.source != "" && o.context != "",
       seenContext := o.context != "", closedOverride := true)
  }

  lemma InnerScanned(top: seq<string>, o: Override, id: string)
    requires |top| == 11
    requires
      var s := Scanned(top, id);
      s.override && !s.bad && s == START.(phase := s.phase, override := true)
    ensures Scanned(top + Inner(o), id) == AfterInner(Scanned(top, id), o)
  {
    var s := Scanned(top, id);
    var more := o.source != "" || o.context != "";
    hide Scanned, Early, Late, Field, EscapeAll, Bool;
    var a := [OVERRIDE, ACKNOWLEDGED + Bool(o.acknowledged) + ",",
              Field(REASON, EscapeAll(o.reason)) + (if more then "," else "")];
    ThreeScanned(top, a, id);
    OpeningLines(s, o, id);
    ReasonLine(s, o, more, id);
    assert Scanned(top + a, id) == s.(reasonComma := more);
    var sourceLine := Field(SOURCE, EscapeAll(o.source)) + (if o.context != "" then "," else "");
    var b := if o.source != "" then [sourceLine] else [];
    var c := if o.context != "" then [Field(CONTEXT, EscapeAll(o.context))] else [];
    SourceScanned(top + a, b, o, id);
    ContextScanned(top + a + b, c, o, id);
    ScannedMore(top + a + b + c, "  }", id);
    ClosingLine(Scanned(top + a + b + c, id));
    assert top + Inner(o) == top + a + b + c + ["  }"];
  }

  lemma ThreeScanned(top: seq<string>, a: seq<string>, id: string)
    requires |top| == 11 && |a| == 3
    ensures Scanned(top + a, id) == Early(Early(Early(Scanned(top, id), 12, a[0], id), 13, a[1], id), 14, a[2], id)
  {
    hide Scanned, Early, Late;
    ScannedMore(top, a[0], id);
    ScannedMore(top + [a[0]], a[1], id);
    ScannedMore(top + [a[0]] + [a[1]], a[2], id);
    assert top + [a[0]] + [a[1]] + [a[2]] == top + a;
  }

  lemma OpeningLines(s: Scan, o: Override, id: string)
    requires s.override
    ensures Early(s, 12, OVERRIDE, id) == s
    ensures Early(s, 13, ACKNOWLEDGED + Bool(o.acknowledged) + ",", id) == s
  {
    PrintedBool(ACKNOWLEDGED, o.acknowledged);
    hide BoolLine, Bool;
  }

  lemma SourceScanned(lines: seq<string>, b: seq<string>, o: Override, id: string)
    requires 14 <= |lines|
    requires
      var sourceLine := Field(SOURCE, EscapeAll(o.source)) + (if o.context != "" then "," else "");
      b == if o.source != "" then [sourceLine] else []
    requires
      var s := Scanned(lines, id);
      && s.override && !s.bad && !s.closedOverride && !s.seenSource && !s.sourceComma
      && s.reasonComma == (o.source != "" || o.context != "")
    ensures Scanned(lines + b, id) == Scanned(lines, id).(seenSource := o.source != "",
        sourceComma := o.source != "" && o.context != "")
  {
    hide Scanned, Late, Early, Field, EscapeAll;
    if o.source != "" {
      ScannedMore(lines, b[0], id);
      EscapedBody(o.source);
      SourceLine(Scanned(lines, id), EscapeAll(o.source), o.context != "");
    } else {
      assert lines + b == lines;
    }
  }

  lemma ContextScanned(lines: seq<string>, c: seq<string>, o: Override, id: string)
    requires 14 <= |lines|
    requires c == if o.context != "" then [Field(CONTEXT, EscapeAll(o.context))] else []
    requires
      var s := Scanned(lines, id);
      && s.override && !s.bad && !s.closedOverride && !s.seenContext
      && s.reasonComma == (o.source != "" || o.context != "")
      && s.seenSource == (o.source != "") && s.sourceComma == (o.source != "" && o.context != "")
    ensures Scanned(lines + c, id) == Scanned(lines, id).(seenContext := o.context != "")
  {
    hide Scanned, Late, Early, Field, EscapeAll;
    if o.context != "" {
      ScannedMore(lines, c[0], id);
      EscapedBody(o.context);
      ContextLine(Scanned(lines, id), EscapeAll(o.context));
    } else {
      assert lines + c == lines;
    }
  }

  lemma ClosingLine(s: Scan)
    requires s.override
    ensures Late(s, "  }") == s.(bad := s.bad || ClosingBad(s), closedOverride := true)
    ensures Late(s, "}") == s.(bad := s.bad || !s.closedOverride, closed := true)
  {
    hide OptionalComma, StringLine;
  }

  /**
   A printed state file is recognised, with its own phase, exactly when its transaction is over;
   whatever text its override carries.
   */
  lemma PrintedRecognised(r: Record)
    requires WellFormed(r)
    ensures Recognised(Printed(r), r.id) == Decided(r)
  {
    TopScanned(r);
    hide Scanned, Early, Late, Top, Inner, WellFormed;
    var t := Top(r);
    assert |t| == 11 by { TopSize(r); }
    if Decided(r).None? {
      var rest := (if r.override.Some? then Inner(r.override.value) else []) + ["}"];
      RefusalStays(t, rest, r.id);
      assert t + rest == Printed(r);
    } else if r.override.None? {
      assert t + [] == t;
      ScannedMore(t, "}", r.id);
      LastLine(AfterTop(r), r.id);
    } else {
      var o := r.override.value;
      InnerScanned(t, o, r.id);
      ScannedMore(t + Inner(o), "}", r.id);
      InnerSize(o);
      ClosingLine(AfterInner(AfterTop(r), o));
    }
  }

  lemma TopSize(r: Record)
    ensures |Top(r)| == 11
  {
  }

  lemma InnerSize(o: Override)
    ensures 4 <= |Inner(o)|
  {
  }

  lemma LastLine(s: Scan, id: string)
    requires !s.override
    ensures Early(s, 12, "}", id) == s.(closed := true)
  {
  }

  // ---------- the file ----------

  predicate IsId(id: string) {
    |id| == 32 && forall k :: 0 <= k < 32 ==> Hex(id[k])
  }

  /** The script on a state file: the directory's name is an identifier and the text ends its last line. */
  function InspectedFile(text: string, id: string): Option<string> {
    if !IsId(id) || text == "" || text[|text| - 1] != '\n' then None
    else Recognised(Split(text[..|text| - 1]), id)
  }

  function FileText(r: Record): string {
    Join(Printed(r)) + "\n"
  }

  /** The fields that are printed as they stand hold no line break. */
  predicate OneLine(r: Record) {
    '\n' !in r.id && '\n' !in r.phase && '\n' !in r.startedAt && '\n' !in r.deadline && '\n' !in r.generation
        && '\n' !in r.previous
  }

  lemma PrintedLines(r: Record)
    requires OneLine(r)
    ensures Lines(Printed(r))
  {
    if r.override.Some? {
      EscapedBody(r.override.value.reason);
      EscapedBody(r.override.value.source);
      EscapedBody(r.override.value.context);
      InnerLines(r.override.value);
    }
    TopLines(r);
    hide Top, Inner;
  }

  lemma TopLines(r: Record)
    requires OneLine(r)
    ensures forall i :: 0 <= i < |Top(r)| ==> '\n' !in Top(r)[i]
  {
    NamesPlain();
    MoreNamesPlain();
    hide ID, PHASE, STARTED, DEADLINE, GENERATION, PREVIOUS, FRESH, ENABLED, CONFIRMED, ROLLEDBACK;
  }

  lemma NamesPlain()
    ensures '\n' !in ID && '\n' !in PHASE && '\n' !in STARTED && '\n' !in DEADLINE && '\n' !in GENERATION
  {
  }

  lemma MoreNamesPlain()
    ensures '\n' !in PREVIOUS && '\n' !in FRESH && '\n' !in ENABLED && '\n' !in CONFIRMED && '\n' !in ROLLEDBACK
  {
  }

  lemma InnerPlain()
    ensures '\n' !in OVERRIDE && '\n' !in ACKNOWLEDGED && '\n' !in REASON && '\n' !in SOURCE && '\n' !in CONTEXT
  {
  }

  lemma InnerLines(o: Override)
    requires '\n' !in EscapeAll(o.reason) && '\n' !in EscapeAll(o.source) && '\n' !in EscapeAll(o.context)
    ensures forall i :: 0 <= i < |Inner(o)| ==> '\n' !in Inner(o)[i]
  {
    InnerPlain();
    hide EscapeAll, OVERRIDE, ACKNOWLEDGED, REASON, SOURCE, CONTEXT;
  }

  /** The state file as a whole. */
  lemma FileRecognised(r: Record)
    requires WellFormed(r) && OneLine(r)
    ensures InspectedFile(FileText(r), r.id) == if IsId(r.id) then Decided(r) else None
  {
    hide Printed, Recognised, WellFormed, OneLine, Lines, Decided;
    PrintedLines(r);
    SplitJoin(Printed(r));
    PrintedRecognised(r);
    var text := FileText(r);
    assert text[..|text| - 1] == Join(Printed(r));
  }

  // ---------- the transactions of the protocol ----------

  function PhaseText(p: Protocol.Phase): string {
    match p
    case Prepared => "prepared"
    case Armed => "rollback-armed"
    case Activating => "activating"
    case Activated => "activated"
    case Confirmed => "confirmed"
    case RolledBack => "rolled-back"
  }

  function RecordOf(id: string, t: Protocol.Tx, startedAt: string, deadline: string, o: Option<Override>): Record {
    Record(id, PhaseText(t.phase), startedAt, deadline, t.generation, if t.previous.Some? then t.previous.value else "",
           t.freshInstall, t.fwWasEnabled, t.confirmed, t.rolledBack, o)
  }

  /**
   In every reachable state, the script accepts a transaction's record, with its phase, exactly when
   the transaction has been confirmed or rolled back.
   */
  lemma ReachableRecognised(s: Protocol.State, id: string, startedAt: string, deadline: string, o: Option<Override>)
    requires ProtocolRuns.Reachable(s) && id in s.h.txs
    requires Body(startedAt) && Body(deadline)
    requires IsHash(s.h.txs[id].generation) && (s.h.txs[id].previous.Some? ==> IsHash(s.h.txs[id].previous.value))
    ensures
      var t := s.h.txs[id];
      Recognised(Printed(RecordOf(id, t, startedAt, deadline, o)), id) ==
      if t.confirmed then Some("confirmed") else if t.rolledBack then Some("rolled-back") else None
  {
    var t := s.h.txs[id];
    hide ProtocolRuns.Reachable, Recognised, Printed;
    ProtocolRuns.DecisionIsPhase(s, id);
    PrintedRecognised(RecordOf(id, t, startedAt, deadline, o));
  }

  // ---------- what else is accepted ----------

  /**
   The script accepts more than the printer writes: after an override is closed, the closing lines
   may be repeated.
   */
  lemma RepeatedClosing(r: Record)
    requires WellFormed(r) && r.override.Some? && Decided(r).Some?
    ensures Recognised(Printed(r) + ["  }", "}"], r.id) == Decided(r)
  {
    hide Scanned, Early, Late, Top, Inner, WellFormed;
    TopScanned(r);
    TopSize(r);
    var t, o := Top(r), r.override.value;
    InnerSize(o);
    InnerScanned(t, o, r.id);
    var a := AfterInner(AfterTop(r), o);
    ClosingLine(a);
    ClosingLine(a.(closed := true));
    ClosedTwice(t + Inner(o), r.id, a);
    assert t + Inner(o) + ["}", "  }", "}"] == Printed(r) + ["  }", "}"];
  }

  lemma ClosedTwice(u: seq<string>, id: string, a: Scan)
    requires 14 <= |u| && Scanned(u, id) == a
    ensures Scanned(u + ["}", "  }", "}"], id) == Late(Late(Late(a, "}"), "  }"), "}")
  {
    hide Scanned, Early, Late;
    ScannedMore(u, "}", id);
    ScannedMore(u + ["}"], "  }", id);
    ScannedMore(u + ["}"] + ["  }"], "}", id);
    assert u + ["}"] + ["  }"] + ["}"] == u + ["}", "  }", "}"];
  }

  /** What an accepted early line holds. */
  lemma StringRead(line: string, name: string) returns (body: string)
    requires StringLine(line, name, ",")
    ensures Body(body) && line == Field(name, body) + ","
  {
    var n := |line| - 2;
    body := line[|name| + 1..n];
    assert line == line[..|name| + 1] + body + line[n..];
  }

  lemma BoolRead(line: string, name: string) returns (b: bool)
    requires BoolLine(line, name)
    ensures line == name + Bool(b) + ","
  {
    b := line == name + "true,";
    assert name + "true," == name + "true" + "," && name + "false," == name + "false" + ",";
  }

  lemma HashRead(line: string, name: string) returns (hash: string)
    requires HashLine(line, name)
    ensures IsHash(hash) && line == Field(name, hash) + ","
  {
    hash := line[|name| + 1..|name| + 65];
  }

  /** The automaton before its twelfth line, having refused nothing. */
  lemma PrefixKept(lines: seq<string>, k: nat, id: string)
    requires k < |lines| && !Scanned(lines, id).bad
    ensures !Scanned(lines[..k], id).bad && !Scanned(lines[..k + 1], id).bad
    ensures Scanned(lines[..k + 1], id) == Next(Scanned(lines[..k], id), k + 1, lines[k], id)
  {
    hide Scanned, Next;
    ScannedNext(lines, k, id);
    assert lines[..k] + lines[k..] == lines && lines[..k + 1] + lines[k + 1..] == lines;
    if Scanned(lines[..k], id).bad { RefusalStays(lines[..k], lines[k..], id); }
    if Scanned(lines[..k + 1], id).bad { RefusalStays(lines[..k + 1], lines[k + 1..], id); }
  }

  lemma {:induction false} EarlyOpen(lines: seq<string>, id: string)
    requires |lines| <= 11
    ensures !Scanned(lines, id).closed && (|lines| <= 10 ==> !Scanned(lines, id).override)
    ensures 3 <= |lines| && !Scanned(lines, id).bad ==>
      !Scanned(lines, id).phase.Nothing? && IsPhase(lines[2], Phase(Scanned(lines, id).phase))
  {
    hide Field, Good, EndsInComma, Phased;
    if lines != [] {
      var k := |lines| - 1;
      EarlyOpen(lines[..k], id);
      hide Scanned, Phase, IsPhase;
      PhasedForm(Scanned(lines[..k], id), lines[k]);
      ScannedNext(lines, k, id);
      assert lines[..k + 1] == lines;
      if k >= 3 { assert lines[..k][2] == lines[2]; }
    }
  }

  /** An accepted file without an override has twelve lines. */
  lemma TwelveLines(lines: seq<string>, id: string)
    requires Recognised(lines, id).Some? && !Scanned(lines, id).override
    ensures |lines| == 12 && lines[11] == "}" && !EndsInComma(lines[10])
    ensures Scanned(lines[..11], id).phase == Scanned(lines, id).phase
  {
    hide Scanned, Field, StringLine, HashLine, BoolLine, OptionalComma, EndsInComma;
    if |lines| <= 11 {
      EarlyOpen(lines, id);
    } else {
      PrefixKept(lines, 10, id);
      PrefixKept(lines, 11, id);
      EarlyOpen(lines[..10], id);
      if |lines| > 12 {
        PrefixKept(lines, 12, id);
        OverrideLate(lines, 13, id);
      } else {
        assert lines[..12] == lines;
      }
    }
  }

  lemma {:induction false} OverrideStays(lines: seq<string>, more: seq<string>, id: string)
    requires Scanned(lines, id).override
    ensures Scanned(lines + more, id).override
    decreases |more|
  {
    hide Scanned, Next;
    if more == [] {
      assert lines + more == lines;
    } else {
      ScannedMore(lines, more[0], id);
      StepOverride(Scanned(lines, id), |lines| + 1, more[0], id);
      OverrideStays(lines + [more[0]], more[1..], id);
      assert lines + [more[0]] + more[1..] == lines + more;
    }
  }

  lemma StepOverride(s: Scan, n: nat, line: string, id: string)
    requires s.override
    ensures Next(s, n, line, id).override
  {
    hide Good, StringLine, OptionalComma, EndsInComma, Field, Phased;
    PhasedForm(s, line);
    if n > 14 { hide Early; } else { hide Late; }
  }

  lemma OverrideLate(lines: seq<string>, k: nat, id: string)
    requires k <= |lines|
    ensures Scanned(lines[..k], id).override ==> Scanned(lines, id).override
  {
    hide Scanned;
    assert lines[..k] + lines[k..] == lines;
    if Scanned(lines[..k], id).override { OverrideStays(lines[..k], lines[k..], id); }
  }

  /**
   Without an override, the script accepts nothing but what the printer writes: an accepted file is
   some finished record's, line for line.
   */
  lemma AcceptedIsPrinted(lines: seq<string>, id: string) returns (r: Record)
    requires Recognised(lines, id).Some? && !Scanned(lines, id).override
    ensures WellFormed(r) && r.id == id && r.override.None?
    ensures lines == Printed(r) && Decided(r) == Recognised(lines, id)
  {
    TwelveLines(lines, id);
    var phase := Scanned(lines, id).phase;
    EarlyOpen(lines[..11], id);
    r := Fields(lines, id, phase);
    hide Recognised, Scanned, Top, WellFormed;
    assert lines[..11] + ["}"] == lines;
    assert lines == Printed(r);
    PrintedRecognised(r);
  }

  lemma Fields(lines: seq<string>, id: string, phase: Found) returns (r: Record)
    requires 12 <= |lines| && !Scanned(lines, id).bad
    requires Scanned(lines[..11], id).phase == phase && !phase.Nothing?
    requires IsPhase(lines[2], Phase(phase))
    ensures WellFormed(r) && r.id == id && lines[..11] == Top(r)
    ensures r.override == if EndsInComma(lines[10]) then Some(Override(true, "", "", "")) else None
  {
    hide Scanned, Field, Bool, Body, IsHash, Good, EndsInComma, Phase;
    var started, deadline, generation, previous := Stamps(lines, id);
    var install, enabled := FirstFlags(lines, id);
    var confirmed, undone := LastFlags(lines, id, phase);
    var override := if EndsInComma(lines[10]) then Some(Override(true, "", "", "")) else None;
    r := Record(id, Phase(phase), started, deadline, generation, previous, install, enabled, confirmed, undone,
                override);
    assert |Top(r)| == 11;
    assert lines[..11] == Top(r);
  }

  lemma Stamps(lines: seq<string>, id: string)
    returns (started: string, deadline: string, generation: string, previous: string)
    requires 12 <= |lines| && !Scanned(lines, id).bad
    ensures lines[0] == "{" && lines[1] == Field(ID, id) + ","
    ensures Body(started) && lines[3] == Field(STARTED, started) + ","
    ensures Body(deadline) && lines[4] == Field(DEADLINE, deadline) + ","
    ensures IsHash(generation) && lines[5] == Field(GENERATION, generation) + ","
    ensures (previous == "" || IsHash(previous)) && lines[6] == Field(PREVIOUS, previous) + ","
  {
    hide Scanned, StringLine, BoolLine, HashLine, EndsInComma, Field, Bool, Body, IsHash, Phased;
    PrefixKept(lines, 0, id);
    PrefixKept(lines, 1, id);
    started := StringRead(lines[3], STARTED) by { PrefixKept(lines, 3, id); }
    deadline := StringRead(lines[4], DEADLINE) by { PrefixKept(lines, 4, id); }
    generation := HashRead(lines[5], GENERATION) by { PrefixKept(lines, 5, id); }
    PrefixKept(lines, 6, id);
    previous := "";
    if lines[6] != Field(PREVIOUS, "") + "," { previous := HashRead(lines[6], PREVIOUS); }
  }

  lemma FirstFlags(lines: seq<string>, id: string) returns (install: bool, enabled: bool)
    requires 12 <= |lines| && !Scanned(lines, id).bad
    ensures lines[7] == FRESH + Bool(install) + "," && lines[8] == ENABLED + Bool(enabled) + ","
  {
    hide Scanned, StringLine, BoolLine, HashLine, EndsInComma, Field, Bool, Phased;
    PrefixKept(lines, 7, id);
    PrefixKept(lines, 8, id);
    install := BoolRead(lines[7], FRESH);
    enabled := BoolRead(lines[8], ENABLED);
  }

  lemma LastFlags(lines: seq<string>, id: string, phase: Found) returns (confirmed: bool, undone: bool)
    requires 12 <= |lines| && !Scanned(lines, id).bad
    requires Scanned(lines[..11], id).phase == phase && !phase.Nothing?
    ensures lines[9] == CONFIRMED + Bool(confirmed) + ","
    ensures lines[10] == ROLLEDBACK + Bool(undone) + (if EndsInComma(lines[10]) then "," else "")
  {
    hide Scanned, StringLine, HashLine, Field;
    PrefixKept(lines, 9, id);
    PrefixKept(lines, 10, id);
    CommaSeen(ROLLEDBACK + "true");
    CommaSeen(ROLLEDBACK + "false");
    assert ROLLEDBACK + "true" + "," == ROLLEDBACK + "true," && ROLLEDBACK + "false" + "," == ROLLEDBACK + "false,";
    hide EndsInComma;
    assert CONFIRMED + "true" + "," == CONFIRMED + "true,";
    confirmed := BoolRead(lines[9], CONFIRMED);
    undone := phase.Undone?;
    assert ROLLEDBACK + Bool(undone) + "" == ROLLEDBACK + Bool(undone);
  }
}
