/**
 What the rendered rules mean. The template is a function from a configuration to first-match rule
 chains; each chain's verdict is proved equal to one declarative predicate on the configuration.
 */
module Policy {
  import opened Common
  import opened Net
  import opened Bits
  import opened Sorting
  import Ddns

  // ---------- configuration ----------

  datatype OpenPort = OpenPort(protocol: string, port: nat, endPort: nat)

  /** A whitelist entry: its text, and the address or prefix the text denotes. */
  datatype Source = Single(text: string, addr: Addr) | Block(text: string, prefix: Prefix)

  datatype Ssh = Ssh(mode: string, v4: seq<Source>, v6: seq<Source>, ddns: bool, hosts: seq<string>, prefixLen: nat)

  datatype Trusted = Trusted(enabled: bool, interfaces: seq<string>, forwarding: bool)

  datatype Docker = Docker(enabled: bool, interfaces: seq<string>)

  datatype Config = Config(wan: string, openPorts: seq<OpenPort>, ssh: Ssh, trusted: Trusted, docker: Docker)

  // ---------- packets ----------

  datatype Connection = New | Established | Related | Invalid | Untracked

  /** `noReturnVia` and `noReturn` are the outcomes of the two reverse-path lookups. */
  datatype Packet = Packet(iif: string, oif: string, source: Addr, protocol: string, port: nat, syn: bool,
                           state: Connection, dnat: bool, originalPort: nat, noReturnVia: bool, noReturn: bool)

  datatype Limiter = SynFlood | Static4 | Static6 | Dynamic4 | Dynamic6

  /** What the rules consult beside the packet: each limiter's outcome and the two runtime sets. */
  datatype Env = Env(limit: Limiter -> bool, dynamic4: seq<Addr>, dynamic6: seq<Prefix>)

  // ---------- rules ----------

  datatype Element = Element(protocol: string, low: nat, high: nat)

  datatype Match =
    | Ipv4Icmp
    | Protocol(name: string)
    | In(interfaces: seq<string>)
    | Out(interfaces: seq<string>)
    | Tracked
    | State(state: Connection)
    | Family(v4: bool)
    | NoReturnVia
    | NoReturn
    | NotLinkLocal
    | Syn
    | Limit(limiter: Limiter)
    | From(v4: bool, sources: seq<Source>)
    | FromDynamic(v4: bool)
    | TcpPort(port: nat)
    | PortIn(elements: seq<Element>)
    | OriginalIn(elements: seq<Element>)
    | Dnat

  datatype Verdict = Accept | Drop | Jump(chain: seq<Rule>)

  datatype Rule = Rule(matches: seq<Match>, verdict: Verdict)

  /** A trailing star matches any ending. */
  predicate Names(pattern: string, device: string) {
    if pattern != "" && pattern[|pattern| - 1] == '*'
    then |pattern| - 1 <= |device| && device[..|pattern| - 1] == pattern[..|pattern| - 1]
    else device == pattern
  }

  predicate NamedBy(patterns: seq<string>, device: string) {
    exists n :: n in patterns && Names(n, device)
  }

  predicate Covers(s: Source, a: Addr) {
    match s
    case Single(_, addr) => addr == a
    case Block(_, prefix) => Holds(prefix, a)
  }

  predicate Lists(es: seq<Element>, protocol: string, port: nat) {
    exists e :: e in es && e.protocol == protocol && e.low <= port <= e.high
  }

  /** fe80::/10 */
  const LINKLOCAL := Prefix(V6(0xfe80_0000_0000_0000_0000_0000_0000_0000), 10)

  predicate Applies(m: Match, p: Packet, env: Env) {
    match m
    case Ipv4Icmp => p.source.V4? && p.protocol == "icmp"
    case Protocol(name) => p.protocol == name
    case In(interfaces) => NamedBy(interfaces, p.iif)
    case Out(interfaces) => NamedBy(interfaces, p.oif)
    case Tracked => p.state.Established? || p.state.Related?
    case State(state) => p.state == state
    case Family(v4) => p.source.V4? == v4
    case NoReturnVia => p.noReturnVia
    case NoReturn => p.noReturn
    case NotLinkLocal => p.source.V6? && !Holds(LINKLOCAL, p.source)
    case Syn => p.protocol == "tcp" && p.syn
    case Limit(limiter) => env.limit(limiter)
    case From(v4, sources) => p.source.V4? == v4 && exists s :: s in sources && Covers(s, p.source)
    case FromDynamic(v4) =>
      if v4 then p.source.V4? && p.source in env.dynamic4
      else p.source.V6? && exists x :: x in env.dynamic6 && Holds(x, p.source)
    case TcpPort(port) => p.protocol == "tcp" && p.port == port
    case PortIn(elements) => Lists(elements, p.protocol, p.port)
    case OriginalIn(elements) => Lists(elements, p.protocol, p.originalPort)
    case Dnat => p.dnat
  }

  predicate AllApply(ms: seq<Match>, p: Packet, env: Env) {
    forall m :: m in ms ==> Applies(m, p, env)
  }

  /** The verdict of the first rule that decides: accepted, dropped, or nothing. */
  function Run(rules: seq<Rule>, p: Packet, env: Env): Option<bool> {
    if rules == [] then None
    else if !AllApply(rules[0].matches, p, env) then Run(rules[1..], p, env)
    else
      match rules[0].verdict
      case Accept => Some(true)
      case Drop => Some(false)
      case Jump(chain) =>
        var inner := Run(chain, p, env);
        if inner.Some? then inner else Run(rules[1..], p, env)
  }

  // ---------- the render model ----------

  datatype Model = Model(wan: string, openPorts: seq<Element>,
                         mode: string, v4: seq<Source>, v6: seq<Source>, ddns: bool,
                         trustedEnabled: bool, trusted: seq<string>, trustForwarding: bool,
                         dockerEnabled: bool, docker: seq<string>)

  function Rendered(o: OpenPort): Element {
    Element(o.protocol, o.port, if o.endPort != 0 && o.endPort != o.port then o.endPort else o.port)
  }

  function PortText(e: Element): string {
    if e.low == e.high then Decimal(e.low) else Decimal(e.low) + "-" + Decimal(e.high)
  }

  function ElementLess(): (Element, Element) -> bool {
    (x: Element, y: Element) =>
      if x.protocol != y.protocol then Less(x.protocol, y.protocol) else Less(PortText(x), PortText(y))
  }

  function SourceLess(): (Source, Source) -> bool {
    (x: Source, y: Source) => Less(x.text, y.text)
  }

  function StringLess(): (string, string) -> bool {
    (x: string, y: string) => Less(x, y)
  }

  function RenderedPorts(os: seq<OpenPort>): (r: seq<Element>)
    ensures |r| == |os| && forall i :: 0 <= i < |os| ==> r[i] == Rendered(os[i])
  {
    seq(|os|, i requires 0 <= i < |os| => Rendered(os[i]))
  }

  method RenderPorts(os: seq<OpenPort>) returns (r: seq<Element>)
    ensures r == RenderedPorts(os)
  {
    r := [];
    for i := 0 to |os|
      invariant r == RenderedPorts(os[..i])
    {
      assert os[..i + 1] == os[..i] + [os[i]];
      var high := os[i].port;
      if os[i].endPort != 0 && os[i].endPort != os[i].port { high := os[i].endPort; }
      r := r + [Element(os[i].protocol, os[i].port, high)];
    }
    assert os[..|os|] == os;
  }

  /** Where the dash is, or the length. */
  function Dash(s: string): (i: nat)
    ensures i <= |s|
  {
    if s == "" || s[0] == '-' then 0 else 1 + Dash(s[1..])
  }

  /** A port or a range as nft reads it. */
  function ReadPorts(s: string): (nat, nat) {
    var i := Dash(s);
    if i == |s| then (Number(s), Number(s)) else (Number(s[..i]), Number(s[i + 1..]))
  }

  lemma {:induction false} DashAfter(a: string, b: string)
    requires '-' !in a
    ensures Dash(a) == |a| && Dash(a + "-" + b) == |a|
  {
    if a != "" {
      DashAfter(a[1..], b);
      assert (a + "-" + b)[1..] == a[1..] + "-" + b;
    }
  }

  /** The rendered text of an element is read back as its range. */
  lemma PortTextReads(e: Element)
    ensures ReadPorts(PortText(e)) == (e.low, e.high)
  {
    var a, b := Digits(e.low), Digits(e.high);
    DigitsPlain(e.low);
    DigitsRead(e.low);
    DigitsRead(e.high);
    assert forall k :: 0 <= k < |a| ==> a[k] != '-';
    DashAfter(a, b);
    var s := a + "-" + b;
    assert s[..|a|] == a && s[|a| + 1..] == b;
  }

  const DOCKERDEFAULT := ["br-*", "docker0"]

  function DockerInterfaces(d: Docker): seq<string> {
    if d.enabled && d.interfaces == [] then DOCKERDEFAULT else Sort(d.interfaces, StringLess())
  }

  function ModelOf(c: Config): Model {
    Model(
      if c.wan == "" then "eth0" else c.wan,
      Sort(RenderedPorts(c.openPorts), ElementLess()),
      if c.ssh.mode == "" then "open" else c.ssh.mode,
      Sort(c.ssh.v4, SourceLess()),
      Sort(c.ssh.v6, SourceLess()),
      c.ssh.ddns,
      c.trusted.enabled && c.trusted.interfaces != [],
      Sort(c.trusted.interfaces, StringLess()),
      c.trusted.enabled && c.trusted.forwarding && c.trusted.interfaces != [],
      c.docker.enabled,
      DockerInterfaces(c.docker))
  }

  /** A pattern that ends in a star names every interface that begins like it. */
  lemma StarNames(body: string, device: string)
    ensures Names(body + "*", device) <==> exists rest: string :: device == body + rest
  {
    if Names(body + "*", device) {
      assert (body + "*")[..|body|] == body;
      assert device == body + device[|body|..];
    }
    if rest: string :| device == body + rest {
      assert device[..|body|] == body && (body + "*")[..|body|] == body;
    }
  }

  ghost predicate Starred(pattern: string) {
    exists body: string :: pattern == body + "*"
  }

  /** Any other pattern names one. */
  lemma PlainNames(pattern: string, device: string)
    ensures !Starred(pattern) ==> (Names(pattern, device) <==> device == pattern)
  {
    if pattern != "" && pattern[|pattern| - 1] == '*' {
      assert pattern == pattern[..|pattern| - 1] + "*";
      assert Starred(pattern);
    }
  }

  // ---------- the template ----------

  function When(condition: bool, rule: Rule): seq<Rule> {
    if condition then [rule] else []
  }

  /** The rule that accepts SSH from one list, limited in the rate-limit mode. */
  function SshRule(m: Model, from: Match, limiter: Limiter): Rule {
    if m.mode == "whitelist-rate-limit" then Rule([from, TcpPort(22), Limit(limiter)], Accept)
    else Rule([from, TcpPort(22)], Accept)
  }

  function SshRules(m: Model): seq<Rule> {
    if m.mode == "open" then [Rule([In([m.wan]), TcpPort(22)], Accept)]
    else
      When(m.v4 != [], SshRule(m, From(true, m.v4), Static4))
      + When(m.v6 != [], SshRule(m, From(false, m.v6), Static6))
      + When(m.ddns, SshRule(m, FromDynamic(true), Dynamic4))
      + When(m.ddns, SshRule(m, FromDynamic(false), Dynamic6))
  }

  /** The rules before those that depend on the SSH mode. */
  function FirstRules(m: Model): seq<Rule> {
    [Rule([Ipv4Icmp], Accept), Rule([Protocol("icmpv6")], Accept)]
    + When(m.trustedEnabled, Rule([In(m.trusted)], Accept))
    + [Rule([Tracked], Accept), Rule([Protocol("tcp"), State(Invalid)], Drop), Rule([In(["lo"])], Accept)]
    + When(m.dockerEnabled, Rule([In(m.docker)], Accept))
    + [Rule([In([m.wan]), Family(true), NoReturnVia], Drop),
       Rule([In([m.wan]), NotLinkLocal, NoReturn], Drop),
       Rule([Syn, Limit(SynFlood)], Drop)]
  }

  function InputChain(m: Model): seq<Rule> {
    FirstRules(m) + SshRules(m) + [Rule([In([m.wan]), PortIn(m.openPorts)], Accept)]
  }

  function WanAllow(m: Model): seq<Rule> {
    [Rule([OriginalIn(m.openPorts)], Accept), Rule([], Drop)]
  }

  function WanAllow6(m: Model): seq<Rule> {
    [Rule([Dnat, OriginalIn(m.openPorts)], Accept), Rule([PortIn(m.openPorts)], Accept), Rule([], Drop)]
  }

  function GateChain(m: Model): seq<Rule> {
    [Rule([Ipv4Icmp], Accept), Rule([Protocol("icmpv6")], Accept)]
    + When(m.trustForwarding, Rule([In(m.trusted)], Accept))
    + When(m.trustForwarding, Rule([Out(m.trusted)], Accept))
    + [Rule([Tracked], Accept), Rule([Protocol("tcp"), State(Invalid)], Drop),
       Rule([Family(true), In([m.wan]), Out(m.docker), Dnat], Jump(WanAllow(m))),
       Rule([Family(false), In([m.wan]), Out(m.docker)], Jump(WanAllow6(m)))]
  }

  /** The input chain drops what no rule decides. */
  predicate InputAccepts(m: Model, p: Packet, env: Env) {
    Run(InputChain(m), p, env) == Some(true)
  }

  /** The gate accepts what no rule decides, and exists only with Docker. */
  predicate ForwardAccepts(m: Model, p: Packet, env: Env) {
    m.dockerEnabled ==> Run(GateChain(m), p, env) != Some(false)
  }

  /** The model as the renderer fills it in. */
  method NewModel(c: Config) returns (m: Model)
    ensures m == ModelOf(c)
  {
    var mode := c.ssh.mode;
    if mode == "" { mode := "open"; }
    var wan := c.wan;
    if wan == "" { wan := "eth0"; }
    var ports := RenderPorts(c.openPorts);
    ports := Sort(ports, ElementLess());
    var v4 := Sort(c.ssh.v4, SourceLess());
    var v6 := Sort(c.ssh.v6, SourceLess());
    var trusted := Sort(c.trusted.interfaces, StringLess());
    var docker := Sort(c.docker.interfaces, StringLess());
    if c.docker.enabled && |docker| == 0 { docker := DOCKERDEFAULT; }
    m := Model(wan, ports, mode, v4, v6, c.ssh.ddns,
               c.trusted.enabled && 0 < |trusted|, trusted,
               c.trusted.enabled && c.trusted.forwarding && 0 < |trusted|,
               c.docker.enabled, docker);
  }

  // ---------- what the policy promises ----------

  predicate OnWan(c: Config, device: string) {
    Names(if c.wan == "" then "eth0" else c.wan, device)
  }

  predicate OnTrusted(c: Config, device: string) {
    c.trusted.enabled && NamedBy(c.trusted.interfaces, device)
  }

  predicate OnDocker(c: Config, device: string) {
    c.docker.enabled && NamedBy(if c.docker.interfaces == [] then DOCKERDEFAULT else c.docker.interfaces, device)
  }

  predicate Icmp(p: Packet) {
    (p.source.V4? && p.protocol == "icmp") || p.protocol == "icmpv6"
  }

  predicate Known(p: Packet) {
    p.state.Established? || p.state.Related?
  }

  predicate BadTcp(p: Packet) {
    p.protocol == "tcp" && p.state.Invalid?
  }

  /** No route leads back to the sender. */
  predicate Spoofed(c: Config, p: Packet) {
    && OnWan(c, p.iif)
    && if p.source.V4? then p.noReturnVia else p.noReturn && !Holds(LINKLOCAL, p.source)
  }

  predicate Flooding(p: Packet, env: Env) {
    p.protocol == "tcp" && p.syn && env.limit(SynFlood)
  }

  predicate Listed(sources: seq<Source>, a: Addr) {
    exists s :: s in sources && Covers(s, a)
  }

  /** The address is whitelisted in a list whose limiter, if any, lets the packet pass. */
  predicate Whitelisted(c: Config, a: Addr, env: Env) {
    var limited := c.ssh.mode == "whitelist-rate-limit";
    if a.V4? then
      || (Listed(c.ssh.v4, a) && (limited ==> env.limit(Static4)))
      || (c.ssh.ddns && a in env.dynamic4 && (limited ==> env.limit(Dynamic4)))
    else
      || (Listed(c.ssh.v6, a) && (limited ==> env.limit(Static6)))
      || (c.ssh.ddns && (exists x :: x in env.dynamic6 && Holds(x, a)) && (limited ==> env.limit(Dynamic6)))
  }

  predicate OpenMode(c: Config) {
    c.ssh.mode == "" || c.ssh.mode == "open"
  }

  predicate SshAdmits(c: Config, p: Packet, env: Env) {
    p.protocol == "tcp" && p.port == 22 && if OpenMode(c) then OnWan(c, p.iif) else Whitelisted(c, p.source, env)
  }

  function High(o: OpenPort): nat {
    if o.endPort == 0 then o.port else o.endPort
  }

  /** The port is in `open_ports`. */
  predicate Public(c: Config, protocol: string, port: nat) {
    exists o :: o in c.openPorts && o.protocol == protocol && o.port <= port <= High(o)
  }

  /** What the host accepts. */
  predicate Admitted(c: Config, p: Packet, env: Env) {
    || Icmp(p) || OnTrusted(c, p.iif) || Known(p)
    || (!BadTcp(p) &&
        (|| p.iif == "lo" || OnDocker(c, p.iif)
         || (!Spoofed(c, p) && !Flooding(p, env)
             && (SshAdmits(c, p, env) || (OnWan(c, p.iif) && Public(c, p.protocol, p.port))))))
  }

  /** What the forward gate drops, on its way from the WAN to a container. */
  predicate Gated(c: Config, p: Packet) {
    && OnWan(c, p.iif) && OnDocker(c, p.oif)
    && if p.source.V4? then p.dnat && !Public(c, p.protocol, p.originalPort)
       else !(p.dnat && Public(c, p.protocol, p.originalPort)) && !Public(c, p.protocol, p.port)
  }

  predicate Forwarded(c: Config, p: Packet) {
    || !c.docker.enabled || Icmp(p)
    || (c.trusted.forwarding && (OnTrusted(c, p.iif) || OnTrusted(c, p.oif)))
    || Known(p) || (!BadTcp(p) && !Gated(c, p))
  }

  // ---------- chains ----------

  function OrElse(a: Option<bool>, b: Option<bool>): Option<bool> {
    if a.Some? then a else b
  }

  lemma {:induction false} RunConcat(a: seq<Rule>, b: seq<Rule>, p: Packet, env: Env)
    ensures Run(a + b, p, env) == OrElse(Run(a, p, env), Run(b, p, env))
  {
    hide AllApply;
    if a == [] {
      assert a + b == b;
    } else {
      assert (a + b)[0] == a[0] && (a + b)[1..] == a[1..] + b;
      RunConcat(a[1..], b, p, env);
    }
  }

  /** What one rule says. */
  function Says(r: Rule, p: Packet, env: Env): Option<bool> {
    if !AllApply(r.matches, p, env) then None
    else match r.verdict
      case Accept => Some(true)
      case Drop => Some(false)
      case Jump(chain) => Run(chain, p, env)
  }

  lemma RunOne(r: Rule, p: Packet, env: Env)
    ensures Run([r], p, env) == Says(r, p, env)
  {
    hide AllApply;
    assert [r][1..] == [];
  }

  lemma RunFirst(r: Rule, rest: seq<Rule>, p: Packet, env: Env)
    ensures Run([r] + rest, p, env) == OrElse(Says(r, p, env), Run(rest, p, env))
  {
    RunConcat([r], rest, p, env);
    RunOne(r, p, env);
  }

  lemma RunWhen(condition: bool, r: Rule, p: Packet, env: Env)
    ensures Run(When(condition, r), p, env) == if condition then Says(r, p, env) else None
  {
    if condition { RunOne(r, p, env); }
  }

  lemma All(ms: seq<Match>, p: Packet, env: Env)
    ensures |ms| == 1 ==> (AllApply(ms, p, env) <==> Applies(ms[0], p, env))
    ensures |ms| == 2 ==> (AllApply(ms, p, env) <==> Applies(ms[0], p, env) && Applies(ms[1], p, env))
    ensures |ms| == 3 ==>
      (AllApply(ms, p, env) <==> Applies(ms[0], p, env) && Applies(ms[1], p, env) && Applies(ms[2], p, env))
    ensures |ms| == 4 ==>
      (AllApply(ms, p, env) <==>
        Applies(ms[0], p, env) && Applies(ms[1], p, env) && Applies(ms[2], p, env) && Applies(ms[3], p, env))
  {
    hide Applies;
    assert forall m :: m in ms <==> exists i :: 0 <= i < |ms| && ms[i] == m;
  }

  lemma NamedByOne(name: string, device: string)
    ensures NamedBy([name], device) <==> Names(name, device)
  {
    hide Names;
    assert name in [name];
  }

  lemma RunTwo(a: Rule, b: Rule, p: Packet, env: Env)
    ensures Run([a, b], p, env) == OrElse(Says(a, p, env), Says(b, p, env))
  {
    assert [a, b] == [a] + [b];
    RunFirst(a, [b], p, env);
    RunOne(b, p, env);
  }

  lemma RunThree(a: Rule, b: Rule, c: Rule, p: Packet, env: Env)
    ensures Run([a, b, c], p, env) == OrElse(Says(a, p, env), OrElse(Says(b, p, env), Says(c, p, env)))
  {
    assert [a, b, c] == [a] + [b, c];
    RunFirst(a, [b, c], p, env);
    RunTwo(b, c, p, env);
  }

  lemma RunFour(a: Rule, b: Rule, c: Rule, d: Rule, p: Packet, env: Env)
    ensures Run([a, b, c, d], p, env)
         == OrElse(Says(a, p, env), OrElse(Says(b, p, env), OrElse(Says(c, p, env), Says(d, p, env))))
  {
    assert [a, b, c, d] == [a] + [b, c, d];
    RunFirst(a, [b, c, d], p, env);
    RunThree(b, c, d, p, env);
  }

  // ---------- the input chain ----------

  lemma IcmpRules(p: Packet, env: Env)
    ensures Run([Rule([Ipv4Icmp], Accept), Rule([Protocol("icmpv6")], Accept)], p, env)
        == if Icmp(p) then Some(true) else None
  {
    hide Run, AllApply;
    RunTwo(Rule([Ipv4Icmp], Accept), Rule([Protocol("icmpv6")], Accept), p, env);
    All([Ipv4Icmp], p, env);
    All([Protocol("icmpv6")], p, env);
  }

  lemma StateRules(p: Packet, env: Env)
    ensures Run([Rule([Tracked], Accept), Rule([Protocol("tcp"), State(Invalid)], Drop),
                 Rule([In(["lo"])], Accept)], p, env)
         == if Known(p) then Some(true) else if BadTcp(p) then Some(false)
            else if p.iif == "lo" then Some(true) else None
  {
    hide Run, AllApply;
    RunThree(Rule([Tracked], Accept), Rule([Protocol("tcp"), State(Invalid)], Drop), Rule([In(["lo"])], Accept), p,
        env);
    All([Tracked], p, env);
    All([Protocol("tcp"), State(Invalid)], p, env);
    All([In(["lo"])], p, env);
    hide NamedBy;
    NamedByOne("lo", p.iif);
    assert Names("lo", p.iif) <==> p.iif == "lo";
  }

  lemma SpoofRules(wan: string, p: Packet, env: Env)
    ensures Run([Rule([In([wan]), Family(true), NoReturnVia], Drop), Rule([In([wan]), NotLinkLocal, NoReturn], Drop),
                 Rule([Syn, Limit(SynFlood)], Drop)], p, env)
         == if Names(wan, p.iif) && (if p.source.V4? then p.noReturnVia else p.noReturn && !Holds(LINKLOCAL, p.source))
            then Some(false) else if Flooding(p, env) then Some(false) else None
  {
    hide Run, AllApply, Names, NamedBy, Holds;
    RunThree(Rule([In([wan]), Family(true), NoReturnVia], Drop), Rule([In([wan]), NotLinkLocal, NoReturn], Drop),
             Rule([Syn, Limit(SynFlood)], Drop), p, env);
    All([In([wan]), Family(true), NoReturnVia], p, env);
    All([In([wan]), NotLinkLocal, NoReturn], p, env);
    All([Syn, Limit(SynFlood)], p, env);
    NamedByOne(wan, p.iif);
  }

  lemma InterfaceRule(condition: bool, patterns: seq<string>, p: Packet, env: Env)
    ensures Run(When(condition, Rule([In(patterns)], Accept)), p, env)
         == if condition && NamedBy(patterns, p.iif) then Some(true) else None
    ensures Run(When(condition, Rule([Out(patterns)], Accept)), p, env)
         == if condition && NamedBy(patterns, p.oif) then Some(true) else None
  {
    hide Run, AllApply, NamedBy;
    RunWhen(condition, Rule([In(patterns)], Accept), p, env);
    RunWhen(condition, Rule([Out(patterns)], Accept), p, env);
    All([In(patterns)], p, env);
    All([Out(patterns)], p, env);
  }

  /** The rules before those that depend on the SSH mode, in one expression. */
  lemma FirstMeaning(m: Model, p: Packet, env: Env)
    ensures Run(FirstRules(m), p, env) ==
      if Icmp(p) || (m.trustedEnabled && NamedBy(m.trusted, p.iif)) || Known(p) then Some(true)
      else if BadTcp(p) then Some(false)
      else if p.iif == "lo" || (m.dockerEnabled && NamedBy(m.docker, p.iif)) then Some(true)
      else if Names(m.wan, p.iif)
              && (if p.source.V4? then p.noReturnVia else p.noReturn && !Holds(LINKLOCAL, p.source)) then Some(false)
      else if Flooding(p, env) then Some(false)
      else None
  {
    hide Run, AllApply, NamedBy, Names, Holds, When, Icmp, Known, BadTcp, Flooding;
    var a := [Rule([Ipv4Icmp], Accept), Rule([Protocol("icmpv6")], Accept)];
    var b := When(m.trustedEnabled, Rule([In(m.trusted)], Accept));
    var c := [Rule([Tracked], Accept), Rule([Protocol("tcp"), State(Invalid)], Drop), Rule([In(["lo"])], Accept)];
    var d := When(m.dockerEnabled, Rule([In(m.docker)], Accept));
    var e := [Rule([In([m.wan]), Family(true), NoReturnVia], Drop), Rule([In([m.wan]), NotLinkLocal, NoReturn], Drop),
              Rule([Syn, Limit(SynFlood)], Drop)];
    RunConcat(a + b + c + d, e, p, env);
    RunConcat(a + b + c, d, p, env);
    RunConcat(a + b, c, p, env);
    RunConcat(a, b, p, env);
    IcmpRules(p, env);
    InterfaceRule(m.trustedEnabled, m.trusted, p, env);
    StateRules(p, env);
    InterfaceRule(m.dockerEnabled, m.docker, p, env);
    SpoofRules(m.wan, p, env);
  }

  lemma SshRuleMeaning(m: Model, condition: bool, from: Match, limiter: Limiter, p: Packet, env: Env)
    ensures Run(When(condition, SshRule(m, from, limiter)), p, env) ==
      if condition && Applies(from, p, env) && p.protocol == "tcp" && p.port == 22
         && (m.mode == "whitelist-rate-limit" ==> env.limit(limiter))
      then Some(true) else None
  {
    hide Run, AllApply;
    RunWhen(condition, SshRule(m, from, limiter), p, env);
    All([from, TcpPort(22), Limit(limiter)], p, env);
    All([from, TcpPort(22)], p, env);
  }

  predicate ModelWhitelisted(m: Model, a: Addr, env: Env) {
    var limited := m.mode == "whitelist-rate-limit";
    if a.V4? then
      || (Listed(m.v4, a) && (limited ==> env.limit(Static4)))
      || (m.ddns && a in env.dynamic4 && (limited ==> env.limit(Dynamic4)))
    else
      || (Listed(m.v6, a) && (limited ==> env.limit(Static6)))
      || (m.ddns && (exists x :: x in env.dynamic6 && Holds(x, a)) && (limited ==> env.limit(Dynamic6)))
  }

  lemma SshMeaning(m: Model, p: Packet, env: Env)
    ensures Run(SshRules(m), p, env) ==
      if p.protocol == "tcp" && p.port == 22
         && (if m.mode == "open" then Names(m.wan, p.iif) else ModelWhitelisted(m, p.source, env))
      then Some(true) else None
  {
    hide Run, AllApply, Names, NamedBy, Covers, Holds;
    if m.mode == "open" {
      RunOne(Rule([In([m.wan]), TcpPort(22)], Accept), p, env);
      All([In([m.wan]), TcpPort(22)], p, env);
      NamedByOne(m.wan, p.iif);
    } else {
      var a := When(m.v4 != [], SshRule(m, From(true, m.v4), Static4));
      var b := When(m.v6 != [], SshRule(m, From(false, m.v6), Static6));
      var c := When(m.ddns, SshRule(m, FromDynamic(true), Dynamic4));
      var d := When(m.ddns, SshRule(m, FromDynamic(false), Dynamic6));
      RunConcat(a + b + c, d, p, env);
      RunConcat(a + b, c, p, env);
      RunConcat(a, b, p, env);
      SshRuleMeaning(m, m.v4 != [], From(true, m.v4), Static4, p, env);
      SshRuleMeaning(m, m.v6 != [], From(false, m.v6), Static6, p, env);
      SshRuleMeaning(m, m.ddns, FromDynamic(true), Dynamic4, p, env);
      SshRuleMeaning(m, m.ddns, FromDynamic(false), Dynamic6, p, env);
      hide When, SshRule;
    }
  }

  /** What the renderer's sorting and defaults leave of the configuration. */
  lemma ModelMeans(c: Config, device: string, protocol: string, port: nat, a: Addr)
    ensures
      var m := ModelOf(c);
      && (Names(m.wan, device) <==> OnWan(c, device))
      && (m.trustedEnabled && NamedBy(m.trusted, device) <==> OnTrusted(c, device))
      && (m.trustForwarding && NamedBy(m.trusted, device) <==> c.trusted.forwarding && OnTrusted(c, device))
      && (m.dockerEnabled && NamedBy(m.docker, device) <==> OnDocker(c, device))
      && (Lists(m.openPorts, protocol, port) <==> Public(c, protocol, port))
      && (Listed(m.v4, a) <==> Listed(c.ssh.v4, a)) && (Listed(m.v6, a) <==> Listed(c.ssh.v6, a))
  {
    hide Names, Covers, Sort;
    SortMembers(c.trusted.interfaces, StringLess());
    SortMembers(c.docker.interfaces, StringLess());
    SortMembers(c.ssh.v4, SourceLess());
    SortMembers(c.ssh.v6, SourceLess());
    PortsMean(c, protocol, port);
  }

  lemma PortsMean(c: Config, protocol: string, port: nat)
    ensures Lists(ModelOf(c).openPorts, protocol, port) <==> Public(c, protocol, port)
  {
    hide Sort;
    var es := RenderedPorts(c.openPorts);
    SortMembers(es, ElementLess());
    forall o | o in c.openPorts ensures Rendered(o) in es {
      var i :| 0 <= i < |c.openPorts| && c.openPorts[i] == o;
      assert es[i] == Rendered(o);
    }
    forall e | e in es ensures exists o :: o in c.openPorts && Rendered(o) == e {
      var i :| 0 <= i < |es| && es[i] == e;
      assert c.openPorts[i] in c.openPorts;
    }
  }

  /** The rendered input chain accepts exactly what the policy admits. */
  lemma InputMeaning(c: Config, p: Packet, env: Env)
    ensures InputAccepts(ModelOf(c), p, env) <==> Admitted(c, p, env)
  {
    var m := ModelOf(c);
    var last := Rule([In([m.wan]), PortIn(m.openPorts)], Accept);
    hide Run, AllApply, Names, NamedBy, Listed, Lists, Public, OnWan, OnTrusted, OnDocker, Holds, FirstRules,
        SshRules, ModelOf, Icmp, Known, BadTcp, Flooding;
    RunConcat(FirstRules(m) + SshRules(m), [last], p, env);
    RunConcat(FirstRules(m), SshRules(m), p, env);
    FirstMeaning(m, p, env);
    SshMeaning(m, p, env);
    RunOne(last, p, env);
    All([In([m.wan]), PortIn(m.openPorts)], p, env);
    NamedByOne(m.wan, p.iif);
    ModelMeans(c, p.iif, p.protocol, p.port, p.source);
    ModelFields(c);
  }

  lemma ModelFields(c: Config)
    ensures ModelOf(c).ddns == c.ssh.ddns && (ModelOf(c).mode == "open" <==> OpenMode(c))
    ensures ModelOf(c).mode == "whitelist-rate-limit" <==> c.ssh.mode == "whitelist-rate-limit"
    ensures ModelOf(c).dockerEnabled == c.docker.enabled
  {
  }

  // ---------- the forward gate ----------

  lemma JumpRules(m: Model, p: Packet, env: Env)
    ensures Run([Rule([Tracked], Accept), Rule([Protocol("tcp"), State(Invalid)], Drop),
                 Rule([Family(true), In([m.wan]), Out(m.docker), Dnat], Jump(WanAllow(m))),
                 Rule([Family(false), In([m.wan]), Out(m.docker)], Jump(WanAllow6(m)))], p, env)
         == if Known(p) then Some(true) else if BadTcp(p) then Some(false)
            else if Names(m.wan, p.iif) && NamedBy(m.docker, p.oif) && (p.source.V4? ==> p.dnat) then
              (if p.source.V4? then Run(WanAllow(m), p, env) else Run(WanAllow6(m), p, env))
            else None
  {
    hide Run, AllApply, Names, NamedBy, WanAllow, WanAllow6;
    RunFour(Rule([Tracked], Accept), Rule([Protocol("tcp"), State(Invalid)], Drop),
            Rule([Family(true), In([m.wan]), Out(m.docker), Dnat], Jump(WanAllow(m))),
            Rule([Family(false), In([m.wan]), Out(m.docker)], Jump(WanAllow6(m))), p, env);
    All([Tracked], p, env);
    All([Protocol("tcp"), State(Invalid)], p, env);
    All([Family(true), In([m.wan]), Out(m.docker), Dnat], p, env);
    All([Family(false), In([m.wan]), Out(m.docker)], p, env);
    NamedByOne(m.wan, p.iif);
    AllowDecides(m, p, env);
  }

  lemma AllowDecides(m: Model, p: Packet, env: Env)
    ensures Run(WanAllow(m), p, env) == Some(Lists(m.openPorts, p.protocol, p.originalPort))
    ensures Run(WanAllow6(m), p, env)
         == Some((p.dnat && Lists(m.openPorts, p.protocol, p.originalPort)) || Lists(m.openPorts, p.protocol, p.port))
  {
    hide Run, AllApply, Lists;
    RunTwo(Rule([OriginalIn(m.openPorts)], Accept), Rule([], Drop), p, env);
    RunThree(Rule([Dnat, OriginalIn(m.openPorts)], Accept), Rule([PortIn(m.openPorts)], Accept), Rule([], Drop), p,
        env);
    All([OriginalIn(m.openPorts)], p, env);
    All([Dnat, OriginalIn(m.openPorts)], p, env);
    All([PortIn(m.openPorts)], p, env);
    NothingToApply(p, env);
  }

  lemma NothingToApply(p: Packet, env: Env)
    ensures AllApply([], p, env)
  {
  }

  lemma GateRun(m: Model, p: Packet, env: Env)
    ensures Run(GateChain(m), p, env) ==
      if Icmp(p) || (m.trustForwarding && (NamedBy(m.trusted, p.iif) || NamedBy(m.trusted, p.oif)))
          || Known(p) then Some(true)
      else if BadTcp(p) then Some(false)
      else if Names(m.wan, p.iif) && NamedBy(m.docker, p.oif) && (p.source.V4? ==> p.dnat) then
        Some(if p.source.V4? then Lists(m.openPorts, p.protocol, p.originalPort)
             else (p.dnat && Lists(m.openPorts, p.protocol, p.originalPort)) || Lists(m.openPorts, p.protocol, p.port))
      else None
  {
    hide Run, AllApply, Names, NamedBy, Lists, When, WanAllow, WanAllow6, Icmp, Known, BadTcp;
    var a := [Rule([Ipv4Icmp], Accept), Rule([Protocol("icmpv6")], Accept)];
    var b := When(m.trustForwarding, Rule([In(m.trusted)], Accept));
    var c := When(m.trustForwarding, Rule([Out(m.trusted)], Accept));
    var d := [Rule([Tracked], Accept), Rule([Protocol("tcp"), State(Invalid)], Drop),
              Rule([Family(true), In([m.wan]), Out(m.docker), Dnat], Jump(WanAllow(m))),
              Rule([Family(false), In([m.wan]), Out(m.docker)], Jump(WanAllow6(m)))];
    RunConcat(a + b + c, d, p, env);
    RunConcat(a + b, c, p, env);
    RunConcat(a, b, p, env);
    IcmpRules(p, env);
    InterfaceRule(m.trustForwarding, m.trusted, p, env);
    JumpRules(m, p, env);
    AllowDecides(m, p, env);
  }

  /** The rendered gate lets through exactly what the policy forwards. */
  lemma GateMeaning(c: Config, p: Packet, env: Env)
    ensures ForwardAccepts(ModelOf(c), p, env) <==> Forwarded(c, p)
  {
    hide Run, Names, NamedBy, Lists, Listed, Public, OnWan, OnTrusted, OnDocker, ModelOf, GateChain, Icmp, Known,
        BadTcp;
    var m := ModelOf(c);
    GateRun(m, p, env);
    ModelMeans(c, p.iif, p.protocol, p.port, p.source);
    ModelMeans(c, p.oif, p.protocol, p.originalPort, p.source);
    ModelFields(c);
  }

  /**
   The Docker gate: new packets from the WAN to a container pass on IPv4 when they were not
   translated or their original port is public, on IPv6 when a public port is their own or, once
   translated, their original one. Packets that do not come from the WAN, or do not go to a
   container, all pass, but for invalid TCP.
   */
  lemma WanGate(c: Config, p: Packet, env: Env)
    requires c.docker.enabled && p.state.New? && !Icmp(p)
    requires c.trusted.forwarding ==> !OnTrusted(c, p.iif) && !OnTrusted(c, p.oif)
    ensures
      var through := ForwardAccepts(ModelOf(c), p, env);
      if !(OnWan(c, p.iif) && OnDocker(c, p.oif)) then through
      else if p.source.V4? then through <==> !p.dnat || Public(c, p.protocol, p.originalPort)
      else through <==> (p.dnat && Public(c, p.protocol, p.originalPort)) || Public(c, p.protocol, p.port)
  {
    GateMeaning(c, p, env);
  }

  // ---------- what the verdict depends on ----------

  ghost predicate SameMembers<T(!new)>(a: seq<T>, b: seq<T>) {
    forall x :: x in a <==> x in b
  }

  /** Configurations that list the same things in other orders, or leave a default out. */
  ghost predicate Equivalent(c: Config, d: Config) {
    && (if c.wan == "" then "eth0" else c.wan) == (if d.wan == "" then "eth0" else d.wan)
    && SameMembers(c.openPorts, d.openPorts) && SameMembers(c.ssh.v4, d.ssh.v4) && SameMembers(c.ssh.v6, d.ssh.v6)
    && (c.ssh.mode == d.ssh.mode || (OpenMode(c) && OpenMode(d))) && c.ssh.ddns == d.ssh.ddns
    && c.trusted.enabled == d.trusted.enabled && c.trusted.forwarding == d.trusted.forwarding
    && SameMembers(c.trusted.interfaces, d.trusted.interfaces)
    && c.docker.enabled == d.docker.enabled
    && SameMembers(if c.docker.interfaces == [] then DOCKERDEFAULT else c.docker.interfaces,
                   if d.docker.interfaces == [] then DOCKERDEFAULT else d.docker.interfaces)
  }

  /** Order, repetition and spelled-out defaults change no verdict. */
  lemma OrderIrrelevant(c: Config, d: Config, p: Packet, env: Env)
    requires Equivalent(c, d)
    ensures InputAccepts(ModelOf(c), p, env) <==> InputAccepts(ModelOf(d), p, env)
    ensures ForwardAccepts(ModelOf(c), p, env) <==> ForwardAccepts(ModelOf(d), p, env)
  {
    InputMeaning(c, p, env);
    InputMeaning(d, p, env);
    GateMeaning(c, p, env);
    GateMeaning(d, p, env);
    hide InputAccepts, ForwardAccepts, Names, Covers, Holds;
    assert OnWan(c, p.iif) == OnWan(d, p.iif);
    assert Public(c, p.protocol, p.port) == Public(d, p.protocol, p.port);
    assert Public(c, p.protocol, p.originalPort) == Public(d, p.protocol, p.originalPort);
    assert Whitelisted(c, p.source, env) == Whitelisted(d, p.source, env);
  }

  // ---------- one rendering ----------

  lemma TextOrder(a: string, b: string, c: string)
    ensures Less(a, b) ==> !Less(b, a)
    ensures !Less(b, a) && !Less(c, b) ==> !Less(c, a)
    ensures !Less(a, b) && !Less(b, a) ==> a == b
  {
    LessTotal(a, b);
    LessTotal(b, c);
    LessTotal(a, c);
    if Less(c, a) && Less(a, b) { LessTransitive(c, a, b); }
  }

  lemma StringsOrdered()
    ensures WeakOrder(StringLess()) && forall x, y :: !StringLess()(x, y) && !StringLess()(y, x) ==> x == y
  {
    hide Less;
    forall x: string, y: string, z: string
      ensures Less(x, y) ==> !Less(y, x)
      ensures !Less(y, x) && !Less(z, y) ==> !Less(z, x)
      ensures !Less(x, y) && !Less(y, x) ==> x == y
    {
      TextOrder(x, y, z);
    }
  }

  lemma SourcesOrdered()
    ensures WeakOrder(SourceLess())
    ensures forall x, y :: !SourceLess()(x, y) && !SourceLess()(y, x) ==> x.text == y.text
  {
    hide Less;
    forall x: Source, y: Source, z: Source
      ensures Less(x.text, y.text) ==> !Less(y.text, x.text)
      ensures !Less(y.text, x.text) && !Less(z.text, y.text) ==> !Less(z.text, x.text)
      ensures !Less(x.text, y.text) && !Less(y.text, x.text) ==> x.text == y.text
    {
      TextOrder(x.text, y.text, z.text);
    }
  }

  lemma ElementsOrdered()
    ensures WeakOrder(ElementLess())
    ensures forall x, y :: !ElementLess()(x, y) && !ElementLess()(y, x) ==> x == y
  {
    hide Less, PortText;
    forall x: Element, y: Element, z: Element
      ensures ElementLess()(x, y) ==> !ElementLess()(y, x)
      ensures !ElementLess()(y, x) && !ElementLess()(z, y) ==> !ElementLess()(z, x)
      ensures !ElementLess()(x, y) && !ElementLess()(y, x) ==> x == y
    {
      TextOrder(x.protocol, y.protocol, z.protocol);
      TextOrder(PortText(x), PortText(y), PortText(z));
      PortTextReads(x);
      PortTextReads(y);
    }
  }

  function PortsWithout(b: seq<OpenPort>, k: nat): seq<OpenPort>
    requires k < |b|
  {
    b[..k] + b[k + 1..]
  }

  lemma PortTaken(b: seq<OpenPort>, k: nat)
    requires k < |b|
    ensures |PortsWithout(b, k)| == |b| - 1 && multiset(b) == multiset(PortsWithout(b, k)) + multiset{b[k]}
    ensures multiset(RenderedPorts(b)) == multiset(RenderedPorts(PortsWithout(b, k))) + multiset{Rendered(b[k])}
  {
    assert b == b[..k] + [b[k]] + b[k + 1..];
    hide Rendered;
    var r, r' := RenderedPorts(b), RenderedPorts(PortsWithout(b, k));
    assert r == r'[..k] + [Rendered(b[k])] + r'[k..];
    assert r' == r'[..k] + r'[k..];
  }

  lemma Cancelled<T>(a: multiset<T>, b: multiset<T>, x: T)
    requires a + multiset{x} == b + multiset{x}
    ensures a == b
  {
    assert a == a + multiset{x} - multiset{x};
  }

  lemma {:induction false} RenderedPermuted(a: seq<OpenPort>, b: seq<OpenPort>)
    requires multiset(a) == multiset(b)
    ensures multiset(RenderedPorts(a)) == multiset(RenderedPorts(b))
    decreases |a|
  {
    SameLength(a, b);
    hide RenderedPorts, Rendered, PortsWithout;
    if a != [] {
      assert a[0] in multiset(b);
      var k :| 0 <= k < |b| && b[k] == a[0];
      PortTaken(a, 0);
      PortTaken(b, k);
      Cancelled(multiset(PortsWithout(a, 0)), multiset(PortsWithout(b, k)), a[0]);
      RenderedPermuted(PortsWithout(a, 0), PortsWithout(b, k));
    }
  }

  /** What an entry's text denotes is settled by the text. */
  ghost predicate Denoting(sources: seq<Source>) {
    forall x, y :: x in sources && y in sources && x.text == y.text ==> x == y
  }

  /**
   The rendering, and so the generation's name, does not depend on the order in which ports, whitelist entries and
   interfaces are listed.
   */
  lemma RenderCanonical(c: Config, d: Config)
    requires multiset(c.openPorts) == multiset(d.openPorts)
    requires multiset(c.ssh.v4) == multiset(d.ssh.v4) && multiset(c.ssh.v6) == multiset(d.ssh.v6)
    requires multiset(c.trusted.interfaces) == multiset(d.trusted.interfaces)
    requires multiset(c.docker.interfaces) == multiset(d.docker.interfaces)
    requires d.(openPorts := c.openPorts, ssh := d.ssh.(v4 := c.ssh.v4, v6 := c.ssh.v6),
                trusted := d.trusted.(interfaces := c.trusted.interfaces),
                docker := d.docker.(interfaces := c.docker.interfaces)) == c
    requires Denoting(c.ssh.v4) && Denoting(c.ssh.v6)
    ensures ModelOf(c) == ModelOf(d)
  {
    hide Less, PortText, ElementLess, SourceLess, StringLess, Sort, WeakOrder;
    RenderedPermuted(c.openPorts, d.openPorts);
    StringsOrdered();
    SourcesOrdered();
    ElementsOrdered();
    SortCanonical(RenderedPorts(c.openPorts), RenderedPorts(d.openPorts), ElementLess());
    SortCanonical(c.ssh.v4, d.ssh.v4, SourceLess());
    SortCanonical(c.ssh.v6, d.ssh.v6, SourceLess());
    SortCanonical(c.trusted.interfaces, d.trusted.interfaces, StringLess());
    SortCanonical(c.docker.interfaces, d.docker.interfaces, StringLess());
    SameLength(c.trusted.interfaces, d.trusted.interfaces);
    SameLength(c.docker.interfaces, d.docker.interfaces);
  }

  lemma SameLength<T>(a: seq<T>, b: seq<T>)
    requires multiset(a) == multiset(b)
    ensures |a| == |b|
  {
    assert |a| == |multiset(a)| == |multiset(b)| == |b|;
  }

  ghost predicate Within<T(!new)>(a: seq<T>, b: seq<T>) {
    forall x :: x in a ==> x in b
  }

  /** More open ports and more whitelist entries never close anything. */
  lemma Widening(c: Config, d: Config, p: Packet, env: Env)
    requires Within(c.openPorts, d.openPorts) && Within(c.ssh.v4, d.ssh.v4) && Within(c.ssh.v6, d.ssh.v6)
    requires d == c.(openPorts := d.openPorts, ssh := c.ssh.(v4 := d.ssh.v4, v6 := d.ssh.v6))
    ensures InputAccepts(ModelOf(c), p, env) ==> InputAccepts(ModelOf(d), p, env)
    ensures ForwardAccepts(ModelOf(c), p, env) ==> ForwardAccepts(ModelOf(d), p, env)
  {
    InputMeaning(c, p, env);
    InputMeaning(d, p, env);
    GateMeaning(c, p, env);
    GateMeaning(d, p, env);
    hide InputAccepts, ForwardAccepts, Names, Covers, Holds;
    assert Public(c, p.protocol, p.port) ==> Public(d, p.protocol, p.port);
    assert Public(c, p.protocol, p.originalPort) ==> Public(d, p.protocol, p.originalPort);
    assert Whitelisted(c, p.source, env) ==> Whitelisted(d, p.source, env);
  }

  /** An entry of a list covers its address, or the addresses that agree with its prefix. */
  lemma CoversExactly(s: Source, a: Addr)
    requires s.Block? ==> s.prefix.len <= Width(s.prefix.addr) && Fits(s.prefix.addr) && Fits(a)
    ensures Covers(s, a) <==> match s
      case Single(_, addr) => a == addr
      case Block(_, p) => SameFamily(p.addr, a) && AgreeOn(p.addr, a, p.len)
  {
    if s.Block? { HoldsExactly(s.prefix, a); }
  }

  /** With no interface configured, Docker's are docker0 and those that begin with br-. */
  lemma DockerUnconfigured(c: Config, device: string)
    requires c.docker.enabled && c.docker.interfaces == []
    ensures OnDocker(c, device) <==> device == "docker0" || exists rest: string :: device == "br-" + rest
  {
    StarNames("br-", device);
    assert "br-" + "*" == "br-*";
    assert !Starred("docker0") by { assert forall body: string :: (body + "*")[|body|] == '*'; }
    PlainNames("docker0", device);
    hide Names;
    assert "br-*" in DOCKERDEFAULT && "docker0" in DOCKERDEFAULT;
    assert forall n :: n in DOCKERDEFAULT ==> n == "br-*" || n == "docker0";
  }

  /** The prefix the reverse-path rule spares is the link-local one. */
  lemma LinkLocal(a: Addr)
    ensures Holds(LINKLOCAL, a) <==>
      && a.V6?
      && 0xfe80_0000_0000_0000_0000_0000_0000_0000 <= a.bits <= 0xfebf_ffff_ffff_ffff_ffff_ffff_ffff_ffff
  {
    LinkLocalExactly(a);
  }

  // ---------- SSH coverage ----------

  /** The session an administrator applies from, as its environment describes it. */
  datatype Session = NoSession | Unreadable | Session(client: Addr, server: Option<Addr>)

  /** What the check looks up: the hosts' addresses, and the addresses on an interface. */
  datatype Lookups = Lookups(a: string -> seq<Addr>, aaaa: string -> seq<Addr>, on: string -> seq<Addr>)

  predicate StaticCovers(c: Config, client: Addr) {
    Listed(c.ssh.v4 + c.ssh.v6, client)
  }

  predicate AnswerCovers(x: Addr, len: nat, client: Addr) {
    x == client || (x.V6? && client.V6? && Holds(Masked(Prefix(x, len)), client))
  }

  predicate HostCovers(c: Config, k: Lookups, host: string, client: Addr) {
    exists x :: x in k.a(host) + k.aaaa(host) && AnswerCovers(x, c.ssh.prefixLen, client)
  }

  predicate DynamicCovers(c: Config, k: Lookups, client: Addr) {
    c.ssh.ddns && exists h :: h in c.ssh.hosts && HostCovers(c, k, h, client)
  }

  predicate TrustedCovers(c: Config, k: Lookups, server: Option<Addr>) {
    c.trusted.enabled && server.Some? && exists n :: n in c.trusted.interfaces && server.value in k.on(n)
  }

  method CheckCoverage(c: Config, session: Session, k: Lookups, acknowledged: bool, reasoned: bool) returns (ok: bool)
    ensures ok <==>
      || c.ssh.mode == "open" || session.NoSession?
      || (session.Session? &&
          (|| StaticCovers(c, session.client) || DynamicCovers(c, k, session.client)
           || TrustedCovers(c, k, session.server)
           || (acknowledged && reasoned)))
  {
    hide Covers, AnswerCovers;
    if c.ssh.mode == "open" { return true; }
    if session.NoSession? { return true; }
    if session.Unreadable? { return false; }
    var client := session.client;
    var covered := false;
    var entries := c.ssh.v4 + c.ssh.v6;
    for i := 0 to |entries|
      invariant covered <==> Listed(entries[..i], client)
    {
      assert entries[..i + 1] == entries[..i] + [entries[i]];
      if Covers(entries[i], client) { covered := true; }
    }
    assert entries[..|entries|] == entries;
    if !covered && c.ssh.ddns {
      covered := CheckHosts(c, k, client);
    }
    if !covered && c.trusted.enabled {
      covered := CheckInterfaces(c, k, session.server);
    }
    if covered { return true; }
    return acknowledged && reasoned;
  }

  method CheckHosts(c: Config, k: Lookups, client: Addr) returns (covered: bool)
    ensures covered <==> exists h :: h in c.ssh.hosts && HostCovers(c, k, h, client)
  {
    hide AnswerCovers;
    covered := false;
    for i := 0 to |c.ssh.hosts|
      invariant covered <==> exists h :: h in c.ssh.hosts[..i] && HostCovers(c, k, h, client)
    {
      var host := c.ssh.hosts[i];
      assert c.ssh.hosts[..i + 1] == c.ssh.hosts[..i] + [host];
      var here := CheckAnswers(k.a(host) + k.aaaa(host), c.ssh.prefixLen, client);
      assert here <==> HostCovers(c, k, host, client);
      if here { covered := true; }
    }
    assert c.ssh.hosts[..|c.ssh.hosts|] == c.ssh.hosts;
  }

  method CheckAnswers(addrs: seq<Addr>, len: nat, client: Addr) returns (covered: bool)
    ensures covered <==> exists x :: x in addrs && AnswerCovers(x, len, client)
  {
    hide AnswerCovers;
    covered := false;
    for i := 0 to |addrs|
      invariant covered <==> exists x :: x in addrs[..i] && AnswerCovers(x, len, client)
    {
      assert addrs[..i + 1] == addrs[..i] + [addrs[i]];
      if AnswerCovers(addrs[i], len, client) { covered := true; }
    }
    assert addrs[..|addrs|] == addrs;
  }

  method CheckInterfaces(c: Config, k: Lookups, server: Option<Addr>) returns (covered: bool)
    ensures covered <==> server.Some? && exists n :: n in c.trusted.interfaces && server.value in k.on(n)
  {
    covered := false;
    var names := c.trusted.interfaces;
    for i := 0 to |names|
      invariant covered <==> server.Some? && exists n :: n in names[..i] && server.value in k.on(n)
    {
      assert names[..i + 1] == names[..i] + [names[i]];
      if server.Some? && server.value in k.on(names[i]) { covered := true; }
    }
    assert names[..|names|] == names;
  }

  /** The lists hold entries of their own family, as validation requires. */
  predicate ListsTyped(c: Config) {
    && (forall s :: s in c.ssh.v4 ==> SourceAddr(s).V4?)
    && (forall s :: s in c.ssh.v6 ==> SourceAddr(s).V6?)
  }

  function SourceAddr(s: Source): Addr {
    match s
    case Single(_, addr) => addr
    case Block(_, prefix) => prefix.addr
  }

  /** The runtime sets were resolved from the answers the check sees, and these are of their kinds. */
  ghost predicate Resolved(c: Config, k: Lookups, r: Ddns.Resolver, env: Env) {
    && (c.ssh.prefixLen == 56 || c.ssh.prefixLen == 64)
    && Ddns.Canonical(Ddns.Entries(env.dynamic4, env.dynamic6), r, c.ssh.prefixLen, c.ssh.hosts)
    && forall h :: h in c.ssh.hosts ==> SameAnswers(k, r, h)
  }

  ghost predicate SameAnswers(k: Lookups, r: Ddns.Resolver, host: string) {
    && r.normalize(host).Some?
    && k.a(host) == r.a(r.normalize(host).value).addrs && k.aaaa(host) == r.aaaa(r.normalize(host).value).addrs
    && (forall x :: x in k.a(host) ==> x.V4?)
    && (forall x :: x in k.aaaa(host) ==> x.V6? && !Mapped(x))
  }

  /** The check's one list is, for a client, the list of its family. */
  lemma StaticExactly(c: Config, client: Addr)
    requires ListsTyped(c)
    ensures StaticCovers(c, client) <==> Listed(if client.V4? then c.ssh.v4 else c.ssh.v6, client)
  {
    hide Holds;
    forall s | s in c.ssh.v4 + c.ssh.v6 && Covers(s, client)
      ensures if client.V4? then s in c.ssh.v4 else s in c.ssh.v6
    {
      CoversFamily(s, client);
    }
  }

  lemma CoversFamily(s: Source, a: Addr)
    requires Covers(s, a)
    ensures SourceAddr(s).V4? == a.V4?
  {
  }

  /** The client is in the runtime set of its family. */
  predicate InSet(client: Addr, env: Env) {
    if client.V4? then client in env.dynamic4 else exists y :: y in env.dynamic6 && Holds(y, client)
  }

  /** The check finds a client in the hosts' answers exactly when it is in the set resolved from them. */
  lemma DynamicExactly(c: Config, k: Lookups, r: Ddns.Resolver, client: Addr, env: Env)
    requires c.ssh.ddns && Resolved(c, k, r, env)
    ensures DynamicCovers(c, k, client) <==> InSet(client, env)
  {
    hide Holds, Masked, Mapped, InSet, Resolved, SameAnswers;
    if DynamicCovers(c, k, client) { AnswersInSet(c, k, r, client, env); }
    if InSet(client, env) {
      if client.V4? { SetInAnswers4(c, k, r, client, env); } else { SetInAnswers6(c, k, r, client, env); }
    }
  }

  lemma AnswersInSet(c: Config, k: Lookups, r: Ddns.Resolver, client: Addr, env: Env)
    requires DynamicCovers(c, k, client) && Resolved(c, k, r, env)
    ensures c.ssh.ddns && InSet(client, env)
  {
    hide Holds, Masked, Mapped;
    var h :| h in c.ssh.hosts && HostCovers(c, k, h, client);
    var x :| x in k.a(h) + k.aaaa(h) && AnswerCovers(x, c.ssh.prefixLen, client);
    assert SameAnswers(k, r, h);
    if x.V4? {
      assert x in Ddns.HostV4(r, h);
      InDynamic4(c, r, env, h, x);
    } else {
      InDynamic6(c, k, r, env, h, x, client);
    }
  }

  lemma SetInAnswers4(c: Config, k: Lookups, r: Ddns.Resolver, client: Addr, env: Env)
    requires c.ssh.ddns && Resolved(c, k, r, env) && client.V4? && InSet(client, env)
    ensures DynamicCovers(c, k, client)
  {
    hide Holds, Masked, Mapped;
    var s := set y | y in env.dynamic4;
    assert client in s && s == Ddns.AllV4(r, c.ssh.hosts);
    var h :| h in c.ssh.hosts && client in Ddns.HostV4(r, h);
    assert SameAnswers(k, r, h);
    assert client in k.a(h) + k.aaaa(h) && AnswerCovers(client, c.ssh.prefixLen, client);
    assert HostCovers(c, k, h, client);
  }

  lemma SetInAnswers6(c: Config, k: Lookups, r: Ddns.Resolver, client: Addr, env: Env)
    requires c.ssh.ddns && Resolved(c, k, r, env) && client.V6? && InSet(client, env)
    ensures DynamicCovers(c, k, client)
  {
    hide Holds, Masked, Mapped;
    var len := c.ssh.prefixLen;
    var y :| y in env.dynamic6 && Holds(y, client);
    var s := set z | z in env.dynamic6;
    assert y in s && s == Ddns.AllV6(r, len, c.ssh.hosts);
    var h :| h in c.ssh.hosts && y in Ddns.HostV6(r, len, h);
    assert SameAnswers(k, r, h);
    var x :| x in k.aaaa(h) && Ddns.DerivePrefix(x, len) == Some(y);
    assert Unmap(x) == x && y == Masked(Prefix(x, len));
    assert x in k.a(h) + k.aaaa(h) && AnswerCovers(x, len, client);
    assert HostCovers(c, k, h, client);
  }

  /** An answer covers itself and, on IPv6, whatever agrees with it on the prefix. */
  lemma AnswerExactly(x: Addr, len: nat, client: Addr)
    requires Fits(x) && Fits(client) && len <= 128
    ensures AnswerCovers(x, len, client) <==> x == client || (x.V6? && client.V6? && AgreeOn(x, client, len))
  {
    if x.V6? && client.V6? {
      MaskedHolds(Prefix(x, len), client);
      HoldsExactly(Prefix(x, len), client);
    }
  }

  lemma InDynamic4(c: Config, r: Ddns.Resolver, env: Env, h: string, x: Addr)
    requires Ddns.Canonical(Ddns.Entries(env.dynamic4, env.dynamic6), r, c.ssh.prefixLen, c.ssh.hosts)
    requires h in c.ssh.hosts && x in Ddns.HostV4(r, h)
    ensures x in env.dynamic4
  {
    hide Ddns.HostV4;
    var s := set y | y in env.dynamic4;
    assert x in Ddns.AllV4(r, c.ssh.hosts) && Ddns.AllV4(r, c.ssh.hosts) == s;
  }

  lemma InDynamic6(c: Config, k: Lookups, r: Ddns.Resolver, env: Env, h: string, x: Addr, client: Addr)
    requires Resolved(c, k, r, env) && h in c.ssh.hosts && SameAnswers(k, r, h)
    requires x in k.aaaa(h) && AnswerCovers(x, c.ssh.prefixLen, client)
    ensures exists y :: y in env.dynamic6 && Holds(y, client)
  {
    var len := c.ssh.prefixLen;
    var y := Ddns.DerivePrefix(x, len).value;
    Ddns.DerivedHolds(x, len);
    MaskedHolds(Prefix(x, len), client);
    assert y in Ddns.HostV6(r, len, h);
    var s := set z | z in env.dynamic6;
    assert y in Ddns.AllV6(r, len, c.ssh.hosts) && Ddns.AllV6(r, len, c.ssh.hosts) == s;
    assert y in env.dynamic6;
  }

  /** No limiter turns the packet away in the rate-limit mode. */
  predicate Admits(c: Config, env: Env) {
    c.ssh.mode == "whitelist-rate-limit" ==>
      env.limit(Static4) && env.limit(Static6) && env.limit(Dynamic4) && env.limit(Dynamic6)
  }

  lemma CoverageWhitelists(c: Config, k: Lookups, r: Ddns.Resolver, client: Addr, env: Env)
    requires ListsTyped(c) && (c.ssh.ddns ==> Resolved(c, k, r, env)) && Admits(c, env)
    ensures Whitelisted(c, client, env) <==> StaticCovers(c, client) || DynamicCovers(c, k, client)
  {
    hide Holds, Resolved, ListsTyped, StaticCovers, Listed;
    StaticExactly(c, client);
    if c.ssh.ddns { DynamicExactly(c, k, r, client, env); }
  }

  /**
   In a hardened mode the check's static and DDNS coverage is exact: of a new SSH packet that no other
   rule decides, and that no limiter turns away, the rendered rules accept it if and only if the check finds
   its sender covered.
   */
  lemma CoverageExact(c: Config, k: Lookups, r: Ddns.Resolver, p: Packet, env: Env)
    requires !OpenMode(c) && ListsTyped(c) && (c.ssh.ddns ==> Resolved(c, k, r, env)) && Admits(c, env)
    requires p.protocol == "tcp" && p.port == 22 && p.state.New? && !Spoofed(c, p) && !Flooding(p, env)
    requires p.iif != "lo" && !OnTrusted(c, p.iif) && !OnDocker(c, p.iif) && !(OnWan(c, p.iif) && Public(c, "tcp", 22))
    ensures InputAccepts(ModelOf(c), p, env) <==> StaticCovers(c, p.source) || DynamicCovers(c, k, p.source)
  {
    hide StaticCovers, DynamicCovers, Resolved, ListsTyped, Spoofed, Flooding, InputAccepts, Whitelisted, Public, OnWan,
        OnTrusted, OnDocker;
    InputMeaning(c, p, env);
    CoverageWhitelists(c, k, r, p.source, env);
  }

  /**
   When the check passes by static or DDNS coverage in a hardened mode, the rendered rules accept a
   new SSH packet from that client, unless the reverse-path or SYN-limit rules drop it or, in the
   rate-limit mode, the limiter of the covering list turns it away.
   */
  lemma CoverageSound(c: Config, k: Lookups, r: Ddns.Resolver, p: Packet, env: Env)
    requires c.ssh.mode == "whitelist-only" || c.ssh.mode == "whitelist-rate-limit"
    requires ListsTyped(c)
    requires p.protocol == "tcp" && p.port == 22 && p.state.New? && !Spoofed(c, p) && !Flooding(p, env)
    requires
      || (StaticCovers(c, p.source)
          && (c.ssh.mode == "whitelist-rate-limit" ==> env.limit(if p.source.V4? then Static4 else Static6)))
      || (DynamicCovers(c, k, p.source) && Resolved(c, k, r, env)
          && (c.ssh.mode == "whitelist-rate-limit" ==> env.limit(if p.source.V4? then Dynamic4 else Dynamic6)))
    ensures InputAccepts(ModelOf(c), p, env)
  {
    hide StaticCovers, DynamicCovers, Resolved, ListsTyped, Spoofed, Flooding, InputAccepts, Listed, Holds;
    InputMeaning(c, p, env);
    if StaticCovers(c, p.source) { StaticExactly(c, p.source); }
    if DynamicCovers(c, k, p.source) && Resolved(c, k, r, env) { AnswersInSet(c, k, r, p.source, env); }
  }
}
