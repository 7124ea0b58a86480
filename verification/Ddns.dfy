/** Resolving the DDNS hosts into the entries of the two runtime sets. */
module Ddns {
  import opened Common
  import opened Net
  import opened Bits
  import opened Sorting

  // ---------- lookups ----------

  datatype LookupError =
    | AddrError(text: string)
    | DnsError(timeout: bool, temporary: bool, notFound: bool, text: string)
    | OtherError

  /** What a lookup returns; addresses can come with an error. */
  datatype Answer = Answer(addrs: seq<Addr>, error: Option<LookupError>)

  /** The resolver, and the syntax check that precedes it. */
  datatype Resolver = Resolver(normalize: string -> Option<string>, a: string -> Answer, aaaa: string -> Answer)

  datatype Config = Config(enabled: bool, hosts: seq<string>, prefixLen: int, ttl: int)

  const NOADDRESS := "no suitable address found"

  /** The name exists but has no address of the asked family. */
  predicate NoData(e: LookupError) {
    match e
    case AddrError(text) => text == NOADDRESS
    case DnsError(timeout, temporary, notFound, text) => !timeout && !temporary && (notFound || text == NOADDRESS)
    case OtherError => false
  }

  predicate Failed(x: Answer) {
    x.error.Some? && !NoData(x.error.value)
  }

  function Defaults(c: Config): Config {
    c.(prefixLen := if c.prefixLen == 0 then 56 else c.prefixLen,
       ttl := if c.ttl == 0 then 3_600_000_000_000 else c.ttl)
  }

  function DerivePrefix(a: Addr, len: int): Option<Prefix> {
    if len != 56 && len != 64 then None
    else if Unmap(a).V4? then None
    else Some(Masked(Prefix(Unmap(a), len)))
  }

  // ---------- what a host stands for ----------

  /** The IPv4 entries of a host: its A answers that are IPv4 addresses as they stand. */
  function HostV4(r: Resolver, host: string): set<Addr> {
    match r.normalize(host)
    case None => {}
    case Some(h) => set x | x in r.a(h).addrs && x.V4?
  }

  /** The IPv6 entries of a host: the masked prefixes of its AAAA answers. */
  function HostV6(r: Resolver, len: int, host: string): set<Prefix> {
    match r.normalize(host)
    case None => {}
    case Some(h) => set x | x in r.aaaa(h).addrs && DerivePrefix(x, len).Some? :: DerivePrefix(x, len).value
  }

  /** A host resolves when neither lookup fails and some answer is usable. */
  predicate HostResolves(r: Resolver, len: int, host: string) {
    match r.normalize(host)
    case None => false
    case Some(h) =>
      && !Failed(r.a(h)) && !Failed(r.aaaa(h))
      && (|| (exists x :: x in r.a(h).addrs && Unmap(x).V4?)
          || (exists x :: x in r.aaaa(h).addrs && DerivePrefix(x, len).Some?))
  }

  function AllV4(r: Resolver, hosts: seq<string>): set<Addr> {
    set h, x | h in hosts && x in HostV4(r, h) :: x
  }

  function AllV6(r: Resolver, len: int, hosts: seq<string>): set<Prefix> {
    set h, x | h in hosts && x in HostV6(r, len, h) :: x
  }

  predicate AddrBefore(x: Addr, y: Addr) {
    Width(x) < Width(y) || (Width(x) == Width(y) && x.bits < y.bits)
  }

  function AddrLess(): (Addr, Addr) -> bool {
    (x: Addr, y: Addr) => AddrBefore(x, y)
  }

  function PrefixLess(): (Prefix, Prefix) -> bool {
    (x: Prefix, y: Prefix) => AddrBefore(x.addr, y.addr) || (x.addr == y.addr && x.len < y.len)
  }

  datatype Entries = Entries(v4: seq<Addr>, v6: seq<Prefix>)

  /** The canonical form of the hosts' entries: each once, in ascending order, and no others. */
  ghost predicate Canonical(e: Entries, r: Resolver, len: int, hosts: seq<string>) {
    && Ascending(e.v4, AddrLess()) && (set x | x in e.v4) == AllV4(r, hosts)
    && Ascending(e.v6, PrefixLess()) && (set x | x in e.v6) == AllV6(r, len, hosts)
  }

  /** Why a host does not resolve: the first of these that applies. */
  datatype Trouble = BadName | AFailed | AaaaFailed | NothingUsable

  /** What a host's lookups come to; nothing when it resolves. */
  function HostTrouble(r: Resolver, len: int, host: string): Option<Trouble> {
    match r.normalize(host)
    case None => Some(BadName)
    case Some(h) =>
      if Failed(r.a(h)) then Some(AFailed)
      else if Failed(r.aaaa(h)) then Some(AaaaFailed)
      else if HostResolves(r, len, host) then None
      else Some(NothingUsable)
  }

  /** The entries of all hosts, or the first host in order that does not resolve and why. */
  datatype Resolution = Resolved(entries: Entries) | Unresolved(host: string, trouble: Trouble)

  /** `i` is the first host that does not resolve. */
  predicate FirstUnresolved(r: Resolver, len: int, hosts: seq<string>, i: nat) {
    i < |hosts| && !HostResolves(r, len, hosts[i]) && forall j :: 0 <= j < i ==> HostResolves(r, len, hosts[j])
  }

  // ---------- resolving ----------

  lemma HostParts(r: Resolver, len: int, host: string)
    ensures HostResolves(r, len, host) <==>
      && r.normalize(host).Some?
      && !Failed(r.a(r.normalize(host).value)) && !Failed(r.aaaa(r.normalize(host).value))
      && !((forall x :: x in r.a(r.normalize(host).value).addrs ==> !Unmap(x).V4?)
        && (forall x :: x in r.aaaa(r.normalize(host).value).addrs ==> DerivePrefix(x, len).None?))
    ensures HostTrouble(r, len, host) ==
      if r.normalize(host).None? then Some(BadName)
      else if Failed(r.a(r.normalize(host).value)) then Some(AFailed)
      else if Failed(r.aaaa(r.normalize(host).value)) then Some(AaaaFailed)
      else if HostResolves(r, len, host) then None else Some(NothingUsable)
  {
  }

  method Resolve(cfg: Config, r: Resolver) returns (e: Resolution)
    ensures e.Resolved? <==> forall h :: h in cfg.hosts ==> HostResolves(r, Defaults(cfg).prefixLen, h)
    ensures e.Resolved? ==> Canonical(e.entries, r, Defaults(cfg).prefixLen, cfg.hosts)
    ensures e.Unresolved? ==>
      && (exists i: nat :: FirstUnresolved(r, Defaults(cfg).prefixLen, cfg.hosts, i) && cfg.hosts[i] == e.host)
      && Some(e.trouble) == HostTrouble(r, Defaults(cfg).prefixLen, e.host)
  {
    var len := Defaults(cfg).prefixLen;
    var seen4: set<Addr> := {};
    var seen6: set<Prefix> := {};
    var v4: seq<Addr> := [];
    var v6: seq<Prefix> := [];
    assert Collected(v4, seen4) && Collected(v6, seen6);
    hide HostResolves, Failed, DerivePrefix, Collected, HostTrouble;
    for i := 0 to |cfg.hosts|
      invariant Collected(v4, seen4) && seen4 == AllV4(r, cfg.hosts[..i])
      invariant Collected(v6, seen6) && seen6 == AllV6(r, len, cfg.hosts[..i])
      invariant forall j :: 0 <= j < i ==> HostResolves(r, len, cfg.hosts[j])
    {
      var host := cfg.hosts[i];
      assert host in cfg.hosts;
      HostParts(r, len, host);
      assert !HostResolves(r, len, host) ==> FirstUnresolved(r, len, cfg.hosts, i);
      var name := r.normalize(host);
      if name.None? { return Unresolved(host, BadName); }
      var answer4 := r.a(name.value);
      if Failed(answer4) { return Unresolved(host, AFailed); }
      v4, seen4 := CollectV4(answer4.addrs, v4, seen4);
      var answer6 := r.aaaa(name.value);
      if Failed(answer6) { return Unresolved(host, AaaaFailed); }
      var usable4 := CountV4(answer4.addrs);
      var usable6;
      v6, seen6, usable6 := CollectV6(answer6.addrs, len, v6, seen6);
      if usable4 + usable6 == 0 { return Unresolved(host, NothingUsable); }
      NextHost(r, len, cfg.hosts, i);
    }
    assert cfg.hosts[..|cfg.hosts|] == cfg.hosts;
    Arranged(v4, seen4, v6, seen6);
    return Resolved(Entries(Sort(v4, AddrLess()), Sort(v6, PrefixLess())));
  }

  /** A list holds each member of a set once. */
  ghost predicate Collected<T(!new)>(xs: seq<T>, seen: set<T>) {
    (set x | x in xs) == seen && forall i, j :: 0 <= i < j < |xs| ==> xs[i] != xs[j]
  }

  lemma CollectedNext<T(!new)>(xs: seq<T>, seen: set<T>, x: T)
    requires Collected(xs, seen) && x !in seen
    ensures Collected(xs + [x], seen + {x})
  {
    assert forall y :: y in xs + [x] <==> y in xs || y == x;
    assert forall i :: 0 <= i < |xs| ==> xs[i] in xs;
  }

  /** The IPv4 addresses among the answers that are new. */
  method CollectV4(addrs: seq<Addr>, was: seq<Addr>, seenBefore: set<Addr>) returns (v4: seq<Addr>, seen: set<Addr>)
    requires Collected(was, seenBefore)
    ensures Collected(v4, seen) && seen == seenBefore + set x | x in addrs && x.V4?
  {
    v4, seen := was, seenBefore;
    for i := 0 to |addrs|
      invariant Collected(v4, seen) && seen == seenBefore + set x | x in addrs[..i] && x.V4?
    {
      assert addrs[..i + 1] == addrs[..i] + [addrs[i]];
      var addr := addrs[i];
      if !addr.V4? { continue; }
      addr := Unmap(addr);
      if addr !in seen {
        CollectedNext(v4, seen, addr);
        seen := seen + {addr};
        v4 := v4 + [addr];
      }
    }
    assert addrs[..|addrs|] == addrs;
  }

  /** How many answers are IPv4 once unmapped. */
  method CountV4(addrs: seq<Addr>) returns (n: nat)
    ensures n == 0 <==> forall x :: x in addrs ==> !Unmap(x).V4?
  {
    n := 0;
    for i := 0 to |addrs|
      invariant n == 0 <==> forall x :: x in addrs[..i] ==> !Unmap(x).V4?
    {
      assert addrs[..i + 1] == addrs[..i] + [addrs[i]];
      if Unmap(addrs[i]).V4? { n := n + 1; }
    }
    assert addrs[..|addrs|] == addrs;
  }

  /** The prefixes of the answers that are new, and how many answers have one. */
  method CollectV6(addrs: seq<Addr>, len: int, was: seq<Prefix>, seenBefore: set<Prefix>)
    returns (v6: seq<Prefix>, seen: set<Prefix>, usable: nat)
    requires Collected(was, seenBefore)
    ensures Collected(v6, seen)
    ensures seen == seenBefore + set x | x in addrs && DerivePrefix(x, len).Some? :: DerivePrefix(x, len).value
    ensures usable == 0 <==> forall x :: x in addrs ==> DerivePrefix(x, len).None?
  {
    v6, seen, usable := was, seenBefore, 0;
    hide DerivePrefix;
    for i := 0 to |addrs|
      invariant Collected(v6, seen)
      invariant seen == seenBefore + set x | x in addrs[..i] && DerivePrefix(x, len).Some? :: DerivePrefix(x, len).value
      invariant usable == 0 <==> forall x :: x in addrs[..i] ==> DerivePrefix(x, len).None?
    {
      assert addrs[..i + 1] == addrs[..i] + [addrs[i]];
      var prefix := DerivePrefix(addrs[i], len);
      if prefix.None? { continue; }
      usable := usable + 1;
      if prefix.value !in seen {
        CollectedNext(v6, seen, prefix.value);
        seen := seen + {prefix.value};
        v6 := v6 + [prefix.value];
      }
    }
    assert addrs[..|addrs|] == addrs;
  }

  lemma NextHost(r: Resolver, len: int, hosts: seq<string>, i: nat)
    requires i < |hosts|
    ensures AllV4(r, hosts[..i + 1]) == AllV4(r, hosts[..i]) + HostV4(r, hosts[i])
    ensures AllV6(r, len, hosts[..i + 1]) == AllV6(r, len, hosts[..i]) + HostV6(r, len, hosts[i])
  {
    hide HostV4, HostV6;
    assert hosts[..i + 1] == hosts[..i] + [hosts[i]];
  }

  lemma AddrOrder(xs: seq<Addr>)
    requires forall i, j :: 0 <= i < j < |xs| ==> xs[i] != xs[j]
    ensures StrictOrder(AddrLess()) && Comparable(xs, AddrLess())
  {
  }

  lemma PrefixOrder(xs: seq<Prefix>)
    requires forall i, j :: 0 <= i < j < |xs| ==> xs[i] != xs[j]
    ensures StrictOrder(PrefixLess()) && Comparable(xs, PrefixLess())
  {
  }

  lemma SortedCollected<T(!new)>(xs: seq<T>, seen: set<T>, less: (T, T) -> bool)
    requires Collected(xs, seen) && StrictOrder(less) && Comparable(xs, less)
    ensures Ascending(Sort(xs, less), less) && (set x | x in Sort(xs, less)) == seen
  {
    SortAscends(xs, less);
    SortMembers(xs, less);
  }

  lemma Arranged(v4: seq<Addr>, seen4: set<Addr>, v6: seq<Prefix>, seen6: set<Prefix>)
    requires Collected(v4, seen4) && Collected(v6, seen6)
    ensures Ascending(Sort(v4, AddrLess()), AddrLess()) && (set x | x in Sort(v4, AddrLess())) == seen4
    ensures Ascending(Sort(v6, PrefixLess()), PrefixLess()) && (set x | x in Sort(v6, PrefixLess())) == seen6
  {
    AddrOrder(v4);
    PrefixOrder(v6);
    SortedCollected(v4, seen4, AddrLess());
    SortedCollected(v6, seen6, PrefixLess());
  }

  // ---------- what is resolved ----------

  lemma {:induction false} AscendingOnce<T(!new)>(a: seq<T>, b: seq<T>, less: (T, T) -> bool)
    requires StrictOrder(less) && Ascending(a, less) && Ascending(b, less)
    requires forall x :: x in a <==> x in b
    ensures a == b
    decreases |a|
  {
    if a == [] {
      if b != [] { FirstMember(b); }
    } else {
      assert a[0] in a && a[0] in b;
      assert b[0] in b && b[0] in a;
      FirstLeast(a, b[0], less);
      FirstLeast(b, a[0], less);
      TailMembers(a, less);
      TailMembers(b, less);
      AscendingOnce(a[1..], b[1..], less);
      assert a == [a[0]] + a[1..] && b == [b[0]] + b[1..];
    }
  }

  lemma FirstMember<T>(xs: seq<T>)
    requires xs != []
    ensures xs[0] in xs
  {
  }

  lemma TailMembers<T(!new)>(a: seq<T>, less: (T, T) -> bool)
    requires StrictOrder(less) && Ascending(a, less) && a != []
    ensures Ascending(a[1..], less) && forall x :: x in a[1..] <==> x in a && x != a[0]
  {
    assert a == [a[0]] + a[1..];
    forall x | x in a[1..] ensures x != a[0] {
      var k :| 0 <= k < |a[1..]| && a[1..][k] == x;
      assert less(a[0], a[k + 1]) && !less(a[k + 1], a[0]);
    }
  }

  lemma SameMembers<T(!new)>(a: seq<T>, b: seq<T>)
    requires (set x | x in a) == (set x | x in b)
    ensures forall x :: x in a <==> x in b
  {
    var s, t := set x | x in a, set x | x in b;
    assert forall x :: x in a <==> x in s;
    assert forall x :: x in b <==> x in t;
  }

  /** There is one canonical form, and it depends on the hosts only as a set. */
  lemma OneCanonical(d: Entries, e: Entries, r: Resolver, len: int, g: seq<string>, h: seq<string>)
    requires forall x :: x in g <==> x in h
    requires Canonical(d, r, len, g) && Canonical(e, r, len, h)
    ensures d == e
  {
    hide HostV4, HostV6;
    AddrOrder([]);
    PrefixOrder([]);
    assert AllV4(r, g) == AllV4(r, h) && AllV6(r, len, g) == AllV6(r, len, h);
    hide AllV4, AllV6;
    SameMembers(d.v4, e.v4);
    SameMembers(d.v6, e.v6);
    AscendingOnce(d.v4, e.v4, AddrLess());
    AscendingOnce(d.v6, e.v6, PrefixLess());
  }

  /** No address belongs to two of the resolved prefixes, as an interval set requires. */
  lemma PrefixesDisjoint(e: Entries, r: Resolver, len: int, hosts: seq<string>, i: nat, j: nat, a: Addr)
    requires Canonical(e, r, len, hosts) && i < j < |e.v6|
    ensures !(Holds(e.v6[i], a) && Holds(e.v6[j], a))
  {
    DerivedForm(e, r, len, hosts, i);
    DerivedForm(e, r, len, hosts, j);
    assert PrefixLess()(e.v6[i], e.v6[j]);
    hide Masked, Holds;
    if Holds(e.v6[i], a) && Holds(e.v6[j], a) {
      SharedAddress(e.v6[i], e.v6[j], a);
    }
  }

  lemma DerivedForm(e: Entries, r: Resolver, len: int, hosts: seq<string>, i: nat)
    requires Canonical(e, r, len, hosts) && i < |e.v6|
    ensures e.v6[i] == Masked(e.v6[i]) && e.v6[i].len == len && e.v6[i].addr.V6?
  {
    var p := e.v6[i];
    var s := set x | x in e.v6;
    assert p in s && s == AllV6(r, len, hosts);
    var h :| h in hosts && p in HostV6(r, len, h);
    var x :| x in r.aaaa(r.normalize(h).value).addrs && DerivePrefix(x, len) == Some(p);
    MaskedHolds(Prefix(Unmap(x), len), x);
  }

  /** An AAAA answer's address is in the prefix derived from it. */
  lemma DerivedHolds(a: Addr, len: int)
    requires a.V6? && !Mapped(a) && (len == 56 || len == 64)
    ensures DerivePrefix(a, len).Some? && Holds(DerivePrefix(a, len).value, a)
  {
    MaskedHolds(Prefix(a, len), a);
  }

  /**
   A prefix is derived from the genuine IPv6 answers and at the two lengths only; it is the answer with
   the remaining bits cleared, and holds the IPv6 addresses whose first bits are the answer's.
   */
  lemma DerivedExactly(x: Addr, len: int, a: Addr)
    requires Fits(x) && Fits(a)
    ensures DerivePrefix(x, len).Some? <==>
      (len == 56 || len == 64) && x.V6? && !Holds(Prefix(V6(0xffff_0000_0000), 96), x)
    ensures DerivePrefix(x, len).Some? ==>
      var p := DerivePrefix(x, len).value;
      && p.len == len && p.addr.V6? && Fits(p.addr)
      && (forall i: nat :: i < 128 ==> (Bit(p.addr, i) <==> i < len && Bit(x, i)))
      && (Holds(p, a) <==> a.V6? && AgreeOn(x, a, len))
  {
    hide Holds, Masked;
    if x.V6? { MappedExactly(x); }
    if DerivePrefix(x, len).Some? {
      var p := Prefix(x, len);
      MaskedExactly(p);
      MaskedHolds(p, a);
      HoldsExactly(p, a);
    }
  }

  /** Ascending lists of addresses are increasing numbers. */
  lemma CanonicalIncreases(e: Entries, r: Resolver, len: int, hosts: seq<string>)
    requires Canonical(e, r, len, hosts)
    ensures forall i :: 0 <= i < |e.v4| ==> e.v4[i].V4?
    ensures forall i, j :: 0 <= i < j < |e.v4| ==> e.v4[i].bits < e.v4[j].bits
    ensures forall i :: 0 <= i < |e.v6| ==> e.v6[i].addr.V6? && e.v6[i].len == len
    ensures forall i, j :: 0 <= i < j < |e.v6| ==> e.v6[i].addr.bits < e.v6[j].addr.bits
  {
    forall i | 0 <= i < |e.v4| ensures e.v4[i].V4? {
      var s := set x | x in e.v4;
      assert e.v4[i] in s && s == AllV4(r, hosts);
    }
    forall i | 0 <= i < |e.v6| ensures e.v6[i].addr.V6? && e.v6[i].len == len {
      DerivedForm(e, r, len, hosts, i);
    }
    forall i, j | 0 <= i < j < |e.v4| ensures e.v4[i].bits < e.v4[j].bits {
      assert AddrLess()(e.v4[i], e.v4[j]);
    }
    forall i, j | 0 <= i < j < |e.v6| ensures e.v6[i].addr.bits < e.v6[j].addr.bits {
      assert PrefixLess()(e.v6[i], e.v6[j]);
    }
  }

  /** The resolver, but with this error beside its A answers, or beside its AAAA answers. */
  function WithError(r: Resolver, v4: bool, e: Option<LookupError>): Resolver {
    if v4 then r.(a := h => r.a(h).(error := e)) else r.(aaaa := h => r.aaaa(h).(error := e))
  }

  /**
   A lookup that timed out, may be retried, or failed for a reason not its own stops the refresh whatever
   addresses came with it; one that found the name or its addresses missing counts as one that returned its
   addresses without an error.
   */
  lemma ErrorsThatStop(r: Resolver, len: int, host: string, v4: bool, e: LookupError)
    ensures e.OtherError? ==> !HostResolves(WithError(r, v4, Some(e)), len, host)
    ensures e.DnsError? && (e.timeout || e.temporary) ==> !HostResolves(WithError(r, v4, Some(e)), len, host)
    ensures !e.OtherError? && e.text != "no suitable address found" && !(e.DnsError? && e.notFound) ==>
      !HostResolves(WithError(r, v4, Some(e)), len, host)
    ensures
      || (e.DnsError? && !e.timeout && !e.temporary && e.notFound)
      || (e.AddrError? && e.text == "no suitable address found")
      || (e.DnsError? && !e.timeout && !e.temporary && e.text == "no suitable address found") ==>
      (HostResolves(WithError(r, v4, Some(e)), len, host) <==> HostResolves(WithError(r, v4, None), len, host))
  {
    hide DerivePrefix;
  }

  predicate Contributes(r: Resolver, len: int, host: string) {
    HostV4(r, host) != {} || HostV6(r, len, host) != {}
  }

  ghost predicate NoMappedA(r: Resolver, host: string) {
    r.normalize(host).Some? ==> forall x :: x in r.a(r.normalize(host).value).addrs ==> !Mapped(x)
  }

  /**
   A host that resolves contributes an entry, unless its only usable answers are A answers in mapped
   form: those are counted but not collected.
   */
  lemma ResolvedContributes(r: Resolver, len: int, host: string)
    requires HostResolves(r, len, host)
    ensures NoMappedA(r, host) ==> Contributes(r, len, host)
    ensures !Contributes(r, len, host) <==>
      var h := r.normalize(host).value;
      && (forall x :: x in r.a(h).addrs && Unmap(x).V4? ==> Mapped(x))
      && (forall x :: x in r.aaaa(h).addrs ==> DerivePrefix(x, len).None?)
  {
    var h := r.normalize(host).value;
    hide DerivePrefix;
    if x :| x in r.a(h).addrs && x.V4? {
      assert x in HostV4(r, host);
    }
    if x :| x in r.aaaa(h).addrs && DerivePrefix(x, len).Some? {
      assert DerivePrefix(x, len).value in HostV6(r, len, host);
    }
  }

  /** It does happen: one mapped A answer resolves, and adds nothing. */
  lemma MappedOnly()
    ensures
      var r := Resolver(h => Some(h), h => Answer([V6(0xffff_0102_0304)], None), h => Answer([], None));
      HostResolves(r, 56, "a.b") && !Contributes(r, 56, "a.b")
  {
    var r := Resolver(h => Some(h), h => Answer([V6(0xffff_0102_0304)], None), h => Answer([], None));
    var x := V6(0xffff_0102_0304);
    assert Mapped(x) && x in r.a("a.b").addrs && Unmap(x).V4?;
    assert HostV4(r, "a.b") == {} && HostV6(r, 56, "a.b") == {};
  }

  // ---------- refreshing ----------

  /** The two runtime sets of the live table, and how long their elements last. */
  class Runtime {
    var v4: seq<Addr>
    var v6: seq<Prefix>
    var lifetime: int

    /** Both sets are replaced by one batch, or neither. */
    method Replace(e: Entries, ttl: int, accepted: bool) returns (ok: bool)
      modifies this
      ensures ok == accepted
      ensures if ok then v4 == e.v4 && v6 == e.v6 && lifetime == ttl
              else v4 == old(v4) && v6 == old(v6) && lifetime == old(lifetime)
    {
      if accepted { v4, v6, lifetime := e.v4, e.v6, ttl; }
      return accepted;
    }
  }

  /** Nothing of the runtime sets changes unless every host resolved and the batch was accepted. */
  method Refresh(cfg: Config, r: Resolver, runtime: Runtime, accepted: bool) returns (e: Option<Entries>)
    modifies runtime
    ensures e.None? ==>
      runtime.v4 == old(runtime.v4) && runtime.v6 == old(runtime.v6) && runtime.lifetime == old(runtime.lifetime)
    ensures e.Some? ==>
      && cfg.enabled && cfg.hosts != [] && accepted
      && (forall h :: h in cfg.hosts ==> HostResolves(r, Defaults(cfg).prefixLen, h))
      && Canonical(e.value, r, Defaults(cfg).prefixLen, cfg.hosts)
      && runtime.v4 == e.value.v4 && runtime.v6 == e.value.v6 && (e.value.v4 != [] || e.value.v6 != [])
      && runtime.lifetime == (if cfg.ttl == 0 then 3600_000_000_000 else cfg.ttl)
      && forall i :: 0 <= i < |e.value.v6| ==> e.value.v6[i].len == if cfg.prefixLen == 0 then 56 else cfg.prefixLen
    ensures e.None? ==>
      || !cfg.enabled || cfg.hosts == [] || !accepted
      || (exists h :: h in cfg.hosts && !HostResolves(r, Defaults(cfg).prefixLen, h))
      || (AllV4(r, cfg.hosts) == {} && AllV6(r, Defaults(cfg).prefixLen, cfg.hosts) == {})
  {
    if !cfg.enabled || cfg.hosts == [] { return None; }
    var resolution := Resolve(cfg, r);
    if resolution.Unresolved? {
      ghost var i: nat :| FirstUnresolved(r, Defaults(cfg).prefixLen, cfg.hosts, i) && cfg.hosts[i] == resolution.host;
      assert resolution.host in cfg.hosts && !HostResolves(r, Defaults(cfg).prefixLen, resolution.host);
      return None;
    }
    e := Some(resolution.entries);
    CanonicalIncreases(e.value, r, Defaults(cfg).prefixLen, cfg.hosts);
    if e.value.v4 == [] && e.value.v6 == [] { return None; }
    var ok := runtime.Replace(e.value, Defaults(cfg).ttl, accepted);
    if !ok { return None; }
  }

  // ---------- the record of attempts ----------

  /** An error by its code and its message. */
  datatype Report = Report(code: string, summary: string)

  datatype Metadata = Metadata(attempts: nat, lastAttempt: int, lastSuccess: int, error: Option<Report>,
                               count4: nat, count6: nat, hash: string, expires: int)

  /** One attempt: when, for how long its entries last, and the entries or the error. */
  datatype Attempt = Succeeded(now: int, ttl: int, entries: Entries) | Unsuccessful(now: int, report: Report)

  /** A counter 64 bits wide. */
  function Wrapped(n: nat): nat {
    n % 0x1_0000_0000_0000_0000
  }

  lemma WrappedNext(n: nat)
    ensures Wrapped(Wrapped(n) + 1) == Wrapped(n + 1)
  {
  }

  /** A failure leaves what the last success recorded. */
  function Recorded(digest: Entries -> string, m: Metadata, a: Attempt): Metadata {
    var counted := m.(attempts := Wrapped(m.attempts + 1), lastAttempt := a.now);
    match a
    case Succeeded(now, ttl, entries) =>
      counted.(lastSuccess := now, error := None, count4 := |entries.v4|, count6 := |entries.v6|,
              hash := digest(entries), expires := now + ttl)
    case Unsuccessful(_, report) => counted.(error := Some(report))
  }

  function RecordedAll(digest: Entries -> string, m: Metadata, history: seq<Attempt>): Metadata {
    if history == [] then m else Recorded(digest, RecordedAll(digest, m, history[..|history| - 1]),
        history[|history| - 1])
  }

  /** `i` is the last success of a history. */
  predicate LastSuccess(history: seq<Attempt>, i: nat) {
    i < |history| && history[i].Succeeded? && forall j :: i < j < |history| ==> !history[j].Succeeded?
  }

  /**
   After any history the record tells the number of attempts, how the last one ended, and the entries
   and expiry of the last success, however many failures followed it.
   */
  lemma {:induction false} RecordTells(digest: Entries -> string, m: Metadata, history: seq<Attempt>, i: nat)
    requires Wrapped(m.attempts) == m.attempts
    ensures
      var r := RecordedAll(digest, m, history);
      && r.attempts == Wrapped(m.attempts + |history|)
      && (history != [] ==>
            var last := history[|history| - 1];
            r.lastAttempt == last.now && r.error == if last.Succeeded? then None else Some(last.report))
      && (LastSuccess(history, i) ==>
          && r.lastSuccess == history[i].now && r.expires == history[i].now + history[i].ttl
          && r.count4 == |history[i].entries.v4| && r.count6 == |history[i].entries.v6|
          && r.hash == digest(history[i].entries))
      && ((forall a :: a in history ==> !a.Succeeded?) ==>
          && r.lastSuccess == m.lastSuccess && r.expires == m.expires && r.count4 == m.count4
              && r.count6 == m.count6 && r.hash == m.hash)
  {
    hide Wrapped;
    if history != [] {
      var n := |history| - 1;
      WrappedNext(m.attempts + n);
      var earlier := history[..n];
      RecordTells(digest, m, earlier, i);
      assert history == earlier + [history[n]];
      if LastSuccess(history, i) && i < n {
        assert LastSuccess(earlier, i);
        assert !history[n].Succeeded?;
      }
    }
  }
}
