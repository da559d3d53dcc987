/**
 Addresses, networks and the routing table's lookup: the first match in the list sorted by
 prefix length is the longest-prefix match, so the answer does not depend on file order.
 */
module RouteTable {
  import opened Basics
  import opened Sorting
  import opened Arithmetic

  const V4_BITS: nat := 32
  const V6_BITS: nat := 128

  function Pow2(k: nat): (p: nat)
    ensures p > 0
  {
    if k == 0 then 1 else 2 * Pow2(k - 1)
  }

  datatype IpAddr = V4(bits: nat) | V6(bits: nat)

  function Width(ip: IpAddr): nat { if ip.V4? then V4_BITS else V6_BITS }

  predicate ValidIp(ip: IpAddr) { ip.bits < Pow2(Width(ip)) }

  const MAPPED: nat := 0xFFFF_0000_0000

  /** `to_canonical`: an IPv4-mapped IPv6 address (section 2.5.5.2 of RFC 4291) is that IPv4 address. */
  function Canonical(ip: IpAddr): (r: IpAddr)
    ensures r.V6? ==> r == ip
  {
    if ip.V6? && MAPPED <= ip.bits < MAPPED + 0x1_0000_0000 then V4(ip.bits - MAPPED) else ip
  }

  /** Exactly the addresses whose first 96 bits are 80 zeros and 16 ones are taken for IPv4, and for
      the one in their last 32 bits; any other address is itself, and so is what comes out. */
  lemma CanonicalExactly(ip: IpAddr)
    ensures ip.V6? && ip.bits / 0x1_0000_0000 == 0xFFFF ==> Canonical(ip) == V4(ip.bits % 0x1_0000_0000)
    ensures !(ip.V6? && ip.bits / 0x1_0000_0000 == 0xFFFF) ==> Canonical(ip) == ip
    ensures Canonical(Canonical(ip)) == Canonical(ip)
  {
  }

  /** A network as written: an address and a prefix length. */
  datatype Net = Net(addr: IpAddr, prefix: nat)

  predicate ValidNet(n: Net) { ValidIp(n.addr) && n.prefix <= Width(n.addr) }

  type Network = n: Net | ValidNet(n) witness Net(V4(0), 0)

  function HostSize(n: Network): (p: nat)
    ensures p > 0
  {
    Pow2(Width(n.addr) - n.prefix)
  }

  /** `network()`: the address with its host bits cleared. */
  function NetworkBits(n: Network): int {
    n.addr.bits / HostSize(n) * HostSize(n)
  }

  /** `contains`: same family, same leading bits. */
  predicate Contains(n: Network, ip: IpAddr) {
    n.addr.V4? == ip.V4? && ip.bits / HostSize(n) == n.addr.bits / HostSize(n)
  }

  /** Bit `k` of an address, the most significant first. */
  function Bit(ip: IpAddr, k: nat): int
    requires k < Width(ip)
  {
    ip.bits / Pow2(Width(ip) - 1 - k) % 2
  }

  /** The first `p` bits are the same. */
  predicate Agree(a: IpAddr, b: IpAddr, p: nat)
    requires a.V4? == b.V4? && p <= Width(a)
  {
    forall k :: 0 <= k < p ==> Bit(a, k) == Bit(b, k)
  }

  /** A quotient by a power of two is its last bit and the quotient by the next power. */
  lemma OneMoreBit(x: nat, k: nat)
    ensures x / Pow2(k) == 2 * (x / Pow2(k + 1)) + x / Pow2(k) % 2
  {
    DivTwice(x, Pow2(k));
  }

  lemma {:induction false} SamePrefix(a: IpAddr, b: IpAddr, p: nat)
    requires ValidIp(a) && ValidIp(b) && a.V4? == b.V4? && p <= Width(a)
    ensures a.bits / Pow2(Width(a) - p) == b.bits / Pow2(Width(a) - p) <==> Agree(a, b, p)
  {
    hide Pow2, Agree;
    var w := Width(a);
    if p == 0 {
      DivIs(a.bits, Pow2(w), 0, a.bits);
      DivIs(b.bits, Pow2(w), 0, b.bits);
      NothingDisagrees(a, b);
    } else {
      SamePrefix(a, b, p - 1);
      OneMoreBit(a.bits, w - p);
      OneMoreBit(b.bits, w - p);
      AgreeMore(a, b, p);
    }
  }

  lemma NothingDisagrees(a: IpAddr, b: IpAddr)
    requires a.V4? == b.V4?
    ensures Agree(a, b, 0)
  {
  }

  lemma AgreeMore(a: IpAddr, b: IpAddr, p: nat)
    requires a.V4? == b.V4? && 0 < p <= Width(a)
    ensures Agree(a, b, p) <==>
      Agree(a, b, p - 1) && a.bits / Pow2(Width(a) - p) % 2 == b.bits / Pow2(Width(a) - p) % 2
  {
    hide Pow2;
    assert Bit(a, p - 1) == a.bits / Pow2(Width(a) - p) % 2;
    assert Bit(b, p - 1) == b.bits / Pow2(Width(a) - p) % 2;
  }

  /** A network contains exactly the addresses of its family that agree with it on the prefix. */
  lemma ContainsExactly(n: Network, ip: IpAddr)
    requires ValidIp(ip)
    ensures Contains(n, ip) <==> n.addr.V4? == ip.V4? && Agree(n.addr, ip, n.prefix)
  {
    hide Pow2, Agree;
    if n.addr.V4? == ip.V4? { SamePrefix(n.addr, ip, n.prefix); }
  }

  /** With no prefix, every address of the family; with a full one, only its own. */
  lemma WidestAndNarrowest(n: Network, ip: IpAddr)
    requires ValidIp(ip) && n.addr.V4? == ip.V4?
    ensures n.prefix == 0 ==> Contains(n, ip)
    ensures n.prefix == (if n.addr.V4? then 32 else 128) ==> (Contains(n, ip) <==> ip == n.addr)
  {
    ContainsExactly(n, ip);
    hide Contains;
    if n.prefix == Width(n.addr) {
      SamePrefix(n.addr, ip, n.prefix);
      assert Pow2(0) == 1;
      WholeNumber(n.addr.bits);
      WholeNumber(ip.bits);
    }
  }

  lemma WholeNumber(x: nat)
    ensures x / 1 == x
  {
  }

  /** A network whose address lies in one of no longer prefix lies in it altogether. */
  lemma NetworksNest(n: Network, m: Network, ip: IpAddr)
    requires ValidIp(ip) && n.prefix <= m.prefix && Contains(n, m.addr) && Contains(m, ip)
    ensures Contains(n, ip)
  {
    ContainsExactly(n, m.addr);
    ContainsExactly(m, ip);
    ContainsExactly(n, ip);
    hide Contains, Bit;
  }

  /** What the parser compares to refuse a duplicate: masked address and prefix. */
  predicate SameNetwork(a: Network, b: Network) {
    a.addr.V4? == b.addr.V4? && a.prefix == b.prefix && NetworkBits(a) == NetworkBits(b)
  }

  lemma DivMulCancel(a: nat, p: nat)
    requires p > 0
    ensures a / p * p / p == a / p
  {
    DivIs(a / p * p, p, a / p, 0);
  }

  /** Two networks of one family and length are the same network or share no address. */
  lemma SameLengthEqualOrDisjoint(a: Network, b: Network, ip: IpAddr)
    requires a.prefix == b.prefix
    requires Contains(a, ip) && Contains(b, ip)
    ensures SameNetwork(a, b)
  {
  }

  lemma SameNetworkSameMembers(a: Network, b: Network, ip: IpAddr)
    requires SameNetwork(a, b)
    ensures Contains(a, ip) == Contains(b, ip)
  {
    DivMulCancel(a.addr.bits, HostSize(a));
    DivMulCancel(b.addr.bits, HostSize(b));
  }

  type Costs = map<string, real>
  datatype Rule = Rule(net: Network, costs: Costs)

  predicate DistinctNets(rs: seq<Rule>) {
    forall i, j :: 0 <= i < j < |rs| ==> !SameNetwork(rs[i].net, rs[j].net)
  }

  predicate NoShorter(a: Rule, b: Rule) { a.net.prefix >= b.net.prefix }

  /** `sort_by_key(Reverse(prefix))`: longest prefix first, equal prefixes in file order. */
  function SortRules(rs: seq<Rule>): seq<Rule> {
    Sort(NoShorter, rs)
  }

  predicate LongestFirst(rs: seq<Rule>) {
    forall i, j :: 0 <= i < j < |rs| ==> rs[i].net.prefix >= rs[j].net.prefix
  }

  /** Sorting orders by prefix length and neither adds nor loses a rule. */
  lemma SortRulesSorts(rs: seq<Rule>)
    ensures LongestFirst(SortRules(rs))
    ensures multiset(SortRules(rs)) == multiset(rs)
  {
    hide Sort, ValidNet;
    assert IsOrder(NoShorter);
    SortOrders(NoShorter, rs);
    SortPermutes(NoShorter, rs);
    var s := SortRules(rs);
    forall i, j | 0 <= i < j < |s| ensures s[i].net.prefix >= s[j].net.prefix {
      assert NoShorter(s[i], s[j]);
    }
  }

  function WithPrefix(rs: seq<Rule>, p: nat): seq<Rule> {
    Filter((r: Rule) => r.net.prefix == p, rs)
  }

  /** Rules of equal prefix length stay in file order. */
  lemma SortRulesStable(rs: seq<Rule>, p: nat)
    ensures WithPrefix(SortRules(rs), p) == WithPrefix(rs, p)
  {
    hide Sort, Filter, ValidNet;
    SortStable(NoShorter, (r: Rule) => r.net.prefix == p, rs);
  }

  /** A table as the parser leaves it. */
  predicate TableOk(rs: seq<Rule>) { LongestFirst(rs) && DistinctNets(rs) }

  function FirstMatch(rs: seq<Rule>, ip: IpAddr): Option<Rule> {
    if rs == [] then None
    else if Contains(rs[0].net, ip) then Some(rs[0])
    else FirstMatch(rs[1..], ip)
  }

  /** `lookup` on the rules as they are kept, sorted. */
  function Lookup(rules: seq<Rule>, ip: IpAddr): Option<Rule> {
    FirstMatch(rules, Canonical(ip))
  }

  /** The longest-prefix match of section 5.1 of RFC 4632. */
  ghost predicate IsLongestMatch(rs: seq<Rule>, ip: IpAddr, r: Rule) {
    && r in rs && Contains(r.net, ip)
    && forall q :: q in rs && Contains(q.net, ip) ==> q.net.prefix <= r.net.prefix
  }

  lemma {:induction false} FirstMatchIsLongest(rs: seq<Rule>, ip: IpAddr)
    requires LongestFirst(rs)
    ensures FirstMatch(rs, ip) == None <==> forall q :: q in rs ==> !Contains(q.net, ip)
    ensures FirstMatch(rs, ip).Some? ==> IsLongestMatch(rs, ip, FirstMatch(rs, ip).value)
  {
    hide Contains;
    if rs != [] {
      FirstMatchIsLongest(rs[1..], ip);
      assert forall q :: q in rs <==> q == rs[0] || q in rs[1..];
    }
  }

  /** With no network twice, at most one rule is a longest match. */
  lemma LongestMatchUnique(rs: seq<Rule>, ip: IpAddr, r: Rule, q: Rule)
    requires DistinctNets(rs)
    requires IsLongestMatch(rs, ip, r) && IsLongestMatch(rs, ip, q)
    ensures r == q
  {
    hide Contains, SameNetwork;
    var i :| 0 <= i < |rs| && rs[i] == r;
    var j :| 0 <= j < |rs| && rs[j] == q;
    SameLengthEqualOrDisjoint(r.net, q.net, ip);
    SameLengthEqualOrDisjoint(q.net, r.net, ip);
  }

  /** First match in the sorted list is the longest-prefix match in the file, and the only one. */
  lemma LookupIsLongestMatch(rs: seq<Rule>, ip: IpAddr)
    requires DistinctNets(rs)
    ensures forall r :: Lookup(SortRules(rs), ip) == Some(r) <==> IsLongestMatch(rs, Canonical(ip), r)
    ensures Lookup(SortRules(rs), ip) == None
            <==> forall q :: q in rs ==> !Contains(q.net, Canonical(ip))
  {
    hide Contains, DistinctNets, LongestFirst, SortRules;
    var s := SortRules(rs);
    SortRulesSorts(rs);
    SameMembers(rs, s);
    FirstMatchIsLongest(s, Canonical(ip));
    forall r | IsLongestMatch(rs, Canonical(ip), r) ensures Lookup(s, ip) == Some(r) {
      LongestMatchUnique(rs, Canonical(ip), r, Lookup(s, ip).value);
    }
  }

  /** In a table as the parser leaves it, what `lookup` returns is the longest-prefix match, which is
      the only one. */
  lemma TableLookup(rs: seq<Rule>, ip: IpAddr)
    requires TableOk(rs)
    ensures forall r :: Lookup(rs, ip) == Some(r) <==> IsLongestMatch(rs, Canonical(ip), r)
    ensures Lookup(rs, ip) == None <==> forall q :: q in rs ==> !Contains(q.net, Canonical(ip))
  {
    hide Contains, DistinctNets, LongestFirst;
    FirstMatchIsLongest(rs, Canonical(ip));
    forall r | IsLongestMatch(rs, Canonical(ip), r) ensures Lookup(rs, ip) == Some(r) {
      LongestMatchUnique(rs, Canonical(ip), r, Lookup(rs, ip).value);
    }
  }

  /** The same rules in any other file order answer every address alike. */
  lemma LookupIgnoresFileOrder(rs: seq<Rule>, ts: seq<Rule>, ip: IpAddr)
    requires DistinctNets(rs) && DistinctNets(ts)
    requires multiset(rs) == multiset(ts)
    ensures Lookup(SortRules(rs), ip) == Lookup(SortRules(ts), ip)
  {
    hide Contains, DistinctNets, Lookup;
    LookupIsLongestMatch(rs, ip);
    LookupIsLongestMatch(ts, ip);
    SameMembers(rs, ts);
    var a := Lookup(SortRules(rs), ip);
    if a.Some? {
      assert IsLongestMatch(ts, Canonical(ip), a.value);
    }
  }

  /** `costs_for`: the costs of the most specific line containing the address. */
  function CostsFor(rules: seq<Rule>, ip: IpAddr): Option<Costs> {
    match Lookup(rules, ip)
    case None => None
    case Some(r) => Some(r.costs)
  }
}
