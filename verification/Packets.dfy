/** The rendered nftables ruleset as rules with a meaning: which packets it diverts into the tunnel,
    and which it keeps from being forwarded. */
module Packets {
  import opened Basics

  // ----- packets, rules and their meaning --------------------------------------------------

  datatype Proto = Tcp | Udp | OtherProto

  /** A packet at a hook; addresses are numbers of the table's family. */
  datatype Packet = Packet(iif: string, oif: string, src: nat, dst: nat, proto: Proto, dport: nat, mark: int)

  /** An address range, both ends included. */
  datatype Net = Net(lo: nat, hi: nat)

  predicate In(a: nat, n: Net) {
    n.lo <= a <= n.hi
  }

  predicate InAny(a: nat, nets: seq<Net>) {
    exists i :: 0 <= i < |nets| && In(a, nets[i])
  }

  datatype Match =
    | Iif(names: seq<string>)
    | Oif(name: string)
    | Mark(mark: int)
    | Src(nets: seq<Net>)
    | Dst(nets: seq<Net>)
    | NotDst(nets: seq<Net>)
    | UdpPort(ports: set<nat>)
    | TcpOrUdp

  datatype Action = Return | DropIt | Count(counter: string) | Divert(setMark: int, port: nat) | Masquerade

  datatype Rule = Rule(matches: seq<Match>, action: Action)

  datatype Hook = Prerouting | Forward | Postrouting

  /** A base chain; every one has policy accept. */
  datatype Chain = Chain(hook: Hook, rules: seq<Rule>)

  predicate Hits(m: Match, p: Packet) {
    match m
    case Iif(names) => p.iif in names
    case Oif(name) => p.oif == name
    case Mark(mark) => p.mark == mark
    case Src(nets) => InAny(p.src, nets)
    case Dst(nets) => InAny(p.dst, nets)
    case NotDst(nets) => !InAny(p.dst, nets)
    case UdpPort(ports) => p.proto == Udp && p.dport in ports
    case TcpOrUdp => p.proto == Tcp || p.proto == Udp
  }

  predicate HitsAll(ms: seq<Match>, p: Packet) {
    forall i :: 0 <= i < |ms| ==> Hits(ms[i], p)
  }

  /** What happened to a packet at a hook, and its mark afterwards. */
  datatype Fate = Passed(mark: int) | Diverted(mark: int, port: nat) | Dropped

  function RunRules(rules: seq<Rule>, p: Packet): Fate {
    if rules == [] then Passed(p.mark)
    else if !HitsAll(rules[0].matches, p) then RunRules(rules[1..], p)
    else match rules[0].action
      case Return => Passed(p.mark)
      case DropIt => Dropped
      case Count(_) => RunRules(rules[1..], p)
      case Divert(m, port) => Diverted(m, port)
      case Masquerade => Passed(p.mark)
  }

  /** All base chains at a hook see the packet in turn, until one drops it. */
  function RunHook(chains: seq<Chain>, hook: Hook, p: Packet): Fate {
    if chains == [] then Passed(p.mark)
    else if chains[0].hook != hook then RunHook(chains[1..], hook, p)
    else
      match RunRules(chains[0].rules, p)
      case Dropped => Dropped
      case Passed(m) => RunHook(chains[1..], hook, p.(mark := m))
      case Diverted(m, port) =>
        var rest := RunHook(chains[1..], hook, p.(mark := m));
        if rest.Passed? then Diverted(rest.mark, port) else rest
  }

  // ----- the plan --------------------------------------------------------------------------

  /** `shapeOk`: the MAC, the name and the address are well formed. */
  datatype Reservation = Reservation(shapeOk: bool, ip: nat, upCounter: string, downCounter: string)

  datatype Plan = Plan(
    segmentIface: string, extraIfaces: seq<string>, mgmtIface: string,
    segmentIp: Option<nat>, segmentNet: Option<Net>, lan: Option<Net>, segmentPrefix6: Option<Net>,
    killSwitch: bool, lanAccess: bool, ipv6Enabled: bool,
    egressMark: int, fwmark: int, table: int, tproxyPort: nat, tproxyPort6: nat,
    reservations: seq<Reservation>)

  // ----- the interfaces the rules cover ----------------------------------------------------

  predicate IfaceChar(c: char) {
    'A' <= c <= 'Z' || 'a' <= c <= 'z' || '0' <= c <= '9' || c in "._@:-"
  }

  predicate IsIfaceName(s: string) {
    1 <= |s| <= 15 && forall i :: 0 <= i < |s| ==> IfaceChar(s[i])
  }

  /** Covered: the segment, and every extra name that can be an interface name. */
  ghost predicate Covered(plan: Plan, name: string) {
    || name == plan.segmentIface
    || (&& 1 <= |name| <= 15 && (exists e :: e in plan.extraIfaces && Strip(e) == name)
        && forall i :: 0 <= i < |name| ==>
             'A' <= name[i] <= 'Z' || 'a' <= name[i] <= 'z' || '0' <= name[i] <= '9' || name[i] in "._@:-")
  }

  /** The configured interface first, then the usable extra ones once each. */
  method SegmentIfaces(plan: Plan) returns (names: seq<string>)
    ensures names == Ifaces(plan)
  {
    names := [plan.segmentIface];
    for i := 0 to |plan.extraIfaces|
      invariant names == WithExtras([plan.segmentIface], plan.extraIfaces[..i])
    {
      var name := Strip(plan.extraIfaces[i]);
      assert plan.extraIfaces[..i + 1] == plan.extraIfaces[..i] + [plan.extraIfaces[i]];
      if name != "" && name !in names && IsIfaceName(name) { names := names + [name]; }
    }
    assert plan.extraIfaces[..|plan.extraIfaces|] == plan.extraIfaces;
  }

  function Ifaces(plan: Plan): seq<string> {
    WithExtras([plan.segmentIface], plan.extraIfaces)
  }

  function WithExtras(names: seq<string>, extras: seq<string>): seq<string> {
    if extras == [] then names
    else
      var init := WithExtras(names, extras[..|extras| - 1]);
      var name := Strip(extras[|extras| - 1]);
      if name !in init && IsIfaceName(name) then init + [name] else init
  }

  lemma {:induction false} WithExtrasExactly(names: seq<string>, extras: seq<string>)
    requires forall i, j :: 0 <= i < j < |names| ==> names[i] != names[j]
    ensures var all := WithExtras(names, extras);
            && names <= all
            && (forall i, j :: 0 <= i < j < |all| ==> all[i] != all[j])
            && (forall n :: n in all <==> n in names || (IsIfaceName(n) && exists e :: e in extras && Strip(e) == n))
  {
    if extras != [] {
      var init := extras[..|extras| - 1];
      var last := extras[|extras| - 1];
      WithExtrasExactly(names, init);
      assert extras == init + [last];
    }
  }

  /** The rules cover exactly the covered interfaces, the configured one first and none twice. */
  lemma IfacesExactly(plan: Plan)
    ensures |Ifaces(plan)| > 0 && Ifaces(plan)[0] == plan.segmentIface
    ensures forall i, j :: 0 <= i < j < |Ifaces(plan)| ==> Ifaces(plan)[i] != Ifaces(plan)[j]
    ensures forall n :: n in Ifaces(plan) <==> Covered(plan, n)
  {
    WithExtrasExactly([plan.segmentIface], plan.extraIfaces);
  }

  // ----- address sets ----------------------------------------------------------------------

  const BROADCAST := Net(0xffff_ffff, 0xffff_ffff)

  /** Loopback and the three private blocks of section 3 of RFC 1918. */
  function Private4(): seq<Net> {
    [Net(0x7f00_0000, 0x7fff_ffff), Net(0x0a00_0000, 0x0aff_ffff),
     Net(0xac10_0000, 0xac1f_ffff), Net(0xc0a8_0000, 0xc0a8_ffff)]
  }

  /** By octets: 127.*, 10.*, 172.16.* to 172.31.*, 192.168.*. */
  predicate IsPrivate4(a: nat) {
    || a / 0x100_0000 == 127
    || a / 0x100_0000 == 10
    || (a / 0x100_0000 == 172 && 16 <= a / 0x1_0000 % 0x100 <= 31)
    || a / 0x1_0000 == 192 * 0x100 + 168
  }

  lemma Private4ByOctets(a: nat)
    ensures InAny(a, Private4()) <==> IsPrivate4(a)
  {
    var nets := Private4();
    assert InAny(a, nets) <==> In(a, nets[0]) || In(a, nets[1]) || In(a, nets[2]) || In(a, nets[3]);
    var octet, rest := a / 0x100_0000, a % 0x100_0000;
    assert a == 0x100_0000 * octet + rest;
    assert a / 0x1_0000 == 0x100 * octet + rest / 0x1_0000;
  }

  /** Loopback, link-local, unique-local, multicast, and the segment's own prefix when known. */
  function Local6(plan: Plan): seq<Net> {
    [Net(1, 1),
     Net(0xfe80_0000_0000_0000_0000_0000_0000_0000, 0xfebf_ffff_ffff_ffff_ffff_ffff_ffff_ffff),
     Net(0xfc00_0000_0000_0000_0000_0000_0000_0000, 0xfdff_ffff_ffff_ffff_ffff_ffff_ffff_ffff),
     Net(0xff00_0000_0000_0000_0000_0000_0000_0000, 0xffff_ffff_ffff_ffff_ffff_ffff_ffff_ffff)]
    + (if plan.segmentPrefix6.Some? then [plan.segmentPrefix6.value] else [])
  }

  /** By leading bits: ::1, the ten of fe80::/10, the seven of fc00::/7, the eight of ff00::/8. */
  predicate IsLocal6(plan: Plan, a: nat) {
    || a == 1
    || a / 0x40_0000_0000_0000_0000_0000_0000_0000 == 0x3fa
    || a / 0x200_0000_0000_0000_0000_0000_0000_0000 == 0x7e
    || a / 0x100_0000_0000_0000_0000_0000_0000_0000 == 0xff
    || (plan.segmentPrefix6.Some? && In(a, plan.segmentPrefix6.value))
  }

  lemma Block(a: nat, size: nat, k: nat)
    requires size > 0
    ensures a / size == k <==> In(a, Net(k * size, k * size + (size - 1)))
  {
    assert a == size * (a / size) + a % size;
    if a / size < k {
      assert size * (a / size) + size <= size * k by { Scaled(size, a / size + 1, k); }
    } else if k < a / size {
      assert size * k + size <= size * (a / size) by { Scaled(size, k + 1, a / size); }
    }
  }

  lemma Scaled(size: nat, a: nat, b: nat)
    requires a <= b
    ensures size * a <= size * b
  {
  }

  lemma Local6ByBits(plan: Plan, a: nat)
    ensures InAny(a, Local6(plan)) <==> IsLocal6(plan, a)
  {
    var nets := Local6(plan);
    Block(a, 0x40_0000_0000_0000_0000_0000_0000_0000, 0x3fa);
    Block(a, 0x200_0000_0000_0000_0000_0000_0000_0000, 0x7e);
    Block(a, 0x100_0000_0000_0000_0000_0000_0000_0000, 0xff);
    assert In(a, nets[0]) || In(a, nets[1]) || In(a, nets[2]) || In(a, nets[3]) ==> InAny(a, nets);
    if plan.segmentPrefix6.Some? && In(a, plan.segmentPrefix6.value) { assert In(a, nets[4]); }
    if InAny(a, nets) {
      var i :| 0 <= i < |nets| && In(a, nets[i]);
      assert i == 0 || i == 1 || i == 2 || i == 3 || i == 4;
    }
  }

  function DhcpTargets(plan: Plan): seq<Net> {
    (if plan.segmentNet.Some? then [plan.segmentNet.value] else []) + [BROADCAST]
  }

  // ----- rendering -------------------------------------------------------------------------

  predicate Applies(r: Reservation, plan: Plan) {
    r.shapeOk && plan.segmentNet.Some? && In(r.ip, plan.segmentNet.value) && plan.segmentIp != Some(r.ip)
  }

  function Uploads(rs: seq<Reservation>, plan: Plan): seq<Rule> {
    if rs == [] then []
    else (if Applies(rs[0], plan) then [Rule([Src([Net(rs[0].ip, rs[0].ip)])], Count(rs[0].upCounter))] else [])
         + Uploads(rs[1..], plan)
  }

  function Downloads(rs: seq<Reservation>, plan: Plan): seq<Rule> {
    if rs == [] then []
    else (if Applies(rs[0], plan) then [Rule([Dst([Net(rs[0].ip, rs[0].ip)])], Count(rs[0].downCounter))] else [])
         + Downloads(rs[1..], plan)
  }

  /** The two counting chains, or nothing when no reservation applies. */
  function Accounting(plan: Plan): seq<Chain> {
    var ups := Uploads(plan.reservations, plan);
    if ups == [] then []
    else [Chain(Prerouting, [Rule([Dst(Private4())], Return)] + ups),
          Chain(Postrouting, [Rule([Src(Private4())], Return)] + Downloads(plan.reservations, plan))]
  }

  /** Built in one pass over the reservations, skipping those that do not fit the segment. */
  method BuildAccounting(plan: Plan) returns (chains: seq<Chain>)
    ensures chains == Accounting(plan)
  {
    var rs := plan.reservations;
    var uploads: seq<Rule>, downloads: seq<Rule> := [], [];
    for i := 0 to |rs|
      invariant uploads + Uploads(rs[i..], plan) == Uploads(rs, plan)
      invariant downloads + Downloads(rs[i..], plan) == Downloads(rs, plan)
    {
      assert rs[i..][1..] == rs[i + 1..];
      if Applies(rs[i], plan) {
        uploads := uploads + [Rule([Src([Net(rs[i].ip, rs[i].ip)])], Count(rs[i].upCounter))];
        downloads := downloads + [Rule([Dst([Net(rs[i].ip, rs[i].ip)])], Count(rs[i].downCounter))];
      }
    }
    assert uploads == Uploads(rs, plan) && downloads == Downloads(rs, plan);
    if uploads == [] { return []; }
    return [Chain(Prerouting, [Rule([Dst(Private4())], Return)] + uploads),
            Chain(Postrouting, [Rule([Src(Private4())], Return)] + downloads)];
  }

  function TproxyRules(plan: Plan): seq<Rule> {
    [Rule([Mark(plan.egressMark)], Return),
     Rule([Dst(Private4())], Return),
     Rule([Iif(Ifaces(plan)), Dst(DhcpTargets(plan)), UdpPort({67, 68})], Return),
     Rule([Iif(Ifaces(plan)), TcpOrUdp], Divert(plan.fwmark, plan.tproxyPort))]
  }

  function RenderNft(plan: Plan, tunnelUp: bool): seq<Chain> {
    (if tunnelUp then [Chain(Prerouting, TproxyRules(plan))] else [])
    + (if plan.killSwitch then [Chain(Forward, [Rule([Iif(Ifaces(plan)), NotDst(Private4())], DropIt)])] else [])
    + (if plan.lanAccess && plan.segmentNet.Some? && plan.lan.Some?
       then [Chain(Postrouting, [Rule([Src([plan.segmentNet.value]), Dst([plan.lan.value]), Oif(plan.mgmtIface)],
                                      Masquerade)])]
       else [])
    + Accounting(plan)
  }

  function Tproxy6Rules(plan: Plan): seq<Rule> {
    [Rule([Mark(plan.egressMark)], Return),
     Rule([Dst(Local6(plan))], Return),
     Rule([UdpPort({546, 547})], Return),
     Rule([Iif(Ifaces(plan)), TcpOrUdp], Divert(plan.fwmark, plan.tproxyPort6))]
  }

  /** None: the table is removed. */
  function RenderNft6(plan: Plan, tunnelUp: bool): Option<seq<Chain>> {
    var forward := Chain(Forward, [Rule([Iif(Ifaces(plan)), NotDst(Local6(plan))], DropIt)]);
    if plan.ipv6Enabled && tunnelUp then Some([Chain(Prerouting, Tproxy6Rules(plan)), forward])
    else if plan.killSwitch || tunnelUp then Some([forward])
    else None
  }

  // ----- what the evaluator makes of it ----------------------------------------------------

  /** Chains of other hooks can be left out. */
  lemma {:induction false} HookConcat(a: seq<Chain>, b: seq<Chain>, hook: Hook, p: Packet)
    requires forall c :: c in a ==> c.hook != hook
    ensures RunHook(a + b, hook, p) == RunHook(b, hook, p)
  {
    if a == [] {
      assert a + b == b;
    } else {
      assert (a + b)[1..] == a[1..] + b;
      HookConcat(a[1..], b, hook, p);
    }
  }

  /** Rules that only count let every packet pass unchanged. */
  lemma {:induction false} CountingPasses(rules: seq<Rule>, p: Packet)
    requires forall r :: r in rules ==> r.action.Count?
    ensures RunRules(rules, p) == Passed(p.mark)
  {
    if rules != [] { CountingPasses(rules[1..], p); }
  }

  lemma {:induction false} UploadsCount(rs: seq<Reservation>, plan: Plan)
    ensures forall r :: r in Uploads(rs, plan) ==> r.action.Count?
    ensures forall r :: r in Downloads(rs, plan) ==> r.action.Count?
  {
    if rs != [] { UploadsCount(rs[1..], plan); }
  }

  /** Chains that let a packet pass unchanged, together do. */
  lemma {:induction false} PassingChains(chains: seq<Chain>, hook: Hook, p: Packet)
    requires forall c :: c in chains && c.hook == hook ==> RunRules(c.rules, p) == Passed(p.mark)
    ensures RunHook(chains, hook, p) == Passed(p.mark)
  {
    if chains != [] {
      PassingChains(chains[1..], hook, p);
      if chains[0].hook == hook {
        assert RunRules(chains[0].rules, p) == Passed(p.mark);
        assert p.(mark := p.mark) == p;
      }
    }
  }

  /** The accounting chains never change a fate. */
  lemma AccountingPasses(plan: Plan, hook: Hook, p: Packet)
    ensures RunHook(Accounting(plan), hook, p) == Passed(p.mark)
  {
    var ups, downs := Uploads(plan.reservations, plan), Downloads(plan.reservations, plan);
    UploadsCount(plan.reservations, plan);
    CountingPasses(ups, p);
    CountingPasses(downs, p);
    var up, down := [Rule([Dst(Private4())], Return)] + ups, [Rule([Src(Private4())], Return)] + downs;
    assert up[1..] == ups && down[1..] == downs;
    assert RunRules(up, p) == Passed(p.mark) && RunRules(down, p) == Passed(p.mark);
    PassingChains(Accounting(plan), hook, p);
  }

  /** One chain, then chains that let everything pass. */
  lemma OneChain(c: Chain, rest: seq<Chain>, p: Packet)
    requires forall q: Packet :: RunHook(rest, c.hook, q) == Passed(q.mark)
    ensures RunHook([c] + rest, c.hook, p) == RunRules(c.rules, p)
  {
    assert ([c] + rest)[1..] == rest;
  }

  // ----- the tables, hook by hook ----------------------------------------------------------

  predicate Dhcp(plan: Plan, p: Packet) {
    && p.proto == Udp && p.dport in {67, 68}
    && (p.dst == 0xffff_ffff || (plan.segmentNet.Some? && In(p.dst, plan.segmentNet.value)))
  }

  lemma DhcpTargetsExactly(plan: Plan, a: nat)
    ensures InAny(a, DhcpTargets(plan)) <==>
            a == 0xffff_ffff || (plan.segmentNet.Some? && In(a, plan.segmentNet.value))
  {
    var nets := DhcpTargets(plan);
    assert nets[|nets| - 1] == BROADCAST;
    if plan.segmentNet.Some? { assert nets[0] == plan.segmentNet.value; }
  }

  lemma DropRule(names: seq<string>, nets: seq<Net>, p: Packet)
    ensures RunRules([Rule([Iif(names), NotDst(nets)], DropIt)], p) ==
            if p.iif in names && !InAny(p.dst, nets) then Dropped else Passed(p.mark)
  {
    var ms := [Iif(names), NotDst(nets)];
    assert HitsAll(ms, p) <==> Hits(ms[0], p) && Hits(ms[1], p);
  }

  lemma TproxyRulesExactly(plan: Plan, p: Packet)
    ensures RunRules(TproxyRules(plan), p) ==
            if p.mark != plan.egressMark && !IsPrivate4(p.dst) && Covered(plan, p.iif) && !Dhcp(plan, p)
               && p.proto != OtherProto
            then Diverted(plan.fwmark, plan.tproxyPort) else Passed(p.mark)
  {
    IfacesExactly(plan);
    Private4ByOctets(p.dst);
    DhcpTargetsExactly(plan, p.dst);
    var rules := TproxyRules(plan);
    var dhcp, divert := rules[2].matches, rules[3].matches;
    assert HitsAll(rules[0].matches, p) <==> Hits(rules[0].matches[0], p);
    assert HitsAll(rules[1].matches, p) <==> Hits(rules[1].matches[0], p);
    assert HitsAll(dhcp, p) <==> Hits(dhcp[0], p) && Hits(dhcp[1], p) && Hits(dhcp[2], p);
    assert HitsAll(divert, p) <==> Hits(divert[0], p) && Hits(divert[1], p);
    var verdict := if HitsAll(divert, p) then Diverted(plan.fwmark, plan.tproxyPort) else Passed(p.mark);
    assert RunRules(rules[3..], p) == verdict by {
      assert rules[3..][1..] == [];
    }
    assert rules[2..][1..] == rules[3..] && rules[1..][1..] == rules[2..];
    assert RunRules(rules[2..], p) == if HitsAll(rules[2].matches, p) then Passed(p.mark) else RunRules(rules[3..], p);
    assert RunRules(rules[1..], p) == if HitsAll(rules[1].matches, p) then Passed(p.mark) else RunRules(rules[2..], p);
  }

  lemma Tproxy6RulesExactly(plan: Plan, p: Packet)
    ensures RunRules(Tproxy6Rules(plan), p) ==
            if p.mark != plan.egressMark && !IsLocal6(plan, p.dst) && Covered(plan, p.iif)
               && !(p.proto == Udp && p.dport in {546, 547}) && p.proto != OtherProto
            then Diverted(plan.fwmark, plan.tproxyPort6) else Passed(p.mark)
  {
    IfacesExactly(plan);
    Local6ByBits(plan, p.dst);
    var rules := Tproxy6Rules(plan);
    var divert := rules[3].matches;
    assert HitsAll(rules[0].matches, p) <==> Hits(rules[0].matches[0], p);
    assert HitsAll(rules[1].matches, p) <==> Hits(rules[1].matches[0], p);
    assert HitsAll(rules[2].matches, p) <==> Hits(rules[2].matches[0], p);
    assert HitsAll(divert, p) <==> Hits(divert[0], p) && Hits(divert[1], p);
    var verdict := if HitsAll(divert, p) then Diverted(plan.fwmark, plan.tproxyPort6) else Passed(p.mark);
    assert RunRules(rules[3..], p) == verdict by {
      assert rules[3..][1..] == [];
    }
    assert rules[2..][1..] == rules[3..] && rules[1..][1..] == rules[2..];
    assert RunRules(rules[2..], p) == if HitsAll(rules[2].matches, p) then Passed(p.mark) else RunRules(rules[3..], p);
    assert RunRules(rules[1..], p) == if HitsAll(rules[1].matches, p) then Passed(p.mark) else RunRules(rules[2..], p);
  }

  /** The v4 table behind its prerouting and forward chains. */
  function Tail(plan: Plan): seq<Chain> {
    (if plan.lanAccess && plan.segmentNet.Some? && plan.lan.Some?
     then [Chain(Postrouting, [Rule([Src([plan.segmentNet.value]), Dst([plan.lan.value]), Oif(plan.mgmtIface)],
                                    Masquerade)])]
     else [])
    + Accounting(plan)
  }

  lemma TailPasses(plan: Plan, hook: Hook, p: Packet)
    ensures RunHook(Tail(plan), hook, p) == Passed(p.mark)
  {
    AccountingPasses(plan, hook, p);
    if plan.lanAccess && plan.segmentNet.Some? && plan.lan.Some? {
      var c := Tail(plan)[0];
      assert Tail(plan)[1..] == Accounting(plan) && c.rules[1..] == [];
      assert RunRules(c.rules, p) == Passed(p.mark);
      assert p.(mark := p.mark) == p;
    } else {
      assert Tail(plan) == Accounting(plan);
    }
  }

  /** v4, forward: with the kill-switch on, exactly the packets from a covered interface to a
      destination that is not private are dropped, whether or not the tunnel is up. */
  lemma ForwardExactly(plan: Plan, up: bool, p: Packet)
    ensures RunHook(RenderNft(plan, up), Forward, p) ==
            if plan.killSwitch && Covered(plan, p.iif) && !IsPrivate4(p.dst) then Dropped else Passed(p.mark)
  {
    IfacesExactly(plan);
    var pre := if up then [Chain(Prerouting, TproxyRules(plan))] else [];
    var leak := Rule([Iif(Ifaces(plan)), NotDst(Private4())], DropIt);
    var drop := if plan.killSwitch then [Chain(Forward, [leak])] else [];
    assert RenderNft(plan, up) == pre + (drop + Tail(plan));
    HookConcat(pre, drop + Tail(plan), Forward, p);
    forall q: Packet { TailPasses(plan, Forward, q); }
    if plan.killSwitch {
      OneChain(drop[0], Tail(plan), p);
      DropRule(Ifaces(plan), Private4(), p);
      Private4ByOctets(p.dst);
    } else {
      assert drop + Tail(plan) == Tail(plan);
    }
  }

  /** v4, prerouting: with the tunnel up, exactly the TCP and UDP packets from a covered interface
      to a destination that is not private are diverted, except xray's own and DHCP. */
  lemma PreroutingExactly(plan: Plan, up: bool, p: Packet)
    ensures RunHook(RenderNft(plan, up), Prerouting, p) ==
            if up && p.mark != plan.egressMark && !IsPrivate4(p.dst) && Covered(plan, p.iif)
               && !Dhcp(plan, p) && p.proto != OtherProto
            then Diverted(plan.fwmark, plan.tproxyPort) else Passed(p.mark)
  {
    var pre := if up then [Chain(Prerouting, TproxyRules(plan))] else [];
    var leak := Rule([Iif(Ifaces(plan)), NotDst(Private4())], DropIt);
    var drop := if plan.killSwitch then [Chain(Forward, [leak])] else [];
    assert RenderNft(plan, up) == pre + (drop + Tail(plan));
    forall q: Packet ensures RunHook(drop + Tail(plan), Prerouting, q) == Passed(q.mark) {
      HookConcat(drop, Tail(plan), Prerouting, q);
      TailPasses(plan, Prerouting, q);
    }
    if up {
      OneChain(pre[0], drop + Tail(plan), p);
      TproxyRulesExactly(plan, p);
    } else {
      assert pre + (drop + Tail(plan)) == drop + Tail(plan);
    }
  }

  lemma PostroutingPasses(plan: Plan, up: bool, p: Packet)
    ensures RunHook(RenderNft(plan, up), Postrouting, p) == Passed(p.mark)
  {
    var pre := if up then [Chain(Prerouting, TproxyRules(plan))] else [];
    var leak := Rule([Iif(Ifaces(plan)), NotDst(Private4())], DropIt);
    var drop := if plan.killSwitch then [Chain(Forward, [leak])] else [];
    assert RenderNft(plan, up) == (pre + drop) + Tail(plan);
    HookConcat(pre + drop, Tail(plan), Postrouting, p);
    TailPasses(plan, Postrouting, p);
  }

  function Chains6(plan: Plan, up: bool): seq<Chain> {
    var t := RenderNft6(plan, up);
    if t.Some? then t.value else []
  }

  /** v6, forward: also dropped whenever the tunnel is up. */
  lemma Forward6Exactly(plan: Plan, up: bool, p: Packet)
    ensures RunHook(Chains6(plan, up), Forward, p) ==
            if (plan.killSwitch || up) && Covered(plan, p.iif) && !IsLocal6(plan, p.dst) then Dropped
            else Passed(p.mark)
  {
    IfacesExactly(plan);
    DropRule(Ifaces(plan), Local6(plan), p);
    Local6ByBits(plan, p.dst);
    var forward := Chain(Forward, [Rule([Iif(Ifaces(plan)), NotDst(Local6(plan))], DropIt)]);
    assert [forward] == [forward] + [];
    OneChain(forward, [], p);
    if plan.ipv6Enabled && up { HookConcat([Chain(Prerouting, Tproxy6Rules(plan))], [forward], Forward, p); }
  }

  lemma Prerouting6Exactly(plan: Plan, up: bool, p: Packet)
    ensures RunHook(Chains6(plan, up), Prerouting, p) ==
            if up && plan.ipv6Enabled && p.mark != plan.egressMark && !IsLocal6(plan, p.dst)
               && Covered(plan, p.iif) && !(p.proto == Udp && p.dport in {546, 547}) && p.proto != OtherProto
            then Diverted(plan.fwmark, plan.tproxyPort6) else Passed(p.mark)
  {
    var forward := Chain(Forward, [Rule([Iif(Ifaces(plan)), NotDst(Local6(plan))], DropIt)]);
    forall q: Packet ensures RunHook([forward], Prerouting, q) == Passed(q.mark) {
      HookConcat([forward], [], Prerouting, q);
      assert [forward] + [] == [forward];
    }
    if plan.ipv6Enabled && up {
      OneChain(Chain(Prerouting, Tproxy6Rules(plan)), [forward], p);
      Tproxy6RulesExactly(plan, p);
      assert Chains6(plan, up) == [Chain(Prerouting, Tproxy6Rules(plan))] + [forward];
    }
  }

  // ----- what the rules do beside deciding --------------------------------------------------

  /** The actions a chain takes on a packet. */
  function Acts(rules: seq<Rule>, p: Packet): set<Action> {
    if rules == [] then {}
    else if !HitsAll(rules[0].matches, p) then Acts(rules[1..], p)
    else {rules[0].action} + if rules[0].action.Count? then Acts(rules[1..], p) else {}
  }

  /** All the chains at a hook. */
  function ActsAt(chains: seq<Chain>, hook: Hook, p: Packet): set<Action> {
    if chains == [] then {}
    else if chains[0].hook != hook then ActsAt(chains[1..], hook, p)
    else
      var fate := RunRules(chains[0].rules, p);
      Acts(chains[0].rules, p)
      + if fate == Dropped then {} else ActsAt(chains[1..], hook, p.(mark := fate.mark))
  }

  lemma {:induction false} OnlyTheirActions(rules: seq<Rule>, p: Packet, a: Action)
    requires forall r :: r in rules ==> r.action != a
    ensures a !in Acts(rules, p)
  {
    if rules != [] { OnlyTheirActions(rules[1..], p, a); }
  }

  /** Chains without the action can be left out, as long as they drop nothing; the mark they set is
      not looked at by `b`. */
  lemma {:induction false} ActsBehind(a: seq<Chain>, b: seq<Chain>, hook: Hook, p: Packet, act: Action)
    requires forall c, r :: c in a && c.hook == hook && r in c.rules ==> r.action != act
    requires forall c, q: Packet :: c in a && c.hook == hook ==> RunRules(c.rules, q) != Dropped
    requires forall m: int :: act in ActsAt(b, hook, p.(mark := m)) <==> act in ActsAt(b, hook, p)
    ensures act in ActsAt(a + b, hook, p) <==> act in ActsAt(b, hook, p)
  {
    if a == [] {
      assert a + b == b;
    } else {
      assert (a + b)[1..] == a[1..] + b && a[0] in a;
      var fate := RunRules(a[0].rules, p);
      if a[0].hook == hook {
        OnlyTheirActions(a[0].rules, p, act);
        assert fate != Dropped;
        var q := p.(mark := fate.mark);
        forall m: int ensures act in ActsAt(b, hook, q.(mark := m)) <==> act in ActsAt(b, hook, q) {
          assert q.(mark := m) == p.(mark := m);
        }
        ActsBehind(a[1..], b, hook, q, act);
      } else {
        ActsBehind(a[1..], b, hook, p, act);
      }
    }
  }

  /** The counter of a usable reservation of the address `ip`. */
  ghost predicate Billed(plan: Plan, rs: seq<Reservation>, ip: nat, counter: string, upload: bool) {
    exists r :: r in rs && r.ip == ip && r.shapeOk && counter == (if upload then r.upCounter else r.downCounter)
                && plan.segmentNet.Some? && In(ip, plan.segmentNet.value) && plan.segmentIp != Some(ip)
  }

  lemma Exact4(a: nat, ip: nat)
    ensures InAny(a, [Net(ip, ip)]) <==> a == ip
  {
    if a == ip { assert In(a, [Net(ip, ip)][0]); }
  }

  lemma {:induction false} UploadsBill(plan: Plan, rs: seq<Reservation>, p: Packet, c: string)
    ensures Count(c) in Acts(Uploads(rs, plan), p) <==> Billed(plan, rs, p.src, c, true)
  {
    if rs != [] {
      UploadsBill(plan, rs[1..], p, c);
      assert rs == [rs[0]] + rs[1..];
      if Applies(rs[0], plan) {
        var rules := Uploads(rs, plan);
        assert rules[1..] == Uploads(rs[1..], plan);
        Exact4(p.src, rs[0].ip);
        assert HitsAll(rules[0].matches, p) <==> Hits(rules[0].matches[0], p);
      } else {
        assert Uploads(rs, plan) == Uploads(rs[1..], plan);
      }
    }
  }

  lemma {:induction false} DownloadsBill(plan: Plan, rs: seq<Reservation>, p: Packet, c: string)
    ensures Count(c) in Acts(Downloads(rs, plan), p) <==> Billed(plan, rs, p.dst, c, false)
  {
    if rs != [] {
      DownloadsBill(plan, rs[1..], p, c);
      assert rs == [rs[0]] + rs[1..];
      if Applies(rs[0], plan) {
        var rules := Downloads(rs, plan);
        assert rules[1..] == Downloads(rs[1..], plan);
        Exact4(p.dst, rs[0].ip);
        assert HitsAll(rules[0].matches, p) <==> Hits(rules[0].matches[0], p);
      } else {
        assert Downloads(rs, plan) == Downloads(rs[1..], plan);
      }
    }
  }

  lemma {:induction false} NoneUsable(plan: Plan, rs: seq<Reservation>, ip: nat, c: string, upload: bool)
    requires Uploads(rs, plan) == []
    ensures !Billed(plan, rs, ip, c, upload)
  {
    if rs != [] {
      NoneUsable(plan, rs[1..], ip, c, upload);
      assert rs == [rs[0]] + rs[1..];
    }
  }

  /** One counting chain: nothing for private addresses at the far end, else its counters. */
  lemma CountingChain(far: Match, rules: seq<Rule>, p: Packet, c: string)
    ensures Count(c) in Acts([Rule([far], Return)] + rules, p) <==> !Hits(far, p) && Count(c) in Acts(rules, p)
  {
    var all := [Rule([far], Return)] + rules;
    assert all[1..] == rules;
    assert HitsAll([far], p) <==> Hits([far][0], p);
  }

  lemma TwoChains(a: Chain, b: Chain, p: Packet)
    requires a.hook != b.hook
    ensures ActsAt([a, b], a.hook, p) == Acts(a.rules, p) && ActsAt([a, b], b.hook, p) == Acts(b.rules, p)
  {
    assert [a, b][1..] == [b] && [b][1..] == [];
    forall q: Packet ensures ActsAt([b], a.hook, q) == {} && ActsAt([b], b.hook, q) == Acts(b.rules, q) {
      assert [b][1..] == [];
      assert forall q': Packet :: ActsAt([], a.hook, q') == {} && ActsAt([], b.hook, q') == {};
    }
  }

  lemma AccountingActs(plan: Plan, p: Packet, c: string)
    ensures Count(c) in ActsAt(Accounting(plan), Prerouting, p) <==>
            !IsPrivate4(p.dst) && Billed(plan, plan.reservations, p.src, c, true)
    ensures Count(c) in ActsAt(Accounting(plan), Postrouting, p) <==>
            !IsPrivate4(p.src) && Billed(plan, plan.reservations, p.dst, c, false)
  {
    var ups, downs := Uploads(plan.reservations, plan), Downloads(plan.reservations, plan);
    Private4ByOctets(p.dst);
    Private4ByOctets(p.src);
    if ups == [] {
      NoneUsable(plan, plan.reservations, p.src, c, true);
      NoneUsable(plan, plan.reservations, p.dst, c, false);
    } else {
      var chains := Accounting(plan);
      CountingChain(Dst(Private4()), ups, p, c);
      CountingChain(Src(Private4()), downs, p, c);
      UploadsBill(plan, plan.reservations, p, c);
      DownloadsBill(plan, plan.reservations, p, c);
      TwoChains(chains[0], chains[1], p);
    }
  }

  /** The whole v4 table counts a packet exactly for the reserved address it comes from, on the way in,
      or goes to, on the way out, and never one between private addresses. */
  lemma CountedExactly(plan: Plan, up: bool, p: Packet, c: string)
    ensures Count(c) in ActsAt(RenderNft(plan, up), Prerouting, p) <==>
            !IsPrivate4(p.dst) && Billed(plan, plan.reservations, p.src, c, true)
    ensures Count(c) in ActsAt(RenderNft(plan, up), Postrouting, p) <==>
            !IsPrivate4(p.src) && Billed(plan, plan.reservations, p.dst, c, false)
  {
    var lead := Lead(plan, up);
    assert RenderNft(plan, up) == lead + Accounting(plan);
    LeadNeverCounts(plan, up, c);
    forall m: int { AccountingActs(plan, p.(mark := m), c); }
    AccountingActs(plan, p, c);
    ActsBehind(lead, Accounting(plan), Prerouting, p, Count(c));
    ActsBehind(lead, Accounting(plan), Postrouting, p, Count(c));
  }

  /** The v4 table before its counting chains. */
  function Lead(plan: Plan, up: bool): seq<Chain> {
    (if up then [Chain(Prerouting, TproxyRules(plan))] else [])
    + (if plan.killSwitch then [Chain(Forward, [Rule([Iif(Ifaces(plan)), NotDst(Private4())], DropIt)])] else [])
    + (if plan.lanAccess && plan.segmentNet.Some? && plan.lan.Some?
       then [Chain(Postrouting, [Rule([Src([plan.segmentNet.value]), Dst([plan.lan.value]), Oif(plan.mgmtIface)],
                                      Masquerade)])]
       else [])
  }

  lemma LeadNeverCounts(plan: Plan, up: bool, c: string)
    ensures forall ch, r :: ch in Lead(plan, up) && r in ch.rules ==> r.action != Count(c)
    ensures forall ch, q: Packet :: ch in Lead(plan, up) && ch.hook != Forward ==> RunRules(ch.rules, q) != Dropped
  {
    forall ch, q: Packet | ch in Lead(plan, up) && ch.hook != Forward ensures RunRules(ch.rules, q) != Dropped {
      if ch.hook == Prerouting {
        TproxyRulesExactly(plan, q);
      } else {
        assert ch.rules[1..] == [];
      }
    }
  }

  /** Exactly the segment's packets to the home network that leave by the management interface are
      masqueraded, if LAN access is on: nothing bound for the internet ever is. */
  lemma MasqueradedExactly(plan: Plan, up: bool, p: Packet)
    ensures Masquerade in ActsAt(RenderNft(plan, up), Postrouting, p) <==>
            && plan.lanAccess && plan.segmentNet.Some? && plan.lan.Some?
            && In(p.src, plan.segmentNet.value) && In(p.dst, plan.lan.value) && p.oif == plan.mgmtIface
  {
    var lead := (if up then [Chain(Prerouting, TproxyRules(plan))] else [])
                + (if plan.killSwitch
                   then [Chain(Forward, [Rule([Iif(Ifaces(plan)), NotDst(Private4())], DropIt)])] else []);
    assert RenderNft(plan, up) == lead + Tail(plan);
    forall m: int { TailMasquerades(plan, p.(mark := m)); }
    TailMasquerades(plan, p);
    ActsBehind(lead, Tail(plan), Postrouting, p, Masquerade);
  }

  lemma TailMasquerades(plan: Plan, p: Packet)
    ensures Masquerade in ActsAt(Tail(plan), Postrouting, p) <==>
            && plan.lanAccess && plan.segmentNet.Some? && plan.lan.Some?
            && In(p.src, plan.segmentNet.value) && In(p.dst, plan.lan.value) && p.oif == plan.mgmtIface
  {
    AccountingNoMasquerade(plan, p);
    if plan.lanAccess && plan.segmentNet.Some? && plan.lan.Some? {
      var c := Tail(plan)[0];
      var ms := c.rules[0].matches;
      assert Tail(plan)[1..] == Accounting(plan) && c.rules[1..] == [];
      assert HitsAll(ms, p) <==> Hits(ms[0], p) && Hits(ms[1], p) && Hits(ms[2], p);
      assert InAny(p.src, [plan.segmentNet.value]) <==> In(p.src, [plan.segmentNet.value][0]);
      assert InAny(p.dst, [plan.lan.value]) <==> In(p.dst, [plan.lan.value][0]);
      assert RunRules(c.rules, p) == Passed(p.mark);
      assert p.(mark := p.mark) == p;
      assert Acts(c.rules, p) == if HitsAll(ms, p) then {Masquerade} else {};
    } else {
      assert Tail(plan) == Accounting(plan);
    }
  }

  lemma AccountingNoMasquerade(plan: Plan, p: Packet)
    ensures Masquerade !in ActsAt(Accounting(plan), Postrouting, p)
  {
    UploadsCount(plan.reservations, plan);
    var chains := Accounting(plan);
    if chains != [] {
      OnlyTheirActions(chains[1].rules, p, Masquerade);
      TwoChains(chains[0], chains[1], p);
    }
  }

  // ----- the three promises ----------------------------------------------------------------

  /** The packet gets past both hooks, whatever prerouting did to its mark and wherever it is sent. */
  ghost predicate Forwarded(chains: seq<Chain>, p: Packet) {
    var pre := RunHook(chains, Prerouting, p);
    pre != Dropped && exists oif: string :: RunHook(chains, Forward, p.(mark := pre.mark, oif := oif)) != Dropped
  }

  /** Nothing from a covered interface to a destination that is not local is ever forwarded while
      the kill-switch is on, for any plan and with the tunnel up or down. */
  lemma NeverForwarded(plan: Plan, up: bool, p: Packet)
    requires plan.killSwitch && Covered(plan, p.iif)
    ensures !IsPrivate4(p.dst) ==> !Forwarded(RenderNft(plan, up), p)
    ensures !IsLocal6(plan, p.dst) ==> !Forwarded(Chains6(plan, up), p)
  {
    forall q: Packet | q.iif == p.iif && q.dst == p.dst
      ensures !IsPrivate4(p.dst) ==> RunHook(RenderNft(plan, up), Forward, q) == Dropped
      ensures !IsLocal6(plan, p.dst) ==> RunHook(Chains6(plan, up), Forward, q) == Dropped
    {
      ForwardExactly(plan, up, q);
      Forward6Exactly(plan, up, q);
    }
  }

  /** Covering more interfaces changes no verdict for a packet on any other interface. */
  lemma ExtraIfacesElsewhere(plan: Plan, extras: seq<string>, up: bool, hook: Hook, p: Packet)
    requires Covered(plan, p.iif) == Covered(plan.(extraIfaces := extras), p.iif)
    ensures var wide := plan.(extraIfaces := extras);
            && RunHook(RenderNft(wide, up), hook, p) == RunHook(RenderNft(plan, up), hook, p)
            && RunHook(Chains6(wide, up), hook, p) == RunHook(Chains6(plan, up), hook, p)
  {
    var wide := plan.(extraIfaces := extras);
    SameFates(plan, wide, up, hook, p);
  }

  /** Reservations change no verdict at all. */
  lemma ReservationsChangeNothing(plan: Plan, rs: seq<Reservation>, up: bool, hook: Hook, p: Packet)
    ensures var other := plan.(reservations := rs);
            && RunHook(RenderNft(other, up), hook, p) == RunHook(RenderNft(plan, up), hook, p)
            && RunHook(Chains6(other, up), hook, p) == RunHook(Chains6(plan, up), hook, p)
  {
    var other := plan.(reservations := rs);
    SameFates(plan, other, up, hook, p);
  }

  /** Two plans that differ in nothing a packet can see. */
  lemma SameFates(a: Plan, b: Plan, up: bool, hook: Hook, p: Packet)
    requires b == a.(extraIfaces := b.extraIfaces, reservations := b.reservations)
    requires Covered(a, p.iif) == Covered(b, p.iif)
    ensures RunHook(RenderNft(a, up), hook, p) == RunHook(RenderNft(b, up), hook, p)
    ensures RunHook(Chains6(a, up), hook, p) == RunHook(Chains6(b, up), hook, p)
  {
    match hook
    case Prerouting =>
      PreroutingExactly(a, up, p);
      PreroutingExactly(b, up, p);
      Prerouting6Exactly(a, up, p);
      Prerouting6Exactly(b, up, p);
    case Forward =>
      ForwardExactly(a, up, p);
      ForwardExactly(b, up, p);
      Forward6Exactly(a, up, p);
      Forward6Exactly(b, up, p);
    case Postrouting =>
      PostroutingPasses(a, up, p);
      PostroutingPasses(b, up, p);
      PassingChains(Chains6(a, up), Postrouting, p);
      PassingChains(Chains6(b, up), Postrouting, p);
  }
}
