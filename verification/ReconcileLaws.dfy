/** What reconciling a config preserves, removes and never widens. */
module ReconcileLaws {
  import opened Basics
  import opened Xray
  import opened Reconcile

  // ----- no excess, and nothing else touched -----------------------------------------------

  /** The reconciled config is readable and grants exactly what the store grants. */
  lemma ReconciledGrants(rw: Option<RwInbound>, mark: int, cfg: Json)
    requires Shaped(cfg)
    ensures Shaped(Reconciled(rw, mark, cfg))
    ensures LiveGrants(Reconciled(rw, mark, cfg)) == Granted(rw)
    ensures !Excess(rw, Reconciled(rw, mark, cfg))
  {
    var ins := Get(cfg, KInbounds).items;
    ReconciledFields(rw, mark, cfg);
    FilterMembers(NotRw, ins);
    AppendedBlockGrants(Reconciled(rw, mark, cfg), Filter(NotRw, ins), rw);
  }

  /** A config keeps naming its node. */
  lemma ReconciledNames(rw: Option<RwInbound>, mark: int, cfg: Json, node: int)
    requires Shaped(cfg) && Names(cfg, node)
    ensures Names(Reconciled(rw, mark, cfg), node)
  {
    ReconciledFields(rw, mark, cfg);
    var outs := Get(cfg, KOutbounds).items;
    assert !IsLanOutbound(ProxyOutbound(node)) by {
      assert Get(ProxyOutbound(node), KTag) == Str("proxy");
      assert |"proxy"| != |LAN_TAG|;
    }
    assert Filter(NotLanOutbound, outs)[0] == outs[0];
  }

  /** Every inbound, outbound and rule the feature does not own is still there, in order; the
      rules only lose their mention of a dropped inbound; every other key is as it was. */
  lemma OthersKeepTheirOrder(rw: Option<RwInbound>, mark: int, cfg: Json)
    requires Shaped(cfg)
    ensures var r := Reconciled(rw, mark, cfg);
            && Filter(NotRw, Get(r, KInbounds).items) == Filter(NotRw, Get(cfg, KInbounds).items)
            && (Get(cfg, KOutbounds).Arr? ==>
                  && Get(r, KOutbounds).Arr?
                  && Filter(NotLanOutbound, Get(r, KOutbounds).items)
                     == Filter(NotLanOutbound, Get(cfg, KOutbounds).items))
            && (HasRules(cfg) ==>
                  && HasRules(r)
                  && Filter(NotLanRule, RulesOf(r))
                     == Filter(NotLanRule, if rw.None? then DropRefs(RulesOf(cfg)) else RulesOf(cfg)))
            && (forall k :: k !in {KInbounds, KOutbounds, KDns, KRouting} ==> Get(r, k) == Get(cfg, k))
  {
    ReconciledFields(rw, mark, cfg);
    InboundsTwice(rw, Get(cfg, KInbounds).items);
    if Get(cfg, KOutbounds).Arr? {
      OutboundsTwice(Get(cfg, KOutbounds).items, mark, Emits(rw, cfg));
    }
    if HasRules(cfg) {
      LanRulesFiltered(if rw.None? then DropRefs(RulesOf(cfg)) else RulesOf(cfg), NamesOf(rw), Emits(rw, cfg));
    }
  }

  lemma InboundsTwice(rw: Option<RwInbound>, ins: seq<Json>)
    ensures Filter(NotRw, WithBlock(Filter(NotRw, ins), rw)) == Filter(NotRw, ins)
  {
    var kept := Filter(NotRw, ins);
    FilterTwice(NotRw, ins);
    if rw.Some? {
      BlockIsRw(rw.value);
      FilterConcat(NotRw, kept, [RwBlock(rw.value)]);
      assert Filter(NotRw, [RwBlock(rw.value)]) == [];
    } else {
      assert WithBlock(kept, rw) == kept;
    }
  }

  lemma OutboundsTwice(outs: seq<Json>, mark: int, emit: bool)
    ensures Filter(NotLanOutbound, LanOutbounds(outs, mark, emit)) == Filter(NotLanOutbound, outs)
  {
    var kept := Filter(NotLanOutbound, outs);
    FilterTwice(NotLanOutbound, outs);
    assert IsLanOutbound(LanOutbound(mark)) by {
      assert Get(LanOutbound(mark), KTag) == Str(LAN_TAG);
    }
    FilterConcat(NotLanOutbound, kept, [LanOutbound(mark)]);
    assert Filter(NotLanOutbound, [LanOutbound(mark)]) == [];
    assert LanOutbounds(outs, mark, false) == kept;
  }

  lemma LanRuleIsLan(names: seq<string>)
    ensures IsLanRule(LanRule(names))
  {
    assert Get(LanRule(names), KOutboundTag) == Str(LAN_TAG);
  }

  lemma LanRulesFiltered(rules: seq<Json>, names: seq<string>, emit: bool)
    ensures Filter(NotLanRule, LanRules(rules, names, emit)) == Filter(NotLanRule, rules)
  {
    var kept := Filter(NotLanRule, rules);
    if emit {
      LanRuleIsLan(names);
      FilterMembers(NotLanRule, rules);
      InsertedKept(NotLanRule, kept, LanAt(rules), LanRule(names));
    } else {
      FilterTwice(NotLanRule, rules);
    }
  }

  // ----- reconciling twice equals reconciling once -----------------------------------------

  lemma DropRefTwice(rule: Json)
    ensures DropRef(DropRef(rule)) == DropRef(rule)
  {
    var tags := Get(rule, KInboundTag);
    if DropRef(rule) != rule {
      FilterMembers(NotRwTag, tags.items);
      assert Get(DropRef(rule), KInboundTag) == Arr(Filter(NotRwTag, tags.items));
      assert !MentionsRw(DropRef(rule));
    }
  }

  lemma DropRefKeepsTarget(rule: Json)
    ensures IsLanRule(DropRef(rule)) == IsLanRule(rule)
    ensures Get(DropRef(rule), KOutboundTag) == Get(rule, KOutboundTag)
    ensures DropRef(rule).Obj? == rule.Obj?
  {
  }

  lemma LanRulesTwice(rules: seq<Json>, names: seq<string>)
    ensures LanRules(LanRules(rules, names, true), names, true) == LanRules(rules, names, true)
  {
    var kept := Filter(NotLanRule, rules);
    var once := LanRules(rules, names, true);
    var at := LanAt(rules);
    LanRulesFiltered(rules, names, true);
    LanRuleIsLan(names);
    FilterMembers(NotLanRule, rules);
    assert once[at] == LanRule(names);
    forall i | 0 <= i < at ensures NotLanRule(once[i]) {
      assert once[i] == kept[i] && kept[i] in kept;
    }
    FirstLanAt(once, at);
  }

  lemma RulesTwice(rw: Option<RwInbound>, rules: seq<Json>, emit: bool)
    requires emit ==> rw.Some?
    ensures var once := LanRules(if rw.None? then DropRefs(rules) else rules, NamesOf(rw), emit);
            LanRules(if rw.None? then DropRefs(once) else once, NamesOf(rw), emit) == once
  {
    var names := NamesOf(rw);
    if emit {
      LanRulesTwice(rules, names);
    } else if rw.Some? {
      FilterTwice(NotLanRule, rules);
    } else {
      var refs := DropRefs(rules);
      var once := Filter(NotLanRule, refs);
      FilterMembers(NotLanRule, refs);
      forall i | 0 <= i < |once| ensures DropRef(once[i]) == once[i] {
        assert once[i] in refs;
        var j :| 0 <= j < |refs| && refs[j] == once[i];
        DropRefTwice(rules[j]);
      }
      assert DropRefs(once) == once;
      FilterTwice(NotLanRule, refs);
    }
  }

  lemma DnsTwice(dns: Json, hosts: map<string, string>, emit: bool)
    requires dns.Obj?
    ensures LanDns(LanDns(dns, hosts, emit), hosts, emit) == LanDns(dns, hosts, emit)
  {
    assert LanDns(dns, hosts, emit).fields - {KHosts} == dns.fields - {KHosts};
  }

  /** Reconciling twice equals reconciling once. */
  lemma ReconcileTwice(rw: Option<RwInbound>, mark: int, cfg: Json)
    requires Shaped(cfg)
    ensures Shaped(Reconciled(rw, mark, cfg))
    ensures Reconciled(rw, mark, Reconciled(rw, mark, cfg)) == Reconciled(rw, mark, cfg)
  {
    ReconciledGrants(rw, mark, cfg);
    var r := Reconciled(rw, mark, cfg);
    ReconciledFields(rw, mark, cfg);
    ReconciledFields(rw, mark, r);
    TwiceFields(rw, mark, cfg, r, Reconciled(rw, mark, r));
  }

  lemma TwiceFields(rw: Option<RwInbound>, mark: int, cfg: Json, r: Json, rr: Json)
    requires Shaped(cfg) && ReconciledAs(rw, mark, cfg, r)
    requires Shaped(r) && ReconciledAs(rw, mark, r, rr)
    ensures rr == r
  {
    var emit := Emits(rw, cfg);
    assert Emits(rw, r) == emit && HasRules(r) == HasRules(cfg);
    InboundsTwice(rw, Get(cfg, KInbounds).items);
    if Get(cfg, KOutbounds).Arr? {
      OutboundsTwice(Get(cfg, KOutbounds).items, mark, emit);
    }
    if Get(cfg, KDns).Obj? {
      DnsTwice(Get(cfg, KDns), HostsOf(rw), emit);
    }
    if HasRules(cfg) {
      RulesTwice(rw, RulesOf(cfg), emit);
      assert RulesOf(r) == NewRules(rw, cfg);
      RoutingTwice(Get(cfg, KRouting).fields, NewRules(rw, cfg));
    }
    SameFields(rr, r);
  }

  lemma RoutingTwice(fields: map<Key, Json>, rules: seq<Json>)
    ensures fields[KRules := Arr(rules)][KRules := Arr(rules)] == fields[KRules := Arr(rules)]
  {
  }

  // ----- the LAN by name ---------------------------------------------------------------------

  /** The rule lists exactly these names, and restricts nothing else. */
  ghost predicate ListsNames(rule: Json, names: seq<string>) {
    var domains := Get(rule, KDomain);
    && Get(rule, KInboundTag) == Null && Get(rule, KIp) == Null && domains.Arr?
    && forall d :: d in domains.items <==> exists n :: n in names && d == Str("full:" + n)
  }

  /** Each mapped name resolves to its own address and nothing else does; the LAN rules list exactly the
      names; and what they name is there: a direct outbound with the egress mark. */
  ghost predicate MapsNames(dns: Json, rules: seq<Json>, outs: seq<Json>, rw: RwInbound, mark: int) {
    && (forall name :: Get(Get(dns, KHosts), KOther(name)) == if name in rw.hosts then Str(rw.hosts[name]) else Null)
    && (exists r :: r in rules && IsLanRule(r))
    && (forall r :: r in rules && IsLanRule(r) ==> ListsNames(r, rw.hostNames))
    && (exists o :: o in outs && IsLanOutbound(o))
    && (forall o :: o in outs && IsLanOutbound(o) ==>
          Get(o, KProtocol) == Str("freedom") && Get(Get(Get(o, KStreamSettings), KSockopt), KMark) == Num(mark))
  }

  /** Nothing of it is left. */
  ghost predicate MapsNothing(dns: Json, rules: seq<Json>, outs: seq<Json>) {
    && Get(dns, KHosts) == Null
    && (forall r :: r in rules ==> !IsLanRule(r))
    && (forall o :: o in outs ==> !IsLanOutbound(o))
  }

  ghost predicate MapsAsStored(dns: Json, rules: seq<Json>, outs: seq<Json>, rw: Option<RwInbound>, mark: int) {
    if rw.Some? && rw.value.hosts != map[] then MapsNames(dns, rules, outs, rw.value, mark)
    else MapsNothing(dns, rules, outs)
  }

  lemma LanRuleLists(names: seq<string>)
    ensures IsLanRule(LanRule(names)) && ListsNames(LanRule(names), names)
  {
    LanRuleIsLan(names);
    var rule := LanRule(names);
    var items := Get(rule, KDomain).items;
    forall d ensures d in items <==> exists n :: n in names && d == Str("full:" + n) {
      if d in items {
        var i :| 0 <= i < |items| && items[i] == d;
        assert names[i] in names && d == Str("full:" + names[i]);
      }
      if exists n :: n in names && d == Str("full:" + n) {
        var n :| n in names && d == Str("full:" + n);
        var i :| 0 <= i < |names| && names[i] == n;
        assert items[i] == d;
      }
    }
  }

  lemma LanOutboundIs(mark: int)
    ensures var o := LanOutbound(mark);
            && IsLanOutbound(o) && Get(o, KProtocol) == Str("freedom")
            && Get(Get(Get(o, KStreamSettings), KSockopt), KMark) == Num(mark)
  {
    var o := LanOutbound(mark);
    assert Get(o, KTag) == Str(LAN_TAG);
    assert Get(Get(o, KStreamSettings), KSockopt) == Obj(map[KMark := Num(mark)]);
  }

  lemma HostsMap(hosts: map<string, string>, name: string)
    ensures Get(HostsJson(hosts), KOther(name)) == if name in hosts then Str(hosts[name]) else Null
  {
  }

  /** Reconciled: exactly the stored names are mapped, whatever the file mapped before. */
  lemma ReconciledMaps(rw: Option<RwInbound>, mark: int, cfg: Json)
    requires Shaped(cfg) && HasRules(cfg) && Get(cfg, KDns).Obj? && Get(cfg, KOutbounds).Arr?
    ensures var r := Reconciled(rw, mark, cfg);
            && HasRules(r) && Get(r, KOutbounds).Arr?
            && MapsAsStored(Get(r, KDns), RulesOf(r), Get(r, KOutbounds).items, rw, mark)
  {
    ReconciledFields(rw, mark, cfg);
    var r, emit := Reconciled(rw, mark, cfg), MapsHosts(rw);
    var refs := if rw.None? then DropRefs(RulesOf(cfg)) else RulesOf(cfg);
    assert RulesOf(r) == LanRules(refs, NamesOf(rw), emit);
    LanRulesAre(refs, NamesOf(rw), emit);
    LanOutboundsAre(Get(cfg, KOutbounds).items, mark, emit);
    if emit {
      forall name ensures Get(Get(Get(r, KDns), KHosts), KOther(name)) ==
                          if name in rw.value.hosts then Str(rw.value.hosts[name]) else Null
      {
        HostsMap(rw.value.hosts, name);
      }
    }
  }

  lemma LanRulesAre(rules: seq<Json>, names: seq<string>, emit: bool)
    ensures forall r :: r in LanRules(rules, names, emit) && IsLanRule(r) ==> emit && ListsNames(r, names)
    ensures emit ==> exists r :: r in LanRules(rules, names, emit) && IsLanRule(r)
  {
    FilterMembers(NotLanRule, rules);
    LanRuleLists(names);
    if emit {
      var all, at := LanRules(rules, names, true), LanAt(rules);
      assert all[at] == LanRule(names) && all[at] in all;
      forall r | r in all && IsLanRule(r) ensures r == LanRule(names) {
        assert r in Filter(NotLanRule, rules) || r == LanRule(names);
      }
    }
  }

  lemma LanOutboundsAre(outs: seq<Json>, mark: int, emit: bool)
    ensures forall o :: o in LanOutbounds(outs, mark, emit) && IsLanOutbound(o) ==> emit && o == LanOutbound(mark)
    ensures Get(LanOutbound(mark), KProtocol) == Str("freedom")
    ensures Get(Get(Get(LanOutbound(mark), KStreamSettings), KSockopt), KMark) == Num(mark)
    ensures emit ==> exists o :: o in LanOutbounds(outs, mark, emit) && IsLanOutbound(o)
  {
    FilterMembers(NotLanOutbound, outs);
    LanOutboundIs(mark);
    var all := LanOutbounds(outs, mark, emit);
    if emit { assert all[|all| - 1] == LanOutbound(mark) && all[|all| - 1] in all; }
  }

  /** Built: the same. */
  lemma BuiltMaps(b: Base, rw: Option<RwInbound>, mark: int)
    requires BaseOk(b)
    ensures var r := BuildConfig(b, rw, mark);
            && HasRules(r) && Get(r, KOutbounds).Arr?
            && MapsAsStored(Get(r, KDns), RulesOf(r), Get(r, KOutbounds).items, rw, mark)
  {
    BuildFields(b, rw, mark);
    var r, emit := BuildConfig(b, rw, mark), MapsHosts(rw);
    FilterId(NotLanOutbound, b.outbounds);
    LanOutboundsAre(b.outbounds, mark, emit);
    BuiltLanRules(b, rw);
    if emit {
      forall name ensures Get(Get(Get(r, KDns), KHosts), KOther(name)) ==
                          if name in rw.value.hosts then Str(rw.value.hosts[name]) else Null
      {
        HostsMap(rw.value.hosts, name);
      }
    }
  }

  lemma BuiltLanRules(b: Base, rw: Option<RwInbound>)
    requires BaseOk(b)
    ensures forall r :: r in BuildRules(b, rw) && IsLanRule(r) ==> MapsHosts(rw) && ListsNames(r, rw.value.hostNames)
    ensures MapsHosts(rw) ==> exists r :: r in BuildRules(b, rw) && IsLanRule(r)
  {
    LoopbackNotLan(b.clientFacing + (if rw.Some? then [RW_TAG] else []));
    if MapsHosts(rw) {
      var lan := LanRule(rw.value.hostNames);
      LanRuleLists(rw.value.hostNames);
      assert BuildRules(b, rw)[|b.rules|] == lan;
    }
  }

  // ----- first-match routing ---------------------------------------------------------------

  /** A connection as routing sees it: where it came in, the name it asks for, and whatever
      else a rule can test. */
  datatype Conn = Conn(inbound: string, name: string, rest: int)

  /** A rule matches when its inbound list names the connection's inbound (or is absent or
      empty) and everything else it tests holds; `other` is that rest, any function of the rule
      without its inbound list. */
  predicate Matches(other: (Json, Conn) -> bool, rule: Json, c: Conn) {
    var tags := Get(rule, KInboundTag);
    && rule.Obj?
    && (tags.Arr? ==> tags.items == [] || Str(c.inbound) in tags.items)
    && other(Obj(if tags.Arr? then rule.fields - {KInboundTag} else rule.fields), c)
  }

  /** The outbound the first matching rule names. */
  function FirstMatch(other: (Json, Conn) -> bool, rules: seq<Json>, c: Conn): Option<Json> {
    if rules == [] then None
    else if Matches(other, rules[0], c) then Some(Get(rules[0], KOutboundTag))
    else FirstMatch(other, rules[1..], c)
  }

  lemma {:induction false} FirstMatchConcat(other: (Json, Conn) -> bool, xs: seq<Json>, ys: seq<Json>, c: Conn)
    ensures FirstMatch(other, xs + ys, c)
            == if FirstMatch(other, xs, c).Some? then FirstMatch(other, xs, c) else FirstMatch(other, ys, c)
  {
    if xs == [] {
      assert xs + ys == ys;
    } else {
      assert (xs + ys)[1..] == xs[1..] + ys;
      FirstMatchConcat(other, xs[1..], ys, c);
    }
  }

  lemma {:induction false} FirstMatchFilter(other: (Json, Conn) -> bool, rules: seq<Json>, c: Conn)
    requires forall r :: r in rules && IsLanRule(r) ==> !Matches(other, r, c)
    ensures FirstMatch(other, Filter(NotLanRule, rules), c) == FirstMatch(other, rules, c)
  {
    if rules != [] {
      FirstMatchFilter(other, rules[1..], c);
      var rest := Filter(NotLanRule, rules[1..]);
      if NotLanRule(rules[0]) {
        FirstMatchConcat(other, [rules[0]], rest, c);
        FirstMatchConcat(other, [rules[0]], rules[1..], c);
        assert rules == [rules[0]] + rules[1..];
      } else {
        assert Filter(NotLanRule, rules) == rest;
        assert rules[0] in rules;
      }
    }
  }

  lemma FirstMatchInsert(other: (Json, Conn) -> bool, rules: seq<Json>, at: nat, x: Json, c: Conn)
    requires at <= |rules| && !Matches(other, x, c)
    ensures FirstMatch(other, Insert(rules, at, x), c) == FirstMatch(other, rules, c)
  {
    FirstMatchConcat(other, rules[..at] + [x], rules[at..], c);
    FirstMatchConcat(other, rules[..at], [x], c);
    FirstMatchConcat(other, rules[..at], rules[at..], c);
    assert rules[..at] + rules[at..] == rules;
  }

  lemma DropRefMatches(other: (Json, Conn) -> bool, rule: Json, c: Conn)
    ensures Matches(other, DropRef(rule), c) ==> Matches(other, rule, c)
    ensures c.inbound != RW_TAG ==> Matches(other, DropRef(rule), c) == Matches(other, rule, c)
  {
    var tags := Get(rule, KInboundTag);
    if DropRef(rule) != rule {
      FilterMembers(NotRwTag, tags.items);
      assert Get(DropRef(rule), KInboundTag) == Arr(Filter(NotRwTag, tags.items));
      assert DropRef(rule).fields - {KInboundTag} == rule.fields - {KInboundTag};
    }
  }

  lemma {:induction false} FirstMatchDropRefs(other: (Json, Conn) -> bool, rules: seq<Json>, c: Conn)
    requires c.inbound != RW_TAG
    ensures FirstMatch(other, DropRefs(rules), c) == FirstMatch(other, rules, c)
  {
    if rules != [] {
      DropRefMatches(other, rules[0], c);
      DropRefKeepsTarget(rules[0]);
      assert DropRefs(rules)[1..] == DropRefs(rules[1..]);
      FirstMatchDropRefs(other, rules[1..], c);
    }
  }

  /** The rules of the reconciled config other than the LAN rules are the original ones, position by
      position: each names the same outbound, matches nothing its own original did not, and on any
      other inbound exactly what it did. */
  lemma NoRuleWidens(other: (Json, Conn) -> bool, rw: Option<RwInbound>, mark: int, cfg: Json, k: nat, c: Conn)
    requires Shaped(cfg) && HasRules(cfg) && k < |Filter(NotLanRule, RulesOf(cfg))|
    ensures HasRules(Reconciled(rw, mark, cfg))
    ensures var now, was := Filter(NotLanRule, RulesOf(Reconciled(rw, mark, cfg))), Filter(NotLanRule, RulesOf(cfg));
            && |now| == |was|
            && Get(now[k], KOutboundTag) == Get(was[k], KOutboundTag)
            && (Matches(other, now[k], c) ==> Matches(other, was[k], c))
            && (c.inbound != RW_TAG || rw.Some? ==> Matches(other, now[k], c) == Matches(other, was[k], c))
  {
    OthersKeepTheirOrder(rw, mark, cfg);
    var was := Filter(NotLanRule, RulesOf(cfg));
    if rw.None? {
      FilterDropRefs(RulesOf(cfg));
      assert DropRefs(was)[k] == DropRef(was[k]);
      DropRefMatches(other, was[k], c);
      DropRefKeepsTarget(was[k]);
    }
  }

  /** First-match routing is the same before and after for a connection on an inbound the
      config still has, unless an old or new LAN rule is what it matches. */
  lemma RoutingUnchanged(other: (Json, Conn) -> bool, rw: Option<RwInbound>, mark: int, cfg: Json, c: Conn)
    requires Shaped(cfg) && HasRules(cfg)
    requires exists i :: i in NewInbounds(rw, cfg) && Get(i, KTag) == Str(c.inbound)
    requires forall r :: r in RulesOf(cfg) && IsLanRule(r) ==> !Matches(other, r, c)
    requires Emits(rw, cfg) ==> !Matches(other, LanRule(NamesOf(rw)), c)
    ensures HasRules(Reconciled(rw, mark, cfg))
    ensures FirstMatch(other, RulesOf(Reconciled(rw, mark, cfg)), c) == FirstMatch(other, RulesOf(cfg), c)
  {
    ReconciledFields(rw, mark, cfg);
    var rules := RulesOf(cfg);
    var refs := if rw.None? then DropRefs(rules) else rules;
    if rw.None? {
      FilterMembers(NotRw, Get(cfg, KInbounds).items);
      assert c.inbound != RW_TAG;
      FirstMatchDropRefs(other, rules, c);
      forall r | r in refs && IsLanRule(r) ensures !Matches(other, r, c) {
        var j :| 0 <= j < |refs| && refs[j] == r;
        DropRefKeepsTarget(rules[j]);
        DropRefMatches(other, rules[j], c);
        assert rules[j] in rules;
      }
    }
    FirstMatchFilter(other, refs, c);
    if Emits(rw, cfg) {
      FirstMatchInsert(other, Filter(NotLanRule, refs), LanAt(refs), LanRule(NamesOf(rw)), c);
    }
  }

  /** The same in the feature's own terms: the old LAN rules are the builder's, a `full:` rule
      matches only a listed name, and the connection asks for none of the old or new names. */
  lemma RoutingUnchangedOffTheMappedNames(other: (Json, Conn) -> bool, rw: Option<RwInbound>, mark: int,
                                          cfg: Json, oldNames: seq<string>, c: Conn)
    requires Shaped(cfg) && HasRules(cfg)
    requires exists i :: i in NewInbounds(rw, cfg) && Get(i, KTag) == Str(c.inbound)
    requires forall names: seq<string>, k: Conn :: Matches(other, LanRule(names), k) ==> k.name in names
    requires forall r :: r in RulesOf(cfg) && IsLanRule(r) ==> r == LanRule(oldNames)
    requires c.name !in oldNames && c.name !in NamesOf(rw)
    ensures HasRules(Reconciled(rw, mark, cfg))
    ensures FirstMatch(other, RulesOf(Reconciled(rw, mark, cfg)), c) == FirstMatch(other, RulesOf(cfg), c)
  {
    RoutingUnchanged(other, rw, mark, cfg, c);
  }

  // ----- sanitizing is rebuilding ----------------------------------------------------------

  lemma TagsPruned(cf: seq<string>)
    requires RW_TAG !in cf && cf != []
    ensures Filter(NotRwTag, Strs(cf + [RW_TAG])) == Strs(cf)
    ensures Str(RW_TAG) in Strs(cf + [RW_TAG]) && Str(RW_TAG) !in Strs(cf)
    ensures Str(cf[0]) in Strs(cf + [RW_TAG]) && Str(cf[0]) != Str(RW_TAG)
  {
    assert Strs(cf + [RW_TAG]) == Strs(cf) + [Str(RW_TAG)];
    forall j | j in Strs(cf) ensures NotRwTag(j) {
      var i :| 0 <= i < |cf| && Strs(cf)[i] == j;
      assert cf[i] in cf;
    }
    FilterConcat(NotRwTag, Strs(cf), [Str(RW_TAG)]);
    FilterId(NotRwTag, Strs(cf));
    assert Filter(NotRwTag, [Str(RW_TAG)]) == [];
    assert Strs(cf + [RW_TAG])[0] == Str(cf[0]);
    assert cf[0] in cf;
  }

  lemma LoopbackPruned(cf: seq<string>)
    requires RW_TAG !in cf && cf != []
    ensures DropRef(LoopbackRule(cf + [RW_TAG])) == LoopbackRule(cf)
    ensures DropRef(LoopbackRule(cf)) == LoopbackRule(cf)
  {
    TagsPruned(cf);
    assert Get(LoopbackRule(cf), KInboundTag) == Arr(Strs(cf));
    var rule := LoopbackRule(cf + [RW_TAG]);
    assert Get(rule, KInboundTag) == Arr(Strs(cf + [RW_TAG]));
    assert rule.fields[KInboundTag := Arr(Strs(cf))] == LoopbackRule(cf).fields;
  }

  lemma DropRefsId(rules: seq<Json>)
    requires forall r :: r in rules ==> !MentionsRw(r)
    ensures DropRefs(rules) == rules
  {
    forall i | 0 <= i < |rules| ensures DropRefs(rules)[i] == rules[i] {
      assert rules[i] in rules;
    }
  }

  lemma LoopbackNotLan(cf: seq<string>)
    ensures !IsLanRule(LoopbackRule(cf))
  {
    assert Get(LoopbackRule(cf), KOutboundTag) == Str("block");
    assert |"block"| != |LAN_TAG|;
  }

  lemma FirstLanAt(all: seq<Json>, k: nat)
    requires k < |all| && IsLanRule(all[k])
    requires forall i :: 0 <= i < k ==> NotLanRule(all[i])
    ensures FirstLan(all) == k
    ensures LanAt(all) == k
  {
  }

  lemma KeptAround<T>(keep: T -> bool, pre: seq<T>, x: T, post: seq<T>)
    requires !keep(x)
    requires (forall r :: r in pre ==> keep(r)) && (forall r :: r in post ==> keep(r))
    ensures Filter(keep, pre + [x] + post) == pre + post
  {
    assert Filter(keep, pre + [x]) == pre by {
      FilterConcat(keep, pre, [x]);
      FilterId(keep, pre);
      assert [x][1..] == [];
      assert pre + [] == pre;
    }
    FilterConcat(keep, pre + [x], post);
    FilterId(keep, post);
  }

  lemma InsertedKept<T>(keep: T -> bool, kept: seq<T>, at: nat, x: T)
    requires at <= |kept| && !keep(x) && forall r :: r in kept ==> keep(r)
    ensures Filter(keep, kept[..at] + [x] + kept[at..]) == kept
  {
    KeptAround(keep, kept[..at], x, kept[at..]);
    assert kept[..at] + kept[at..] == kept;
  }

  lemma LastKept(all: seq<Json>)
    requires all != [] && forall r :: r in all ==> NotLanRule(r)
    ensures LanAt(all) == |all| - 1
  {
    FilterId(NotLanRule, all);
    assert FirstLan(all) == |all| by {
      assert forall i :: 0 <= i < |all| ==> all[i] in all;
    }
  }

  lemma LanInside(pre: seq<Json>, lan: Json, post: seq<Json>)
    requires IsLanRule(lan)
    requires (forall r :: r in pre ==> NotLanRule(r)) && (forall r :: r in post ==> NotLanRule(r))
    ensures Filter(NotLanRule, pre + [lan] + post) == pre + post
    ensures LanAt(pre + [lan] + post) == |pre|
  {
    KeptAround(NotLanRule, pre, lan, post);
    var all := pre + [lan] + post;
    assert all[|pre|] == lan;
    forall i | 0 <= i < |pre| ensures NotLanRule(all[i]) {
      assert all[i] == pre[i] && pre[i] in pre;
    }
    FirstLanAt(all, |pre|);
  }

  function Head(b: Base, rw: Option<RwInbound>): Json {
    LoopbackRule(b.clientFacing + (if rw.Some? then [RW_TAG] else []))
  }

  /** The rules a build emits, with the LAN rule taken out. */
  lemma BuiltRulesKept(b: Base, from: Option<RwInbound>)
    requires BaseOk(b)
    ensures Filter(NotLanRule, BuildRules(b, from)) == [Head(b, from)] + b.rules
    ensures LanAt(BuildRules(b, from)) == |b.rules|
  {
    var head := Head(b, from);
    var n := |b.rules| - 1;
    LoopbackNotLan(b.clientFacing + (if from.Some? then [RW_TAG] else []));
    if MapsHosts(from) {
      var lan := LanRule(from.value.hostNames);
      var pre := [head] + b.rules[..n];
      LanRuleIsLan(from.value.hostNames);
      LanInside(pre, lan, b.rules[n..]);
      assert BuildRules(b, from) == pre + [lan] + b.rules[n..];
      assert pre + b.rules[n..] == [head] + b.rules;
    } else {
      FilterId(NotLanRule, [head] + b.rules);
      LastKept([head] + b.rules);
      assert BuildRules(b, from) == [head] + b.rules;
    }
  }

  lemma DroppedFrom(all: seq<Json>, head: Json, rules: seq<Json>)
    requires Filter(NotLanRule, all) == [head] + rules
    requires forall r :: r in rules ==> !MentionsRw(r)
    ensures LanRules(DropRefs(all), [], false) == [DropRef(head)] + rules
  {
    FilterDropRefs(all);
    DropRefsCons(head, rules);
    DropRefsId(rules);
  }

  lemma DropRefsCons(head: Json, rules: seq<Json>)
    ensures DropRefs([head] + rules) == [DropRef(head)] + DropRefs(rules)
  {
    assert ([head] + rules)[1..] == rules;
  }

  lemma BuiltRulesDropped(b: Base, from: Option<RwInbound>)
    requires BaseOk(b)
    ensures LanRules(DropRefs(BuildRules(b, from)), [], false) == BuildRules(b, None)
  {
    BuiltRulesKept(b, from);
    DroppedFrom(BuildRules(b, from), Head(b, from), b.rules);
    LoopbackPruned(b.clientFacing);
    assert b.clientFacing + [] == b.clientFacing;
  }

  lemma ReplacedFrom(all: seq<Json>, head: Json, rules: seq<Json>, names: seq<string>, emit: bool)
    requires rules != [] && Filter(NotLanRule, all) == [head] + rules && LanAt(all) == |rules|
    ensures LanRules(all, names, emit) == [head] + (if emit then InsertBeforeLast(rules, LanRule(names)) else rules)
  {
    InsertBehindHead(head, rules, LanRule(names));
  }

  lemma InsertBehindHead(head: Json, rules: seq<Json>, rule: Json)
    requires rules != []
    ensures Insert([head] + rules, |rules|, rule) == [head] + InsertBeforeLast(rules, rule)
  {
    var n := |rules|;
    assert ([head] + rules)[..n] == [head] + rules[..n - 1];
    assert ([head] + rules)[n..] == rules[n - 1..];
  }

  lemma HeadsDiffer(b: Base, from: Option<RwInbound>, to: Option<RwInbound>)
    requires to.Some?
    ensures Head(b, from) == Head(b, to) <==> from.Some?
  {
    if from.None? {
      assert Get(Head(b, from), KInboundTag) == Arr(Strs(b.clientFacing + []));
      assert Get(Head(b, to), KInboundTag) == Arr(Strs(b.clientFacing + [RW_TAG]));
      assert |Strs(b.clientFacing + [])| != |Strs(b.clientFacing + [RW_TAG])|;
    }
  }

  lemma BuiltRulesReplaced(b: Base, from: Option<RwInbound>, to: Option<RwInbound>)
    requires BaseOk(b) && to.Some?
    ensures LanRules(BuildRules(b, from), NamesOf(to), MapsHosts(to)) == BuildRules(b, to) <==> from.Some?
  {
    BuiltRulesKept(b, from);
    ReplacedFrom(BuildRules(b, from), Head(b, from), b.rules, NamesOf(to), MapsHosts(to));
    HeadsDiffer(b, from, to);
    var tail := if MapsHosts(to) then InsertBeforeLast(b.rules, LanRule(NamesOf(to))) else b.rules;
    assert BuildRules(b, to) == [Head(b, to)] + tail;
    assert ([Head(b, from)] + tail)[0] == Head(b, from) && ([Head(b, to)] + tail)[0] == Head(b, to);
  }

  lemma {:induction false} FilterDropRefs(rules: seq<Json>)
    ensures Filter(NotLanRule, DropRefs(rules)) == DropRefs(Filter(NotLanRule, rules))
  {
    if rules != [] {
      DropRefKeepsTarget(rules[0]);
      FilterDropRefs(rules[1..]);
      assert DropRefs(rules)[1..] == DropRefs(rules[1..]);
      if NotLanRule(rules[0]) { DropRefsCons(rules[0], Filter(NotLanRule, rules[1..])); }
    }
  }

  /** Editing the config on disk gives the very config a rebuild would write, exactly when the
      file carried the inbound or the store no longer grants one. (From a file built with the
      feature off, the edit adds the inbound but not its name to the loopback rule.) */
  lemma SanitizingIsRebuilding(b: Base, from: Option<RwInbound>, to: Option<RwInbound>, mark: int)
    requires BaseOk(b)
    ensures Shaped(BuildConfig(b, from, mark))
    ensures Reconciled(to, mark, BuildConfig(b, from, mark)) == BuildConfig(b, to, mark)
            <==> (from.Some? || to.None?)
  {
    BuiltConfigGrants(b, from, mark);
    BuildFields(b, from, mark);
    BuildFields(b, to, mark);
    var cfg := BuildConfig(b, from, mark);
    ReconciledFields(to, mark, cfg);
    RebuiltFields(b, from, to, mark, cfg, Reconciled(to, mark, cfg), BuildConfig(b, to, mark));
  }

  lemma RebuiltFields(b: Base, from: Option<RwInbound>, to: Option<RwInbound>, mark: int,
                      cfg: Json, got: Json, want: Json)
    requires BaseOk(b) && Shaped(cfg)
    requires BuiltAs(b, from, mark, cfg) && BuiltAs(b, to, mark, want)
    requires ReconciledAs(to, mark, cfg, got)
    ensures got == want <==> (from.Some? || to.None?)
  {
    RebuiltSides(b, from, to, mark, cfg, got, want);
    RebuiltRouting(b, from, to, mark, cfg, got, want);
    if from.Some? || to.None? { SameFields(got, want); }
  }

  /** All but the routing is always the same. */
  lemma RebuiltSides(b: Base, from: Option<RwInbound>, to: Option<RwInbound>, mark: int,
                     cfg: Json, got: Json, want: Json)
    requires BaseOk(b) && Shaped(cfg)
    requires BuiltAs(b, from, mark, cfg) && BuiltAs(b, to, mark, want)
    requires ReconciledAs(to, mark, cfg, got)
    ensures forall k :: k != KRouting ==> Get(got, k) == Get(want, k)
  {
    assert Emits(to, cfg) == MapsHosts(to);
    InboundsRebuilt(b, from, to);
    OutboundsRebuilt(b, from, to, mark);
    DnsRebuilt(b, from, to);
  }

  lemma InboundsRebuilt(b: Base, from: Option<RwInbound>, to: Option<RwInbound>)
    requires BaseOk(b)
    ensures WithBlock(Filter(NotRw, WithBlock(b.inbounds, from)), to) == WithBlock(b.inbounds, to)
  {
    FilterId(NotRw, b.inbounds);
    InboundsTwice(from, b.inbounds);
  }

  lemma OutboundsRebuilt(b: Base, from: Option<RwInbound>, to: Option<RwInbound>, mark: int)
    requires BaseOk(b)
    ensures var lan := if MapsHosts(from) then [LanOutbound(mark)] else [];
            LanOutbounds(b.outbounds + lan, mark, MapsHosts(to)) ==
            b.outbounds + if MapsHosts(to) then [LanOutbound(mark)] else []
  {
    FilterId(NotLanOutbound, b.outbounds);
    OutboundsTwice(b.outbounds, mark, MapsHosts(from));
  }

  lemma DnsRebuilt(b: Base, from: Option<RwInbound>, to: Option<RwInbound>)
    requires BaseOk(b)
    ensures LanDns(BuildDns(b, from), HostsOf(to), MapsHosts(to)) == BuildDns(b, to)
  {
    assert BuildDns(b, from).fields - {KHosts} == b.dns;
  }

  /** The rules agree exactly when the loopback rule already named the inbound, or must not. */
  lemma RebuiltRouting(b: Base, from: Option<RwInbound>, to: Option<RwInbound>, mark: int,
                       cfg: Json, got: Json, want: Json)
    requires BaseOk(b) && Shaped(cfg)
    requires BuiltAs(b, from, mark, cfg) && BuiltAs(b, to, mark, want)
    requires ReconciledAs(to, mark, cfg, got)
    ensures Get(got, KRouting) == Get(want, KRouting) <==> (from.Some? || to.None?)
  {
    assert Emits(to, cfg) == MapsHosts(to) && HasRules(cfg) && RulesOf(cfg) == BuildRules(b, from);
    RebuiltRules(b, from, to, cfg);
    RoutingReplaced(b.routing, BuildRules(b, from), NewRules(to, cfg), BuildRules(b, to));
  }

  lemma RebuiltRules(b: Base, from: Option<RwInbound>, to: Option<RwInbound>, cfg: Json)
    requires BaseOk(b) && HasRules(cfg)
    requires Emits(to, cfg) == MapsHosts(to) && RulesOf(cfg) == BuildRules(b, from)
    ensures NewRules(to, cfg) == BuildRules(b, to) <==> (from.Some? || to.None?)
  {
    if to.None? {
      BuiltRulesDropped(b, from);
    } else {
      BuiltRulesReplaced(b, from, to);
    }
  }

  lemma RoutingReplaced(routing: map<Key, Json>, was: seq<Json>, now: seq<Json>, built: seq<Json>)
    ensures Obj(routing[KRules := Arr(was)][KRules := Arr(now)]) == Obj(routing[KRules := Arr(built)]) <==> now == built
  {
    var a, b := routing[KRules := Arr(was)][KRules := Arr(now)], routing[KRules := Arr(built)];
    assert a[KRules] == Arr(now) && b[KRules] == Arr(built);
    assert routing[KRules := Arr(was)][KRules := Arr(now)] == routing[KRules := Arr(now)];
  }
}
