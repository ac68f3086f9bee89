/** Bringing a config in hand into line with what the store grants, without rebuilding it. */
module Reconcile {
  import opened Basics
  import opened Xray

  predicate NotRw(inbound: Json) { !IsRw(inbound) }
  predicate NotRwTag(tag: Json) { tag != Str(RW_TAG) }
  predicate NotLanRule(rule: Json) { !IsLanRule(rule) }
  predicate NotLanOutbound(o: Json) { !IsLanOutbound(o) }

  // ----- lists -----------------------------------------------------------------------------

  lemma {:induction false} FilterMembers<T>(keep: T -> bool, xs: seq<T>)
    ensures forall x :: x in Filter(keep, xs) ==> x in xs && keep(x)
    ensures forall x :: x in xs && keep(x) ==> x in Filter(keep, xs)
  {
    if xs != [] {
      FilterMembers(keep, xs[1..]);
      assert xs == [xs[0]] + xs[1..];
    }
  }

  lemma {:induction false} FilterId<T>(keep: T -> bool, xs: seq<T>)
    requires forall x :: x in xs ==> keep(x)
    ensures Filter(keep, xs) == xs
  {
    if xs != [] {
      FilterId(keep, xs[1..]);
    }
  }

  lemma {:induction false} FilterConcat<T>(keep: T -> bool, xs: seq<T>, ys: seq<T>)
    ensures Filter(keep, xs + ys) == Filter(keep, xs) + Filter(keep, ys)
  {
    if xs == [] {
      assert xs + ys == ys;
    } else {
      FilterConcat(keep, xs[1..], ys);
      assert (xs + ys)[1..] == xs[1..] + ys;
      var head := if keep(xs[0]) then [xs[0]] else [];
      assert head + (Filter(keep, xs[1..]) + Filter(keep, ys)) == (head + Filter(keep, xs[1..])) + Filter(keep, ys);
    }
  }

  lemma FilterTwice<T>(keep: T -> bool, xs: seq<T>)
    ensures Filter(keep, Filter(keep, xs)) == Filter(keep, xs)
  {
    FilterMembers(keep, xs);
    FilterId(keep, Filter(keep, xs));
  }

  lemma FilterSnoc<T>(keep: T -> bool, xs: seq<T>, k: nat)
    requires k < |xs|
    ensures Filter(keep, xs[..k + 1]) == Filter(keep, xs[..k]) + (if keep(xs[k]) then [xs[k]] else [])
  {
    assert xs[..k + 1] == xs[..k] + [xs[k]];
    FilterConcat(keep, xs[..k], [xs[k]]);
    assert Filter(keep, [xs[k]]) == (if keep(xs[k]) then [xs[k]] else []);
  }

  // ----- the reconciled form ---------------------------------------------------------------

  /** A rule that names the remote-access inbound beside another one stops naming it. One that
      names nothing else is left alone: an empty list would match every inbound. */
  function DropRef(rule: Json): Json {
    var tags := Get(rule, KInboundTag);
    if MentionsRw(rule) && (exists t :: t in tags.items && t != Str(RW_TAG))
    then Obj(rule.fields[KInboundTag := Arr(Filter(NotRwTag, tags.items))])
    else rule
  }

  function DropRefs(rules: seq<Json>): seq<Json> {
    seq(|rules|, i requires 0 <= i < |rules| => DropRef(rules[i]))
  }

  /** The index of the first rule that names the LAN outbound, or the length. */
  function FirstLan(rules: seq<Json>): (k: nat)
    ensures k <= |rules|
    ensures forall i :: 0 <= i < k ==> NotLanRule(rules[i])
    ensures k < |rules| ==> IsLanRule(rules[k])
  {
    if rules == [] then 0 else if IsLanRule(rules[0]) then 0 else 1 + FirstLan(rules[1..])
  }

  function Insert<T>(xs: seq<T>, at: nat, x: T): seq<T>
    requires at <= |xs|
  {
    xs[..at] + [x] + xs[at..]
  }

  /** Where the LAN rule goes: where the first one was, else just before the catch-all. */
  function LanAt(rules: seq<Json>): (at: nat)
    ensures at <= |Filter(NotLanRule, rules)|
  {
    var kept := Filter(NotLanRule, rules);
    if FirstLan(rules) < |rules| then
      KeptBeforeFirstLan(rules);
      FirstLan(rules)
    else if |kept| == 0 then 0 else |kept| - 1
  }

  lemma KeptBeforeFirstLan(rules: seq<Json>)
    ensures FirstLan(rules) <= |Filter(NotLanRule, rules)|
    ensures Filter(NotLanRule, rules) == rules[..FirstLan(rules)] + Filter(NotLanRule, rules[FirstLan(rules)..])
  {
    var k := FirstLan(rules);
    assert rules == rules[..k] + rules[k..];
    FilterConcat(NotLanRule, rules[..k], rules[k..]);
    FilterId(NotLanRule, rules[..k]);
  }

  function LanRules(rules: seq<Json>, names: seq<string>, emit: bool): seq<Json> {
    var kept := Filter(NotLanRule, rules);
    if emit then Insert(kept, LanAt(rules), LanRule(names)) else kept
  }

  function LanDns(dns: Json, hosts: map<string, string>, emit: bool): Json
    requires dns.Obj?
  {
    Obj(if emit then (dns.fields - {KHosts})[KHosts := HostsJson(hosts)] else dns.fields - {KHosts})
  }

  function LanOutbounds(outs: seq<Json>, mark: int, emit: bool): seq<Json> {
    Filter(NotLanOutbound, outs) + (if emit then [LanOutbound(mark)] else [])
  }

  /** Hosts to map, and somewhere safe to say so. */
  predicate Emits(rw: Option<RwInbound>, cfg: Json) {
    MapsHosts(rw) && Get(cfg, KDns).Obj? && Get(cfg, KOutbounds).Arr?
  }

  predicate HasRules(cfg: Json) {
    Get(cfg, KRouting).Obj? && Get(Get(cfg, KRouting), KRules).Arr?
  }

  function RulesOf(cfg: Json): seq<Json>
    requires HasRules(cfg)
  {
    Get(Get(cfg, KRouting), KRules).items
  }

  function RoutingWith(cfg: Json, rules: seq<Json>): Json
    requires HasRules(cfg)
  {
    Obj(Get(cfg, KRouting).fields[KRules := Arr(rules)])
  }

  function WithRules(cfg: Json, rules: seq<Json>): Json
    requires HasRules(cfg)
  {
    Set(cfg, KRouting, RoutingWith(cfg, rules))
  }

  function Set(cfg: Json, key: Key, value: Json): Json
    requires cfg.Obj?
  {
    Obj(cfg.fields[key := value])
  }

  function HostsOf(rw: Option<RwInbound>): map<string, string> {
    if rw.Some? then rw.value.hosts else map[]
  }

  function NamesOf(rw: Option<RwInbound>): seq<string> {
    if rw.Some? then rw.value.hostNames else []
  }

  /** The LAN-by-name fragments in line with the mapped hosts. */
  function LanReconciled(rw: Option<RwInbound>, mark: int, cfg: Json): (r: Json)
    requires cfg.Obj?
    ensures r.Obj?
  {
    var emit := Emits(rw, cfg);
    var outs := Get(cfg, KOutbounds);
    var dns := Get(cfg, KDns);
    var c1 := if outs.Arr? then Set(cfg, KOutbounds, Arr(LanOutbounds(outs.items, mark, emit))) else cfg;
    var c2 := if dns.Obj? then Set(c1, KDns, LanDns(dns, HostsOf(rw), emit)) else c1;
    if HasRules(cfg)
    then Set(c2, KRouting, RoutingWith(cfg, LanRules(RulesOf(cfg), NamesOf(rw), emit)))
    else c2
  }

  /** The config with every fragment the feature owns brought into line. */
  function Reconciled(rw: Option<RwInbound>, mark: int, cfg: Json): (r: Json)
    requires Shaped(cfg)
    ensures r.Obj?
  {
    var c1 := if rw.None? && HasRules(cfg) then WithRules(cfg, DropRefs(RulesOf(cfg))) else cfg;
    LanReconciled(rw, mark, Set(c1, KInbounds, Arr(NewInbounds(rw, cfg))))
  }

  function NewInbounds(rw: Option<RwInbound>, cfg: Json): seq<Json>
    requires Shaped(cfg)
  {
    WithBlock(Filter(NotRw, Get(cfg, KInbounds).items), rw)
  }

  function NewRules(rw: Option<RwInbound>, cfg: Json): seq<Json>
    requires HasRules(cfg)
  {
    LanRules(if rw.None? then DropRefs(RulesOf(cfg)) else RulesOf(cfg), NamesOf(rw), Emits(rw, cfg))
  }

  // ----- the edit, step by step ------------------------------------------------------------

  /** Stop routing rules naming an inbound that is no longer emitted. */
  method DropRoutingRefs(cfg: Json) returns (r: Json)
    ensures r == if HasRules(cfg) then WithRules(cfg, DropRefs(RulesOf(cfg))) else cfg
  {
    if !HasRules(cfg) { return cfg; }
    var rules := RulesOf(cfg);
    var i := 0;
    while i < |rules|
      invariant 0 <= i <= |rules| == |RulesOf(cfg)|
      invariant forall j :: 0 <= j < i ==> rules[j] == DropRef(RulesOf(cfg)[j])
      invariant forall j :: i <= j < |rules| ==> rules[j] == RulesOf(cfg)[j]
    {
      var tags := Get(rules[i], KInboundTag);
      if tags.Arr? && Str(RW_TAG) in tags.items && (exists t :: t in tags.items && t != Str(RW_TAG)) {
        rules := rules[i := Obj(rules[i].fields[KInboundTag := Arr(Filter(NotRwTag, tags.items))])];
      }
      i := i + 1;
    }
    assert rules == DropRefs(RulesOf(cfg));
    r := WithRules(cfg, rules);
  }

  /** Take the LAN rules out, remembering where the first one stood. */
  method TakeLanRules(rules: seq<Json>) returns (keep: seq<Json>, at: Option<nat>)
    ensures keep == Filter(NotLanRule, rules)
    ensures at == if FirstLan(rules) < |rules| then Some(FirstLan(rules)) else None
  {
    keep, at := [], None;
    var i := 0;
    while i < |rules|
      invariant 0 <= i <= |rules|
      invariant keep == Filter(NotLanRule, rules[..i])
      invariant at.Some? ==> at.value == FirstLan(rules) < i
      invariant at.None? ==> i <= FirstLan(rules) && |keep| == i
    {
      FilterSnoc(NotLanRule, rules, i);
      if IsLanRule(rules[i]) {
        at := if at.None? then Some(|keep|) else at;
      } else {
        keep := keep + [rules[i]];
      }
      i := i + 1;
    }
    assert rules[..i] == rules;
  }

  /** Remove the LAN-by-name fragments, then put back the ones the mapped hosts call for. */
  method ReconcileLan(rw: Option<RwInbound>, mark: int, cfg: Json) returns (r: Json)
    requires cfg.Obj?
    ensures r == LanReconciled(rw, mark, cfg)
  {
    var outs := Get(cfg, KOutbounds);
    if outs.Arr? {
      outs := Arr(Filter(NotLanOutbound, outs.items));
    }
    var dns := Get(cfg, KDns);
    if dns.Obj? {
      dns := Obj(dns.fields - {KHosts});
    }
    var rules, at := [], None;
    if HasRules(cfg) {
      rules, at := TakeLanRules(RulesOf(cfg));
      KeptBeforeFirstLan(RulesOf(cfg));
    }
    if MapsHosts(rw) && dns.Obj? && outs.Arr? {
      dns := Obj(dns.fields[KHosts := HostsJson(rw.value.hosts)]);
      outs := Arr(outs.items + [LanOutbound(mark)]);
      if HasRules(cfg) {
        var where := if at.Some? then at.value else if |rules| == 0 then 0 else |rules| - 1;
        rules := Insert(rules, where, LanRule(rw.value.hostNames));
      }
    } else {
      assert outs.Arr? ==> outs.items == outs.items + [];
    }
    r := cfg;
    if outs.Arr? { r := Set(r, KOutbounds, outs); }
    if dns.Obj? { r := Set(r, KDns, dns); }
    if HasRules(cfg) { r := Set(r, KRouting, RoutingWith(cfg, rules)); }
  }

  /** The edit the panel makes on a config in hand, against its one-step description. */
  method ReconcileConfig(rw: Option<RwInbound>, mark: int, cfg: Json) returns (r: Json)
    requires Shaped(cfg)
    ensures r == Reconciled(rw, mark, cfg)
  {
    var kept := Filter(NotRw, Get(cfg, KInbounds).items);
    var c := cfg;
    if rw.Some? {
      kept := kept + [RwBlock(rw.value)];
    } else {
      c := DropRoutingRefs(cfg);
      assert kept == kept + [];
    }
    r := ReconcileLan(rw, mark, Set(c, KInbounds, Arr(kept)));
  }

  // ----- reading a reconciled config -------------------------------------------------------

  lemma LanFields(rw: Option<RwInbound>, mark: int, cfg: Json)
    requires cfg.Obj?
    ensures var r := LanReconciled(rw, mark, cfg);
            var emit := Emits(rw, cfg);
            && Get(r, KOutbounds) == (if Get(cfg, KOutbounds).Arr?
                                      then Arr(LanOutbounds(Get(cfg, KOutbounds).items, mark, emit))
                                      else Get(cfg, KOutbounds))
            && Get(r, KDns) == (if Get(cfg, KDns).Obj? then LanDns(Get(cfg, KDns), HostsOf(rw), emit)
                                else Get(cfg, KDns))
            && Get(r, KRouting) == (if HasRules(cfg)
                                    then RoutingWith(cfg, LanRules(RulesOf(cfg), NamesOf(rw), emit))
                                    else Get(cfg, KRouting))
            && (forall k :: k !in {KOutbounds, KDns, KRouting} ==> Get(r, k) == Get(cfg, k))
            && r.fields.Keys == cfg.fields.Keys
  {
  }

  /** `r` holds, key by key, what reconciling `cfg` gives. */
  ghost predicate ReconciledAs(rw: Option<RwInbound>, mark: int, cfg: Json, r: Json)
    requires Shaped(cfg)
  {
    var emit := Emits(rw, cfg);
    && r.Obj?
    && Get(r, KInbounds) == Arr(NewInbounds(rw, cfg))
    && Get(r, KOutbounds) == (if Get(cfg, KOutbounds).Arr?
                              then Arr(LanOutbounds(Get(cfg, KOutbounds).items, mark, emit))
                              else Get(cfg, KOutbounds))
    && Get(r, KDns) == (if Get(cfg, KDns).Obj? then LanDns(Get(cfg, KDns), HostsOf(rw), emit)
                        else Get(cfg, KDns))
    && Get(r, KRouting) == (if HasRules(cfg) then RoutingWith(cfg, NewRules(rw, cfg)) else Get(cfg, KRouting))
    && (forall k :: k !in {KInbounds, KOutbounds, KDns, KRouting} ==> Get(r, k) == Get(cfg, k))
    && r.fields.Keys == cfg.fields.Keys
  }

  lemma ReconciledFields(rw: Option<RwInbound>, mark: int, cfg: Json)
    requires Shaped(cfg)
    ensures ReconciledAs(rw, mark, cfg, Reconciled(rw, mark, cfg))
  {
    var c1 := if rw.None? && HasRules(cfg) then WithRules(cfg, DropRefs(RulesOf(cfg))) else cfg;
    var c2 := Set(c1, KInbounds, Arr(NewInbounds(rw, cfg)));
    assert forall k :: k !in {KInbounds, KRouting} ==> Get(c2, k) == Get(cfg, k);
    LanFields(rw, mark, c2);
    if HasRules(cfg) {
      assert RulesOf(c2) == if rw.None? then DropRefs(RulesOf(cfg)) else RulesOf(cfg);
      assert RoutingWith(c2, NewRules(rw, cfg)) == RoutingWith(cfg, NewRules(rw, cfg)) by {
        assert Get(c2, KRouting).fields[KRules := Arr(NewRules(rw, cfg))]
            == Get(cfg, KRouting).fields[KRules := Arr(NewRules(rw, cfg))];
      }
    }
  }

  lemma SameFields(a: Json, b: Json)
    requires a.Obj? && b.Obj? && a.fields.Keys == b.fields.Keys
    requires forall k :: Get(a, k) == Get(b, k)
    ensures a == b
  {
    forall k | k in a.fields ensures a.fields[k] == b.fields[k] {
      assert Get(a, k) == a.fields[k] && Get(b, k) == b.fields[k];
    }
    assert a.fields == b.fields;
  }
}
