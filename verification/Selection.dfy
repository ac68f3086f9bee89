/** Which nodes may take over, and in what order. */
module Selection {
  import opened Basics

  datatype Health = Health(
    realOk: bool, realMs: Option<int>, httpOk: bool, httpMs: Option<int>, tcpOk: bool, tcpMs: Option<int>,
    failCount: nat, checkedAt: Option<real>)

  datatype Node = Node(id: int, stale: bool)

  /** Compared from left to right; a larger key is a healthier node. */
  datatype Key = Key(trusted: int, tier: int, latency: int)

  predicate Less(a: Key, b: Key) {
    || a.trusted < b.trusted
    || (a.trusted == b.trusted && a.tier < b.tier)
    || (a.trusted == b.trusted && a.tier == b.tier && a.latency < b.latency)
  }

  lemma NotLess(a: Key)
    ensures !Less(a, a)
  {
  }

  /** An unknown latency counts as the worst, a measured zero as the best. */
  function Latency(ms: Option<int>): int {
    if ms.Some? then -ms.value else -1000000000
  }

  /** Real beats HTTP beats TCP beats unknown; then the lower latency. A node with as many failures
      of its own as it takes to leave one sorts last. */
  function RankKey(h: Option<Health>, maxFailCount: int): Key {
    var trusted := if h.Some? && h.value.failCount >= maxFailCount then 0 else 1;
    if h.None? then Key(trusted, 0, 0)
    else if h.value.realOk then Key(trusted, 3, Latency(h.value.realMs))
    else if h.value.httpOk then Key(trusted, 2, Latency(h.value.httpMs))
    else if h.value.tcpOk then Key(trusted, 1, Latency(h.value.tcpMs))
    else Key(trusted, 0, 0)
  }

  // ----- the order, in words -----------------------------------------------------------------

  predicate Trusted(h: Option<Health>, maxFailCount: int) {
    h.None? || h.value.failCount < maxFailCount
  }

  predicate RealOk(h: Option<Health>) { h.Some? && h.value.realOk }
  predicate HttpOk(h: Option<Health>) { h.Some? && h.value.httpOk }
  predicate TcpOk(h: Option<Health>) { h.Some? && h.value.tcpOk }

  /** In milliseconds; an unmeasured answer is as slow as can be. */
  predicate Faster(a: Option<int>, b: Option<int>) {
    (if a.Some? then a.value else 1000000000) < (if b.Some? then b.value else 1000000000)
  }

  /** One that is trusted over one that is not; then one that answers a real request, then HTTP, then
      TCP; then the faster answer of that kind. */
  predicate Healthier(a: Option<Health>, b: Option<Health>, maxFailCount: int) {
    if Trusted(a, maxFailCount) != Trusted(b, maxFailCount) then Trusted(a, maxFailCount)
    else if RealOk(a) != RealOk(b) then RealOk(a)
    else if RealOk(a) then Faster(a.value.realMs, b.value.realMs)
    else if HttpOk(a) != HttpOk(b) then HttpOk(a)
    else if HttpOk(a) then Faster(a.value.httpMs, b.value.httpMs)
    else if TcpOk(a) != TcpOk(b) then TcpOk(a)
    else TcpOk(a) && Faster(a.value.tcpMs, b.value.tcpMs)
  }

  /** The keys compare exactly as the words say. */
  lemma KeysCompareHealth(a: Option<Health>, b: Option<Health>, maxFailCount: int)
    ensures Less(RankKey(b, maxFailCount), RankKey(a, maxFailCount)) <==> Healthier(a, b, maxFailCount)
  {
  }

  function HealthOf(health: map<int, Health>, id: int): Option<Health> {
    if id in health then Some(health[id]) else None
  }

  predicate Alive(h: Option<Health>) {
    h.Some? && (h.value.realOk || h.value.httpOk || h.value.tcpOk)
  }

  /** A snapshot of unknown age is not fresh; one from the future has age zero. */
  predicate Fresh(h: Option<Health>, now: real, ttl: real) {
    h.Some? && h.value.checkedAt.Some?
    && (if now - h.value.checkedAt.value > 0.0 then now - h.value.checkedAt.value else 0.0) <= ttl
  }

  /** The terms of one selection. */
  datatype Terms = Terms(
    health: map<int, Health>, excluded: set<int>, requireAlive: bool, now: real, ttl: Option<real>, maxFailCount: int)

  predicate Eligible(t: Terms, n: Node) {
    var h := HealthOf(t.health, n.id);
    !n.stale && n.id !in t.excluded && (t.ttl.Some? ==> Fresh(h, t.now, t.ttl.value)) && (t.requireAlive ==> Alive(h))
  }

  function KeyOf(t: Terms, n: Node): Key {
    RankKey(HealthOf(t.health, n.id), t.maxFailCount)
  }

  function Candidates(t: Terms, nodes: seq<Node>): seq<Node> {
    if nodes == [] then []
    else (if Eligible(t, nodes[0]) then [nodes[0]] else []) + Candidates(t, nodes[1..])
  }

  /** `n`, which came before all of `ns`, placed before the first that is not healthier. */
  function Place(t: Terms, n: Node, ns: seq<Node>): seq<Node> {
    if ns == [] || !Less(KeyOf(t, n), KeyOf(t, ns[0])) then [n] + ns
    else [ns[0]] + Place(t, n, ns[1..])
  }

  function Sorted(t: Terms, ns: seq<Node>): seq<Node> {
    if ns == [] then [] else Place(t, ns[0], Sorted(t, ns[1..]))
  }

  function Ranked(t: Terms, nodes: seq<Node>): seq<Node> {
    Sorted(t, Candidates(t, nodes))
  }

  function Best(t: Terms, nodes: seq<Node>): Option<Node> {
    var r := Ranked(t, nodes);
    if r == [] then None else Some(r[0])
  }

  // ----- a stable descending sort of exactly the eligible nodes ------------------------------

  /** The nodes with key `k`, in the order they stand. */
  function WithKey(t: Terms, ns: seq<Node>, k: Key): seq<Node> {
    if ns == [] then []
    else (if KeyOf(t, ns[0]) == k then [ns[0]] else []) + WithKey(t, ns[1..], k)
  }

  predicate Descending(t: Terms, ns: seq<Node>) {
    forall i, j :: 0 <= i < j < |ns| ==> !Less(KeyOf(t, ns[i]), KeyOf(t, ns[j]))
  }

  lemma {:induction false} CandidatesExactly(t: Terms, nodes: seq<Node>)
    ensures forall n :: n in Candidates(t, nodes) <==> n in nodes && Eligible(t, n)
  {
    if nodes != [] { CandidatesExactly(t, nodes[1..]); }
  }

  lemma {:induction false} PlaceKeeps(t: Terms, n: Node, ns: seq<Node>)
    ensures multiset(Place(t, n, ns)) == multiset([n] + ns)
  {
    if ns != [] && Less(KeyOf(t, n), KeyOf(t, ns[0])) {
      PlaceKeeps(t, n, ns[1..]);
      assert ns == [ns[0]] + ns[1..];
    }
  }

  lemma {:induction false} PlaceDescends(t: Terms, n: Node, ns: seq<Node>)
    requires Descending(t, ns)
    ensures Descending(t, Place(t, n, ns))
  {
    if ns == [] {
    } else if !Less(KeyOf(t, n), KeyOf(t, ns[0])) {
    } else {
      PlaceDescends(t, n, ns[1..]);
      PlaceKeeps(t, n, ns[1..]);
      var placed := Place(t, n, ns[1..]);
      forall m | m in placed ensures !Less(KeyOf(t, ns[0]), KeyOf(t, m)) {
        assert m in multiset(placed);
        assert m in [n] + ns[1..];
      }
    }
  }

  lemma {:induction false} PlaceStable(t: Terms, n: Node, ns: seq<Node>, k: Key)
    ensures WithKey(t, Place(t, n, ns), k) == WithKey(t, [n] + ns, k)
  {
    assert ([n] + ns)[1..] == ns;
    if ns != [] && Less(KeyOf(t, n), KeyOf(t, ns[0])) {
      PlaceStable(t, n, ns[1..], k);
      assert ([n] + ns[1..])[1..] == ns[1..];
      assert ([ns[0]] + Place(t, n, ns[1..]))[1..] == Place(t, n, ns[1..]);
    }
  }

  /** A stable descending sort: the same nodes, healthiest first, and nodes of equal health in the
      order they came. */
  lemma {:induction false} SortedExactly(t: Terms, ns: seq<Node>, k: Key)
    ensures multiset(Sorted(t, ns)) == multiset(ns)
    ensures Descending(t, Sorted(t, ns))
    ensures WithKey(t, Sorted(t, ns), k) == WithKey(t, ns, k)
  {
    if ns != [] {
      var rest := Sorted(t, ns[1..]);
      SortedExactly(t, ns[1..], k);
      PlaceKeeps(t, ns[0], rest);
      PlaceDescends(t, ns[0], rest);
      PlaceStable(t, ns[0], rest, k);
      assert ns == [ns[0]] + ns[1..] && ([ns[0]] + rest)[1..] == rest;
    }
  }

  lemma RankedExactly(t: Terms, nodes: seq<Node>, n: Node)
    ensures n in Ranked(t, nodes) <==> n in nodes && Eligible(t, n)
  {
    var cs := Candidates(t, nodes);
    CandidatesExactly(t, nodes);
    SortedExactly(t, cs, Key(0, 0, 0));
    assert n in Ranked(t, nodes) <==> n in multiset(Ranked(t, nodes));
    assert n in cs <==> n in multiset(cs);
  }

  /** The best node is an eligible one that no eligible one is healthier than, and the first of
      those in node order; there is one exactly when any node is eligible. */
  lemma BestExactly(t: Terms, nodes: seq<Node>)
    ensures Best(t, nodes).None? <==> forall n :: n in nodes ==> !Eligible(t, n)
    ensures Best(t, nodes).Some? ==>
              var b := Best(t, nodes).value;
              && b in nodes && Eligible(t, b)
              && (forall n :: n in nodes && Eligible(t, n) ==>
                    !Healthier(HealthOf(t.health, n.id), HealthOf(t.health, b.id), t.maxFailCount))
              && WithKey(t, Candidates(t, nodes), KeyOf(t, b)) != []
              && WithKey(t, Candidates(t, nodes), KeyOf(t, b))[0] == b
  {
    var cs := Candidates(t, nodes);
    var r := Ranked(t, nodes);
    CandidatesExactly(t, nodes);
    SortedExactly(t, cs, if r == [] then Key(0, 0, 0) else KeyOf(t, r[0]));
    assert forall n :: n in r <==> n in multiset(r);
    assert forall n :: n in cs <==> n in multiset(cs);
    if r == [] {
      assert multiset(cs) == multiset{};
    } else {
      var b := r[0];
      forall n | n in nodes && Eligible(t, n)
        ensures !Healthier(HealthOf(t.health, n.id), HealthOf(t.health, b.id), t.maxFailCount)
      {
        KeysCompareHealth(HealthOf(t.health, n.id), HealthOf(t.health, b.id), t.maxFailCount);
        assert n in cs && n in r;
        assert !Less(KeyOf(t, b), KeyOf(t, n)) by {
          var i :| 0 <= i < |r| && r[i] == n;
          NotLess(KeyOf(t, b));
        }
      }
    }
  }
}
