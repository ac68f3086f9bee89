/** Automatic failover: the decision, and the evaluation that preflights candidates and switches. */
module Failover {
  import opened Basics
  import opened Selection

  const DEMOTION_GRACE := 600.0
  const MAX_PREFLIGHTS := 5

  /** The settings and freshness budgets one evaluation reads. */
  datatype Policy = Policy(
    enabled: bool, hysteresis: int, cooldown: real, activeTtl: real, standbyTtl: Option<real>)

  /** The node the last failover left, while its window holds. */
  function RecentlyDemoted(demoted: Option<int>, lastAt: Option<real>, now: real): set<int> {
    if demoted.Some? && lastAt.Some? && now - lastAt.value < DEMOTION_GRACE then {demoted.value} else {}
  }

  function TermsOf(p: Policy, health: map<int, Health>, active: int, demoted: set<int>, now: real): Terms {
    Terms(health, {active} + demoted, p.standbyTtl.Some?, now, p.standbyTtl, p.hysteresis)
  }

  /** The active node has failed often enough, by fresh evidence, and the cooldown is over. */
  predicate Due(p: Policy, health: map<int, Health>, active: Option<int>, now: real, lastAt: Option<real>) {
    && active.Some? && active.value in health
    && health[active.value].failCount >= p.hysteresis
    && Fresh(Some(health[active.value]), now, p.activeTtl)
    && (lastAt.Some? ==> now - lastAt.value >= p.cooldown)
  }

  /** Due, spelled out: a count that has reached the hysteresis, on evidence no older than the budget,
      and no switch within the cooldown. */
  lemma DueExactly(p: Policy, health: map<int, Health>, active: Option<int>, now: real, lastAt: Option<real>)
    ensures Due(p, health, active, now, lastAt) <==>
            && active.Some? && active.value in health && health[active.value].failCount >= p.hysteresis
            && Recent(health[active.value].checkedAt, now, p.activeTtl)
            && !(lastAt.Some? && now - lastAt.value < p.cooldown)
  {
  }

  predicate Recent(checkedAt: Option<real>, now: real, ttl: real) {
    checkedAt.Some? && now - checkedAt.value <= ttl && 0.0 <= ttl
  }

  /** May be moved to: another node than the active and the demoted one, in the feed, and, where the
      sweep feeds it, seen alive within the budget. */
  predicate MayTakeOver(p: Policy, health: map<int, Health>, n: Node, active: int, demoted: set<int>, now: real) {
    && n.id != active && n.id !in demoted && !n.stale
    && (p.standbyTtl.Some? ==>
          && n.id in health && Recent(health[n.id].checkedAt, now, p.standbyTtl.value)
          && (health[n.id].realOk || health[n.id].httpOk || health[n.id].tcpOk))
  }

  function Decide(p: Policy, health: map<int, Health>, nodes: seq<Node>, active: Option<int>, now: real,
                  lastAt: Option<real>, demoted: set<int>): Option<int>
  {
    if !Due(p, health, active, now, lastAt) then None
    else
      var best := Best(TermsOf(p, health, active.value, demoted, now), nodes);
      if best.Some? then Some(best.value.id) else None
  }

  /** The candidates an evaluation goes through, in order. */
  function Shortlist(p: Policy, health: map<int, Health>, nodes: seq<Node>, active: int, demoted: set<int>,
                     now: real): seq<Node>
  {
    var r := Ranked(TermsOf(p, health, active, demoted, now), nodes);
    if |r| <= MAX_PREFLIGHTS then r else r[..MAX_PREFLIGHTS]
  }

  /** The decision is the head of the list that is gone through, and there is a decision exactly when
      a switch is due and that list is not empty. */
  lemma DecisionHeadsTheShortlist(p: Policy, health: map<int, Health>, nodes: seq<Node>, active: Option<int>, now: real,
                                  lastAt: Option<real>, demoted: set<int>)
    ensures var d := Decide(p, health, nodes, active, now, lastAt, demoted);
            && (d.Some? <==> Due(p, health, active, now, lastAt)
                             && Shortlist(p, health, nodes, active.value, demoted, now) != [])
            && (d.Some? ==> d.value == Shortlist(p, health, nodes, active.value, demoted, now)[0].id)
  {
  }

  lemma EligibleMeans(p: Policy, health: map<int, Health>, n: Node, active: int, demoted: set<int>, now: real)
    ensures Eligible(TermsOf(p, health, active, demoted, now), n) <==>
            MayTakeOver(p, health, n, active, demoted, now)
  {
  }

  /** On the list is nothing but what may be moved to; and all of that, if the list is not full. */
  lemma ShortlistEligible(p: Policy, health: map<int, Health>, nodes: seq<Node>, active: int, demoted: set<int>,
                          now: real)
    ensures forall n :: n in Shortlist(p, health, nodes, active, demoted, now) ==>
              n in nodes && MayTakeOver(p, health, n, active, demoted, now)
    ensures |Shortlist(p, health, nodes, active, demoted, now)| <= 5
    ensures |Shortlist(p, health, nodes, active, demoted, now)| < 5 ==>
              forall n :: n in nodes && MayTakeOver(p, health, n, active, demoted, now) ==>
                n in Shortlist(p, health, nodes, active, demoted, now)
  {
    var t := TermsOf(p, health, active, demoted, now);
    forall n ensures n in Ranked(t, nodes) <==> n in nodes && MayTakeOver(p, health, n, active, demoted, now) {
      RankedExactly(t, nodes, n);
      EligibleMeans(p, health, n, active, demoted, now);
    }
  }

  // ----- the failure count -----------------------------------------------------------------

  /** Results of the real-request probe and of the direct sweep, as they arrive. */
  datatype Check =
    | RealCheck(ok: bool, ms: Option<int>, at: real)
    | DirectCheck(tcpOk: bool, tcpMs: Option<int>, httpOk: bool, httpMs: Option<int>, stamp: Option<real>)

  predicate Late(h: Health, at: real) {
    h.checkedAt.Some? && at < h.checkedAt.value
  }

  /** A late real result changes nothing; a direct one never touches the failure count. */
  function Update(h: Health, c: Check): Health {
    match c
    case RealCheck(ok, ms, at) =>
      if Late(h, at) then h
      else h.(realOk := ok, realMs := ms, checkedAt := Some(at), failCount := if ok then 0 else h.failCount + 1)
    case DirectCheck(tcp, tcpMs, http, httpMs, stamp) =>
      h.(tcpOk := tcp, tcpMs := tcpMs, httpOk := http, httpMs := httpMs,
         checkedAt := if stamp.None? || Late(h, stamp.value) then h.checkedAt else stamp)
  }

  function After(h: Health, checks: seq<Check>): Health {
    if checks == [] then h else Update(After(h, checks[..|checks| - 1]), checks[|checks| - 1])
  }

  /** The real results that were not late, in order. */
  function Accepted(h: Health, checks: seq<Check>): seq<bool> {
    if checks == [] then []
    else
      var init := checks[..|checks| - 1];
      var c := checks[|checks| - 1];
      if c.RealCheck? && !Late(After(h, init), c.at) then Accepted(h, init) + [c.ok] else Accepted(h, init)
  }

  /** Failures at the end of `results`, on top of `before` if none of them succeeded. */
  function TrailingFailures(before: nat, results: seq<bool>): nat {
    if results == [] then before
    else if results[|results| - 1] then 0
    else TrailingFailures(before, results[..|results| - 1]) + 1
  }

  /** The stored count is the number of consecutive failures since the last success. */
  lemma {:induction false} FailCountIsTrailingFailures(h: Health, checks: seq<Check>)
    ensures After(h, checks).failCount == TrailingFailures(h.failCount, Accepted(h, checks))
  {
    if checks != [] {
      var init := checks[..|checks| - 1];
      var c := checks[|checks| - 1];
      FailCountIsTrailingFailures(h, init);
      if c.RealCheck? && !Late(After(h, init), c.at) {
        var results := Accepted(h, init) + [c.ok];
        assert results[..|results| - 1] == Accepted(h, init);
      }
    }
  }

  // ----- evaluations -----------------------------------------------------------------------

  /** A switch that was made: when, from the evaluated node to which, the active node at the moment
      of the apply, and the cooldown in force. */
  datatype Switch = Switch(at: real, from: int, to: int, seen: Option<int>, cooldown: real)

  /** A preflight result written to a node's health: for which evaluated node, and the active one then. */
  datatype Written = Written(id: int, from: int, seen: Option<int>)

  /** The cooldown has passed since the previous switch, and the node it left is returned to only
      after the grace window. */
  ghost predicate Spaced(switches: seq<Switch>) {
    forall i :: 0 < i < |switches| ==>
      && switches[i].at - switches[i - 1].at >= switches[i].cooldown
      && (switches[i].to == switches[i - 1].from ==> switches[i].at - switches[i - 1].at >= 600.0)
  }

  /** What a preflight of a node comes to. */
  datatype Preflight = CouldNotRun | Answered(ok: bool, ms: Option<int>)

  predicate Passes(f: Preflight) {
    f.Answered? && f.ok
  }

  /** The first of `ns` whose preflight passes. */
  function FirstPassing(ns: seq<Node>, probe: int -> Preflight): Option<int> {
    if ns == [] then None else if Passes(probe(ns[0].id)) then Some(ns[0].id) else FirstPassing(ns[1..], probe)
  }

  lemma {:induction false} NonePassed(ns: seq<Node>, i: nat, probe: int -> Preflight)
    requires i <= |ns| && forall k :: 0 <= k < i ==> !Passes(probe(ns[k].id))
    ensures FirstPassing(ns, probe) == FirstPassing(ns[i..], probe)
  {
    if i > 0 {
      assert ns[1..][i - 1..] == ns[i..];
      NonePassed(ns[1..], i - 1, probe);
    } else {
      assert ns[0..] == ns;
    }
  }

  /** The stored health of a node, or what a first check starts from. */
  function Known(health: map<int, Health>, id: int): Health {
    if id in health then health[id] else Health(false, None, false, None, false, None, 0, None)
  }

  class Evaluator {
    const undisturbed: bool        // nobody else changes anything, and no apply fails
    var active: Option<int>
    var lastAt: Option<real>
    var demoted: Option<int>
    var health: map<int, Health>
    ghost var switches: seq<Switch>
    ghost var writes: seq<Written>

    ghost predicate Valid()
      reads this
    {
      && Spaced(switches)
      && (forall i :: 0 <= i < |switches| ==> switches[i].seen == Some(switches[i].from))
      && (forall i :: 0 <= i < |writes| ==> writes[i].seen == Some(writes[i].from))
      && (switches == [] ==> lastAt == None && demoted == None)
      && (switches != [] ==>
            lastAt == Some(switches[|switches| - 1].at) && demoted == Some(switches[|switches| - 1].from))
    }

    constructor (active: Option<int>, health: map<int, Health>, undisturbed: bool)
      ensures Valid() && switches == [] && writes == [] && this.undisturbed == undisturbed
    {
      this.undisturbed := undisturbed;
      this.active, this.health := active, health;
      lastAt, demoted, switches, writes := None, None, [], [];
    }

    /** While the apply lock is free anyone may change the active node, and the sweep the health. */
    method Elsewhere()
      requires Valid()
      modifies `active, `health
      ensures Valid()
      ensures undisturbed ==> active == old(active) && health == old(health)
    {
      if !undisturbed {
        if * {
          active := *;
          health := *;
        }
      }
    }

    /** The apply, under the lock: on success `node` is active. It reports what was active when it
        ran. */
    method Apply(node: int) returns (ok: bool, ghost seen: Option<int>)
      modifies `active
      ensures seen == old(active) && active == if ok then Some(node) else old(active)
      ensures undisturbed ==> ok
    {
      seen := active;
      ok := true;
      if !undisturbed { ok := *; }
      if ok { active := Some(node); }
    }

    /** Write a preflight result to the node's health. */
    method RecordPreflight(id: int, ghost from: int, ok: bool, ms: Option<int>, now: real)
      modifies `health, `writes
      ensures writes == old(writes) + [Written(id, from, active)]
      ensures health == old(health)[id := Update(Known(old(health), id), RealCheck(ok, ms, now))]
    {
      health := health[id := Update(Known(health, id), RealCheck(ok, ms, now))];
      writes := writes + [Written(id, from, active)];
    }

    /** Remember when the switch was made and what it left. */
    method RecordSwitch(from: int, ghost to: int, ghost seen: Option<int>, now: real, ghost cooldown: real)
      requires Valid() && seen == Some(from)
      requires lastAt.Some? ==> now - lastAt.value >= cooldown
      requires to !in RecentlyDemoted(demoted, lastAt, now)
      modifies `lastAt, `demoted, `switches
      ensures Valid() && switches == old(switches) + [Switch(now, from, to, seen, cooldown)]
    {
      lastAt, demoted := Some(now), Some(from);
      switches := switches + [Switch(now, from, to, seen, cooldown)];
    }

    /** One candidate: preflight without the lock, then, if the active node is still `from`, record
        the result and apply. Some(true) is a switch; None gives up the evaluation. */
    method Try(node: Node, probe: Preflight, from: int, now: real, ghost cooldown: real) returns (r: Option<bool>)
      requires Valid()
      requires lastAt.Some? ==> now - lastAt.value >= cooldown
      requires node.id !in RecentlyDemoted(demoted, lastAt, now)
      modifies this
      ensures Valid()
      ensures r == Some(true) ==>
                && switches == old(switches) + [Switch(now, from, node.id, Some(from), cooldown)]
                && active == Some(node.id)
      ensures r != Some(true) ==> switches == old(switches) && lastAt == old(lastAt) && demoted == old(demoted)
      // an active node that is not the evaluated one ends it, with nothing written
      ensures old(active) != Some(from) ==> r == None && active == old(active) && health == old(health)
      ensures r == None ==> active != Some(from) && writes == old(writes)
      // only a node that answered a real request is switched to; what it answered is recorded
      ensures r == Some(true) ==> Passes(probe)
      ensures r.Some? ==>
                writes == if probe.Answered? then old(writes) + [Written(node.id, from, Some(from))] else old(writes)
      ensures r.Some? && probe.Answered? && undisturbed ==>
                health == old(health)[node.id := Update(Known(old(health), node.id),
                                                        RealCheck(probe.ok, probe.ms, now))]
      ensures undisturbed && old(active) == Some(from) ==> r == Some(Passes(probe))
      ensures undisturbed && r == Some(false) ==> active == old(active)
    {
      if active != Some(from) { return None; }
      Elsewhere();                                   // while the preflight runs
      if probe.CouldNotRun? { return Some(false); }
      if active != Some(from) { return None; }
      RecordPreflight(node.id, from, probe.ok, probe.ms, now);
      if !probe.ok { return Some(false); }
      ghost var seen;
      var ok;
      ok, seen := Apply(node.id);
      if !ok { return Some(false); }
      RecordSwitch(from, node.id, seen, now, cooldown);
      return Some(true);
    }

    /** The candidates in order, up to the first that is switched to. */
    method TryAll(candidates: seq<Node>, probe: int -> Preflight, from: int, now: real, ghost cooldown: real)
      returns (to: Option<int>)
      requires Valid()
      requires lastAt.Some? ==> now - lastAt.value >= cooldown
      requires forall n :: n in candidates ==> n.id !in RecentlyDemoted(demoted, lastAt, now)
      modifies this
      ensures Valid()
      ensures to.None? ==> switches == old(switches) && lastAt == old(lastAt)
      ensures to.Some? ==>
                && active == to && Passes(probe(to.value))
                && switches == old(switches) + [Switch(now, from, to.value, Some(from), cooldown)]
                && (exists n :: n in candidates && n.id == to.value)
      ensures undisturbed && old(active) == Some(from) ==> to == FirstPassing(candidates, probe)
    {
      for i := 0 to |candidates|
        invariant Valid()
        invariant switches == old(switches) && lastAt == old(lastAt) && demoted == old(demoted)
        invariant undisturbed ==> active == old(active)
        invariant undisturbed && old(active) == Some(from) ==>
                    forall k :: 0 <= k < i ==> !Passes(probe(candidates[k].id))
      {
        assert candidates[i] in candidates;
        if undisturbed && old(active) == Some(from) { NonePassed(candidates, i, probe); }
        Elsewhere();                                 // the lock is free between two candidates
        var r := Try(candidates[i], probe(candidates[i].id), from, now, cooldown);
        if r.None? { return None; }
        if r.value { return Some(candidates[i].id); }
      }
      if undisturbed && old(active) == Some(from) { NonePassed(candidates, |candidates|, probe); }
      return None;
    }

    /** One evaluation at `now`, whatever the clock did since the last. */
    method Run(p: Policy, nodes: seq<Node>, probe: int -> Preflight, now: real) returns (to: Option<int>)
      requires Valid()
      modifies this
      ensures Valid()
      ensures to.None? ==> switches == old(switches) && lastAt == old(lastAt)
      ensures to.Some? ==>
                && active == to
                && old(active).Some?
                && switches == old(switches) + [Switch(now, old(active).value, to.value, old(active), p.cooldown)]
                && p.enabled && Due(p, old(health), old(active), now, old(lastAt))
                && Passes(probe(to.value))
                && (exists n :: n in nodes && n.id == to.value
                                && MayTakeOver(p, old(health), n, old(active).value,
                                               RecentlyDemoted(old(demoted), old(lastAt), now), now))
      // with nobody in between, the first on the list that passes is switched to whenever one is due
      ensures undisturbed ==>
                to == if p.enabled && Due(p, old(health), old(active), now, old(lastAt))
                      then FirstPassing(Shortlist(p, old(health), nodes, old(active).value,
                                                  RecentlyDemoted(old(demoted), old(lastAt), now), now), probe)
                      else None
    {
      if !p.enabled { return None; }
      var excluded := RecentlyDemoted(demoted, lastAt, now);
      var candidate := Decide(p, health, nodes, active, now, lastAt, excluded);
      DecisionHeadsTheShortlist(p, health, nodes, active, now, lastAt, excluded);
      if candidate.None? { return None; }
      var from := active.value;
      var candidates := Shortlist(p, health, nodes, from, excluded, now);
      ShortlistEligible(p, health, nodes, from, excluded, now);
      to := TryAll(candidates, probe, from, now, p.cooldown);
    }
  }

  /** Any number of evaluations at any times, forwards or backwards, with other changes of the active
      node in between: switches are spaced, each was made while the evaluated node was the active one,
      and so was every preflight result written. */
  method AnyRun(undisturbed: bool, evaluations: seq<(Policy, seq<Node>, int -> Preflight, real)>)
    returns (e: Evaluator)
    ensures Spaced(e.switches)
    ensures forall i :: 0 <= i < |e.switches| ==> e.switches[i].seen == Some(e.switches[i].from)
    ensures forall i :: 0 <= i < |e.writes| ==> e.writes[i].seen == Some(e.writes[i].from)
  {
    e := new Evaluator(None, map[], undisturbed);
    for i := 0 to |evaluations|
      invariant e.Valid() && fresh(e)
    {
      e.Elsewhere();
      var (p, nodes, probe, now) := evaluations[i];
      var _ := e.Run(p, nodes, probe, now);
    }
  }
}
