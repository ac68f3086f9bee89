/** The Linux backend: a sequence of host commands, each of which may fail before or after it took
    effect. */
module HostBackend {
  import opened Basics
  import opened Packets

  function Larger(a: nat, b: nat): nat {
    if a < b then b else a
  }

  /** What a whole operation reported. */
  datatype Report = Ok | Failed | FallbackFailed

  /** The commands that change the kernel, as they are issued. */
  datatype Command =
    | Load(plan: Plan, up: bool) | DropTable(v6: bool)
    | AddRuleTo(slot: Slot) | DropRuleFrom(slot: Slot)
    | SetRouteIn(v6: bool, table: int) | DropRouteFrom(v6: bool, table: int)

  /** What removes one family's policy routing. */
  function Unrouting(v6: bool, mark: int, table: int): seq<Command> {
    [DropRuleFrom(Slot(v6, mark, table)), DropRouteFrom(v6, table)]
  }

  function UnroutingBoth(mark: int, table: int): seq<Command> {
    Unrouting(false, mark, table) + Unrouting(true, mark, table)
  }

  /** What `ip rule` matches on: the family, the mark and the table looked up. */
  datatype Slot = Slot(v6: bool, mark: int, table: int)

  function SlotOf(plan: Plan, v6: bool): Slot {
    Slot(v6, plan.fwmark, plan.table)
  }

  /** The kernel state the panel owns: its two nftables tables, its policy rules (by number: `ip rule
      add` is not idempotent) and its local routes by family and table. */
  class LinuxBackend {
    const settings: (int, int)         // the mark and table this panel is set to
    const smooth: bool                 // no command of this host fails
    var table4: Option<seq<Chain>>
    var table6: Option<seq<Chain>>
    var rules: map<Slot, nat>
    var routes: set<(bool, int)>
    ghost var most: nat                // the most rules any slot has ever had at once
    ghost var issued: seq<Command>     // every command so far, whether or not it took effect

    function Count(s: Slot): nat
      reads `rules
    {
      if s in rules then rules[s] else 0
    }

    /** Kept by every command. */
    ghost predicate Valid()
      reads this
    {
      most <= 1 && forall s :: Count(s) <= most
    }

    /** Whatever an earlier panel left behind, which by this same invariant is at most one rule each. */
    constructor (settings: (int, int), smooth: bool, table4: Option<seq<Chain>>, table6: Option<seq<Chain>>,
                 rules: map<Slot, nat>, routes: set<(bool, int)>)
      requires forall s :: s in rules ==> rules[s] <= 1
      ensures Valid() && this.settings == settings && this.smooth == smooth
    {
      this.settings, this.smooth := settings, smooth;
      this.table4, this.table6, this.rules, this.routes, most, issued := table4, table6, rules, routes, 1, [];
    }

    ghost predicate NoRouting(mark: int, table: int)
      reads this
    {
      && Count(Slot(false, mark, table)) == 0 && Count(Slot(true, mark, table)) == 0
      && (false, table) !in routes && (true, table) !in routes
    }

    ghost predicate Loaded(plan: Plan, up: bool)
      reads `table4, `table6
    {
      table4 == Some(RenderNft(plan, up)) && table6 == RenderNft6(plan, up)
    }

    /** One family's rule and route are there, exactly one rule; or neither is. */
    ghost predicate Routed(plan: Plan, v6: bool, on: bool)
      reads this
    {
      if on then Count(Slot(v6, plan.fwmark, plan.table)) == 1 && (v6, plan.table) in routes
      else Count(Slot(v6, plan.fwmark, plan.table)) == 0 && (v6, plan.table) !in routes
    }

    /** Tproxy for `plan` is in place: ruleset, one fwmark rule and the local route per family. */
    ghost predicate Installed(plan: Plan)
      reads this
    {
      Loaded(plan, true) && Routed(plan, false, true) && Routed(plan, true, plan.ipv6Enabled)
    }

    /** The guard for `plan` is in place, and no policy routing. */
    ghost predicate Guarded(plan: Plan)
      reads this
    {
      Loaded(plan, false) && NoRouting(plan.fwmark, plan.table)
    }

    // ----- commands ------------------------------------------------------------------------

    /** Fails before, or after taking effect, or not at all. */
    method Faults() returns (skipped: bool, ok: bool)
      ensures skipped ==> !ok
      ensures smooth ==> ok
    {
      skipped, ok := false, true;
      if !smooth {
        skipped, ok := *, *;
        if skipped { ok := false; }
      }
    }

    /** `nft -f -`: both tables are replaced in one transaction. */
    method LoadRuleset(plan: Plan, up: bool) returns (ok: bool)
      modifies `table4, `table6, `issued
      ensures issued == old(issued) + [Load(plan, up)] && (smooth ==> ok)
      ensures Loaded(plan, up) || (table4 == old(table4) && table6 == old(table6))
      ensures ok ==> Loaded(plan, up)
    {
      var skipped;
      skipped, ok := Faults();
      issued := issued + [Load(plan, up)];
      if !skipped { table4, table6 := Some(RenderNft(plan, up)), RenderNft6(plan, up); }
    }

    /** `ip [-6] rule del`: removes one matching rule; none to remove is not a failure. */
    method DeleteRule(s: Slot) returns (ok: bool)
      modifies `rules, `issued
      ensures issued == old(issued) + [DropRuleFrom(s)] && (smooth ==> ok)
      ensures forall x :: x != s ==> Count(x) == old(Count(x))
      ensures Count(s) == old(Count(s)) || Count(s) + 1 == old(Count(s))
      ensures ok ==> Count(s) == if old(Count(s)) == 0 then 0 else old(Count(s)) - 1
    {
      var skipped;
      skipped, ok := Faults();
      issued := issued + [DropRuleFrom(s)];
      if !skipped && Count(s) > 0 { rules := rules[s := Count(s) - 1]; }
    }

    /** `ip [-6] rule add`: adds a rule even if there is one. */
    method AddRule(s: Slot) returns (ok: bool)
      modifies `rules, `most, `issued
      ensures issued == old(issued) + [AddRuleTo(s)] && (smooth ==> ok)
      ensures forall x :: x != s ==> Count(x) == old(Count(x))
      ensures Count(s) == old(Count(s)) + 1 || (!ok && Count(s) == old(Count(s)))
      ensures most == Larger(old(most), if Count(s) == old(Count(s)) then 0 else Count(s))
    {
      var skipped;
      skipped, ok := Faults();
      issued := issued + [AddRuleTo(s)];
      if !skipped {
        rules := rules[s := Count(s) + 1];
        most := Larger(most, Count(s));
      }
    }

    /** `ip [-6] route replace local default dev lo table`. */
    method SetRoute(v6: bool, table: int) returns (ok: bool)
      modifies `routes, `issued
      ensures issued == old(issued) + [SetRouteIn(v6, table)] && (smooth ==> ok)
      ensures routes == old(routes) || routes == old(routes) + {(v6, table)}
      ensures ok ==> (v6, table) in routes
    {
      var skipped;
      skipped, ok := Faults();
      issued := issued + [SetRouteIn(v6, table)];
      if !skipped { routes := routes + {(v6, table)}; }
    }

    /** `ip [-6] route del local default dev lo table`. */
    method DeleteRoute(v6: bool, table: int) returns (ok: bool)
      modifies `routes, `issued
      ensures issued == old(issued) + [DropRouteFrom(v6, table)] && (smooth ==> ok)
      ensures routes == old(routes) || routes == old(routes) - {(v6, table)}
      ensures ok ==> (v6, table) !in routes
    {
      var skipped;
      skipped, ok := Faults();
      issued := issued + [DropRouteFrom(v6, table)];
      if !skipped { routes := routes - {(v6, table)}; }
    }

    /** `nft delete table`; an absent table is not a failure. */
    method DeleteTable(v6: bool) returns (ok: bool)
      modifies `table4, `table6, `issued
      ensures issued == old(issued) + [DropTable(v6)] && (smooth ==> ok)
      ensures if v6 then table4 == old(table4) else table6 == old(table6)
      ensures ok ==> (if v6 then table6 else table4) == None
    {
      var skipped;
      skipped, ok := Faults();
      issued := issued + [DropTable(v6)];
      if !skipped { if v6 { table6 := None; } else { table4 := None; } }
    }

    /** A read-only command, a sysctl write or the LAN chain: nothing here changes. */
    method Aside() returns (ok: bool)
      ensures smooth ==> ok
    {
      var skipped;
      skipped, ok := Faults();
    }

    // ----- operations ----------------------------------------------------------------------

    /** Remove one family's rule and route; every command is attempted. */
    method RemoveFamily(v6: bool, mark: int, table: int) returns (ok: bool)
      requires Valid()
      modifies `rules, `routes, `issued
      ensures Valid() && (smooth ==> ok)
      ensures issued == old(issued) + Unrouting(v6, mark, table)
      ensures forall x :: x != Slot(v6, mark, table) ==> Count(x) == old(Count(x))
      ensures routes == old(routes) || routes == old(routes) - {(v6, table)}
      ensures ok ==> Count(Slot(v6, mark, table)) == 0 && (v6, table) !in routes
    {
      var a := DeleteRule(Slot(v6, mark, table));
      var b := DeleteRoute(v6, table);
      ok := a && b;
    }

    method RemovePolicyRouting(mark: int, table: int) returns (ok: bool)
      requires Valid()
      modifies `rules, `routes, `issued
      ensures Valid() && (ok ==> NoRouting(mark, table)) && (smooth ==> ok)
      ensures issued == old(issued) + UnroutingBoth(mark, table)
    {
      var a := RemoveFamily(false, mark, table);
      var b := RemoveFamily(true, mark, table);
      ok := a && b;
    }

    /** The ruleset without tproxy, and no policy routing. */
    method ApplyGuard(plan: Plan) returns (ok: bool)
      requires Valid()
      modifies this
      ensures Valid() && (ok ==> Guarded(plan)) && (smooth ==> ok)
      ensures old(issued) + [Load(plan, false)] <= issued
      // a ruleset that loads is followed by every removal
      ensures ok ==> issued == old(issued) + [Load(plan, false)] + UnroutingBoth(plan.fwmark, plan.table)
    {
      ok := LoadRuleset(plan, false);
      if !ok { return; }
      ok := RemovePolicyRouting(plan.fwmark, plan.table);
      if !ok { return; }
      ok := Aside();                      // read back the tables
    }

    /** One family's rule and route: delete, then add, so that there is exactly one. */
    method InstallFamily(plan: Plan, v6: bool) returns (ok: bool)
      requires Valid()
      modifies `rules, `routes, `most, `issued
      ensures Valid() && (smooth ==> ok) && old(issued) <= issued
      ensures forall x :: x != SlotOf(plan, v6) ==> Count(x) == old(Count(x))
      ensures routes == old(routes) || routes == old(routes) + {(v6, plan.table)}
      ensures ok ==> Routed(plan, v6, true)
    {
      ok := DeleteRule(SlotOf(plan, v6));
      if !ok { return; }
      ok := AddRule(SlotOf(plan, v6));
      if !ok { return; }
      ok := SetRoute(v6, plan.table);
    }

    /** The steps of a tproxy apply, up to the first that fails. */
    method InstallTproxy(plan: Plan) returns (ok: bool)
      requires Valid()
      modifies this
      ensures Valid() && (ok ==> Installed(plan)) && (smooth ==> ok)
      ensures old(issued) + [Load(plan, true)] <= issued
    {
      ok := LoadRuleset(plan, true);
      if !ok { return; }
      ok := InstallFamily(plan, false);
      if !ok { return; }
      if plan.ipv6Enabled { ok := InstallFamily(plan, true); }
      else { ok := RemoveFamily(true, plan.fwmark, plan.table); }
      if !ok { return; }
      ok := Aside();                      // forwarding sysctls
      if !ok { return; }
      ok := Aside();                      // read back tables, rules and routes
    }

    /** Apply tproxy; on any failure fall back to the guard. Whatever happened, unless the fallback
        failed too, the host enforces the plan: with the kill-switch on no packet from a covered
        interface to a destination that is not local is forwarded. */
    method ApplyTproxy(plan: Plan) returns (r: Report)
      requires Valid()
      modifies this
      ensures Valid()
      ensures r == Ok ==> Installed(plan)
      ensures r == Failed ==> Guarded(plan)
      ensures r != FallbackFailed && plan.killSwitch ==> Enforces(plan)
      ensures smooth ==> r == Ok
      // the guard is always tried before the failure of both is reported
      ensures r != Ok ==> exists i :: |old(issued)| < i < |issued| && issued[i] == Load(plan, false)
    {
      var ok := InstallTproxy(plan);
      if ok {
        LoadedEnforces(plan, true);
        return Ok;
      }
      ghost var at := |issued|;
      ok := ApplyGuard(plan);
      assert issued[at] == Load(plan, false);
      if ok { LoadedEnforces(plan, false); }
      r := if ok then Failed else FallbackFailed;
    }

    /** Best effort over both tables and all routing; ok only if everything is gone. */
    method Teardown() returns (ok: bool)
      requires Valid()
      modifies this
      ensures Valid()
      ensures ok ==> NoRouting(settings.0, settings.1) && table4 == None && table6 == None
      ensures smooth ==> ok
      // every command is issued, whatever the others came to
      ensures issued == old(issued) + [DropTable(false), DropTable(true)] + UnroutingBoth(settings.0, settings.1)
    {
      var a := DeleteTable(false);
      var b := DeleteTable(true);
      var c := RemovePolicyRouting(settings.0, settings.1);
      var d := Aside();                   // the LAN chain
      ok := a && b && c && d;
    }

    // ----- what the host then does with packets --------------------------------------------

    ghost predicate Enforces(plan: Plan)
      reads this
    {
      && table4.Some? && table6.Some?
      && (forall p: Packet :: Covered(plan, p.iif) && !IsPrivate4(p.dst) ==> !Forwarded(table4.value, p))
      && (forall p: Packet :: Covered(plan, p.iif) && !IsLocal6(plan, p.dst) ==> !Forwarded(table6.value, p))
    }

    lemma LoadedEnforces(plan: Plan, up: bool)
      requires Loaded(plan, up)
      ensures plan.killSwitch ==> Enforces(plan)
    {
      if plan.killSwitch {
        assert table6 == Some(Chains6(plan, up));
        forall p: Packet | Covered(plan, p.iif)
          ensures !IsPrivate4(p.dst) ==> !Forwarded(table4.value, p)
          ensures !IsLocal6(plan, p.dst) ==> !Forwarded(table6.value, p)
        {
          NeverForwarded(plan, up, p);
        }
      }
    }
  }

  /** Any operations in any order with any plans, from any kernel an earlier panel left, every command
      free to fail either way: there is never, not even between two commands, a second policy rule for
      one family, mark and table. */
  method AnyHostRun(settings: (int, int), smooth: bool, rules: map<Slot, nat>, routes: set<(bool, int)>,
                    plans: seq<Plan>)
    returns (b: LinuxBackend)
    requires forall s :: s in rules ==> rules[s] <= 1
    ensures b.Valid() && b.most <= 1
  {
    b := new LinuxBackend(settings, smooth, None, None, rules, routes);
    for i := 0 to |plans|
      invariant b.Valid() && fresh(b)
    {
      if * { var _ := b.ApplyTproxy(plans[i]); }
      else if * { var _ := b.ApplyGuard(plans[i]); }
      else { var _ := b.Teardown(); }
    }
  }
}
