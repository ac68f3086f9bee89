/** Whole runs: every operation in any order, with any step failing and a crash anywhere. */
module Runs {
  import opened Basics
  import opened Xray
  import opened Gateway
  import opened Restore

  /** One operation, or a restart of the panel, chosen freely. */
  method AnyStep(r: Restorer)
    requires r.Valid()
    modifies r, r.gw
    ensures r.Valid() && r.gw.Extends(old(r.gw.trail), old(r.gw.spawns))
  {
    var g := r.gw;
    var rw: Option<RwInbound> := *;
    var nodes: map<int, Base> := *;
    if exists id :: id in nodes && !NodeOk(nodes, id) { nodes := map[]; }
    var node: int, flag: bool := *, *;
    if * { var _ := g.SaveNarrower(rw); }
    else if * { var _ := g.SaveWider(rw); }
    else if * { var _ := g.Revoke(); }
    else if * { var _ := g.ReconcilePending(flag); }
    else if * { var _ := g.Rollback(); }
    else if * { var _ := g.XrayStart(); }
    else if * { var _ := g.XrayStop(); }
    else if * { var _ := g.Disconnect(node); }
    else if * { var _ := g.Watchdog(); }
    else if * { var _ := g.ReloadIfRunning(); }
    else if * { var _, _ := g.Reapply(flag); }
    else if * { if node in g.store.nodes { var _, _ := g.ApplyNode(node, flag); } }
    else if * { g.EditNodes(nodes); }
    else if * { g.Restart(); }
    else if * { var _ := r.RestoreBackup(None); }
    else { var _ := r.RestoreBackup(Some(Document(rw, nodes, flag))); }
  }

  /** Whatever happens. A process that still serves a grant a committed narrowing took away, and no
      later save, committed or still in flight, offers, has the durable marker, unless that very grant was offered by a
      save that was aborted, or was in a file the start guard could not read, since the marker was last
      set. And every config an xray was ever started on grants no more than the store did at that
      moment, unless the guard could not read it. */
  method AnyRun(mark: int, nodes: map<int, Base>, steps: nat) returns (g: Gateway)
    requires forall id :: id in nodes ==> NodeOk(nodes, id)
    ensures forall i, t :: 0 <= i < |g.trail| && t in Served(g.trail[i].proc) && t in g.trail[i].revoked ==>
              g.trail[i].store.pending || t in g.trail[i].reoffered || t in g.trail[i].unread
    ensures forall i :: 0 <= i < |g.spawns| ==>
              FileGrants(g.spawns[i].loaded) <= Granted(g.spawns[i].rw) || !g.spawns[i].read
  {
    g := new Gateway(mark, false, nodes);
    var r := new Restorer(g);
    for i := 0 to steps
      invariant r.gw == g && r.Valid() && fresh(r) && fresh(g)
    {
      AnyStep(r);
    }
    forall i, t | 0 <= i < |g.trail| && t in Served(g.trail[i].proc) && t in g.trail[i].revoked
      ensures g.trail[i].store.pending || t in g.trail[i].reoffered || t in g.trail[i].unread
    {
      assert Safe(g.trail[i]);
      assert t in Served(g.trail[i].proc) * g.trail[i].revoked;
    }
  }

  // ----- both exceptions are real, and exact -------------------------------------------------

  /** A save whose apply succeeds and whose commit then raises. From any state, the marker invariant
      survives it if and only if `Reoffers` names nothing: no revoked grant is offered, or the marker
      is set already, or there is no node to apply. */
  method AbortedSave(g: Gateway, rw: Option<RwInbound>)
    requires g.Valid() && g.smooth && (Calm(g.View()) || g.store.pending)
    modifies g
    ensures g.Valid() && g.store == old(g.store) && g.revoked == old(g.revoked)
    ensures Calm(g.View()) || g.store.pending <==> Reoffers(old(g.store), old(g.revoked), rw) == {}
  {
    var snapshot := g.store;
    ghost var taken := g.revoked;
    var _ := g.Offer(rw);
    g.AbortSave(rw, snapshot, taken);
  }

  /** A start whose guard could not read the file, or could. From any state with xray down and a file
      it can load, the start serves more than the store grants if and only if the guard could not read
      a file that grants more. */
  method GuardedStart(g: Gateway, read: bool)
    requires g.Valid() && g.smooth && g.proc == Down && Loadable(g.disk.live)
    modifies g
    ensures g.Valid() && g.store == old(g.store)
    ensures !(Served(g.proc) <= Granted(g.store.rw)) <==> !read && !old(Within(g.store.rw, g.disk.live))
    ensures !read ==> g.spawns == old(g.spawns) + [Spawned(old(g.disk).live, g.store.rw, false)]
  {
    var may := g.Admit(read);
    if may == Lives(true) { g.Spawn(read, false); }
  }

  /** Any node, any inbound: offered and connected. */
  method Connected(mark: int, node: Base, rw: RwInbound) returns (g: Gateway)
    requires BaseOk(node)
    ensures fresh(g) && g.Valid() && g.smooth && HasTarget(g.store) && !g.store.pending && g.revoked == {}
    ensures g.store.rw == Some(rw) && g.proc == Up(g.disk.live) && g.BuiltFor(node.node)
    ensures g.store.active == Some(node.node) && g.store.intent == None
  {
    g := new Gateway(mark, true, map[node.node := node]);
    var _ := g.SaveWider(Some(rw));
    ghost var at;
    var o;
    o, at := g.ApplyNode(node.node, false);
  }

  /** Then switched off. */
  method SwitchedOff(mark: int, node: Base, rw: RwInbound) returns (g: Gateway)
    requires BaseOk(node)
    ensures fresh(g) && g.Valid() && g.smooth && HasTarget(g.store) && !g.store.pending
    ensures g.store.rw == None && g.revoked == Granted(Some(rw)) && Calm(g.View())
  {
    g := Connected(mark, node, rw);
    var _ := g.SaveNarrower(None);
  }

  /** Then offered again by a save that is aborted: it ends with the process serving what was revoked, and no marker. */
  method RevokedServedWithoutMarker(mark: int, node: Base, rw: RwInbound) returns (g: Gateway)
    requires BaseOk(node)
    ensures g.Valid() && !g.store.pending && !Calm(g.View()) && g.store.rw == None
  {
    g := SwitchedOff(mark, node, rw);
    AbortedSave(g, Some(rw));
    BlockGrantsExactly(rw);
    assert Token(Port, Num(rw.port)) in Granted(Some(rw));
  }

  /** Disconnected, then switched off by a save that crashed right after its commit: no node to apply,
      and a file that still grants the inbound. */
  method CrashedOff(mark: int, node: Base, rw: RwInbound) returns (g: Gateway)
    requires BaseOk(node)
    ensures fresh(g) && g.Valid() && g.smooth && g.proc == Down && Loadable(g.disk.live)
    ensures !HasTarget(g.store) && g.store.rw == None && FileGrants(g.disk.live) == Granted(Some(rw))
  {
    g := Connected(mark, node, rw);
    var _ := g.Disconnect(node.node);
    g.CommitNarrower(None);
    g.Restart();
  }

  /** The operator's start then finds no node to apply and goes on to the file, which neither its own
      guard nor the supervisor's can read: xray serves what the store no longer grants. */
  method ExcessSpawned(mark: int, node: Base, rw: RwInbound) returns (g: Gateway)
    requires BaseOk(node)
    ensures g.Valid() && g.spawns != []
    ensures var last := g.spawns[|g.spawns| - 1]; !Within(last.rw, last.loaded) && !last.read
  {
    g := CrashedOff(mark, node, rw);
    ghost var at;
    var none;
    none, at := g.Reapply(false);
    assert none == Lives(None);
    var _ := g.Admit(false);
    BlockGrantsExactly(rw);
    assert Token(Port, Num(rw.port)) in FileGrants(g.disk.live);
    GuardedStart(g, false);
  }

  // ----- retries, boots ----------------------------------------------------------------------

  /** Any number of scheduled retries, the child free to exit between any two of their steps: none
      ever starts a process, and while the live file equals its reconciled form they leave a
      rollback target within the store's grants alone. */
  method Retries(g: Gateway, faultless: bool, n: nat)
    requires g.Valid()
    modifies g
    ensures g.Valid() && g.Extends(old(g.trail), old(g.spawns))
    ensures g.coldStarts == old(g.coldStarts)
    ensures old(g.proc) == Down ==> g.proc == Down
    ensures old(g.store).pending && !g.store.pending ==> Calm(g.View())
    ensures g.smooth && n > 0 ==> !g.store.pending
    ensures g.store == old(g.store) || g.store == old(g.store).(pending := false)
    ensures faultless && g.AtRest(old(g.store), old(g.disk)) && g.SafeTarget(old(g.store), old(g.disk)) ==>
              g.disk == old(g.disk) && Target(g.disk) == Target(old(g.disk))
  {
    for i := 0 to n
      invariant g.Valid() && g.Extends(old(g.trail), old(g.spawns))
      invariant g.coldStarts == old(g.coldStarts)
      invariant old(g.proc) == Down ==> g.proc == Down
      invariant old(g.store).pending && !g.store.pending ==> Calm(g.View())
      invariant g.smooth && i > 0 ==> !g.store.pending
      invariant g.store == old(g.store) || g.store == old(g.store).(pending := false)
      invariant faultless && g.AtRest(old(g.store), old(g.disk)) && g.SafeTarget(old(g.store), old(g.disk)) ==>
                  g.disk == old(g.disk)
    {
      var _ := g.ReconcilePending(faultless);
    }
  }

  /** Boot up to `n` times. `undisturbed` says that every boot before the successful one crashed,
      and before its recovery had cleared the intent. */
  method Boots(g: Gateway, n: nat) returns (node: Option<int>, ghost undisturbed: bool)
    requires g.Valid()
    modifies g
    ensures g.Valid() && g.Extends(old(g.trail), old(g.spawns))
    ensures node.Some? ==> node.value in g.store.nodes && g.Agrees(node.value)
    ensures node.Some? && undisturbed ==> node == BootTarget(old(g.store))
    ensures g.smooth && n > 0 && HasTarget(old(g.store)) ==> node == BootTarget(old(g.store))
  {
    undisturbed := true;
    for i := 0 to n
      invariant g.Valid() && g.Extends(old(g.trail), old(g.spawns))
      invariant g.smooth && HasTarget(old(g.store)) ==> i == 0 && g.store == old(g.store)
      invariant undisturbed ==> BootTarget(g.store) == BootTarget(old(g.store)) && g.store.nodes == old(g.store).nodes
    {
      g.Restart();
      ghost var target := BootTarget(g.store);
      ghost var at;
      var res;
      res, at := g.Reapply(false);
      if res == Lives(Some(Applied)) { return g.store.active, undisturbed; }
      if res.Lives? || at == Recovered || target.None? || target.value !in g.store.nodes { undisturbed := false; }
    }
    node := None;
  }

  /** A switch that crashed between its intent write and its commit, recovery not begun, is carried
      forward by the next boots. */
  method CrashForward(g: Gateway, target: int, n: nat) returns (node: Option<int>, ghost undisturbed: bool)
    requires g.Valid() && target in g.store.nodes
    modifies g
    ensures g.Valid()
    ensures node.Some? ==> g.Agrees(node.value)
    ensures node.Some? && undisturbed ==> node == Some(target)
  {
    ghost var at;
    var o;
    o, at := g.ApplyNode(target, false);
    node, undisturbed := Boots(g, n);
    if !(o.Died? && (at == Switching || at == Committed)) { undisturbed := false; }
  }
}
