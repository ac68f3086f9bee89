/** The gateway's four separately mutable things - the store, the config on disk with its
    rollback target, the running xray and the host ruleset - and every operation that moves
    them: config writes, the supervisor, transactional apply, boot, remote-access revocation with
    its retry, rollback. A request may die at any step, and any step may fail. */
module Gateway {
  import opened Basics
  import opened Xray
  import opened Reconcile
  import opened ReconcileLaws

  // ----- state -----------------------------------------------------------------------------

  datatype File = Missing | Unparseable | Parsed(cfg: Json)

  /** The sidecar that pairs the snapshot with the config it was replaced by. Content digests are
      compared in the source; here the contents are. */
  datatype Pairing = NoMarker | Invalidated | Paired(lastgood: Json, live: Json)

  datatype Disk = Disk(live: File, lastgood: File, pairing: Pairing)

  datatype Process = Down | Up(loaded: File)

  /** The ruleset the host last confirmed. */
  datatype Net = Tproxy | Guarded | TornDown | Unconfirmed

  /** `rw` is what `resolve()` answers, `pending` the durable revocation marker, `intent` the
      crash-forward node id, `nodes` the builder's output for each stored node. */
  datatype Store = Store(
    rw: Option<RwInbound>, pending: bool, nodes: map<int, Base>,
    active: Option<int>, prev: Option<int>, intent: Option<int>, killSwitch: bool)

  /** `revoked` holds the grants a committed narrowing took away and no later save, committed or still
      in flight, offers. The last two hold what has got past the marker since it was last set: `reoffered` the revoked
      grants of a save that was aborted after its apply had run with no marker set, `unread` the
      excess of a file that was started on although the guard could not read it. */
  datatype World = World(
    store: Store, disk: Disk, proc: Process, net: Net,
    revoked: set<Token>, reoffered: set<Token>, unread: set<Token>)

  /** What an xray was started on, what the store granted then, and whether the guard had read it. */
  datatype Spawned = Spawned(loaded: File, rw: Option<RwInbound>, read: bool)

  /** A file xray can load. */
  predicate Loadable(f: File) {
    f.Parsed? && Shaped(f.cfg)
  }

  /** A file grants something only if xray can load it. */
  function FileGrants(f: File): set<Token> {
    if Loadable(f) then LiveGrants(f.cfg) else {}
  }

  function Served(p: Process): set<Token> {
    if p.Up? then FileGrants(p.loaded) else {}
  }

  predicate Within(rw: Option<RwInbound>, f: File) {
    FileGrants(f) <= Granted(rw)
  }

  /** The config `rollback()` would install: an intact snapshot, provably the config the live one
      was applied over. */
  function Target(d: Disk): Option<Json> {
    if d.lastgood.Parsed? && d.live.Parsed? && d.pairing == Paired(d.lastgood.cfg, d.live.cfg)
    then Some(d.lastgood.cfg) else None
  }

  /** What a file grants beyond the store. */
  function Beyond(rw: Option<RwInbound>, f: File): set<Token> {
    FileGrants(f) - Granted(rw)
  }

  /** The process serves nothing revoked. */
  predicate Calm(w: World) {
    Served(w.proc) !! w.revoked
  }

  /** Nothing revoked but what got past the marker. */
  predicate Quiet(w: World) {
    Served(w.proc) * w.revoked <= w.reoffered + w.unread
  }

  /** A process still serving a revoked grant is never without the durable marker, unless that grant
      got past it. */
  predicate Safe(w: World) {
    Quiet(w) || w.store.pending
  }

  predicate NodeOk(nodes: map<int, Base>, id: int)
    requires id in nodes
  {
    BaseOk(nodes[id]) && nodes[id].node == id
  }

  ghost predicate Coherent(w: World) {
    && w.revoked !! Granted(w.store.rw)
    && forall id :: id in w.store.nodes ==> NodeOk(w.store.nodes, id)
  }

  /** The node boot re-establishes: an interrupted switch if there was one. */
  function BootTarget(s: Store): Option<int> {
    if s.intent.None? || s.intent == s.active then s.active
    else if s.intent.value in s.nodes then s.intent
    else s.active
  }

  predicate HasTarget(s: Store) {
    BootTarget(s).Some? && BootTarget(s).value in s.nodes
  }

  /** The revoked grants a save of `rw` would bring back to the runtime without a marker, should it be
      aborted: none if it offers none, if the marker is set, or if there is no node to apply. */
  function Reoffers(s: Store, revoked: set<Token>, rw: Option<RwInbound>): set<Token> {
    if s.pending || !HasTarget(s) then {} else revoked * Granted(rw)
  }

  /** The node a revocation rebuilds the config from when it cannot edit the file. */
  function RebuildNode(s: Store): Option<int> {
    if s.active.Some? && s.active.value in s.nodes then s.active
    else if s.prev.Some? && s.prev.value in s.nodes then s.prev
    else None
  }

  /** Whether the file may hold the remote-access inbound: anything but a well-formed list of
      inbounds without it counts as holding it. */
  predicate MayHoldInbound(f: File) {
    !(f.Parsed? && Shaped(f.cfg) && forall i :: i in Get(f.cfg, KInbounds).items ==> !IsRw(i))
  }

  lemma NoInboundNoGrants(f: File)
    requires !MayHoldInbound(f)
    ensures FileGrants(f) == {}
  {
  }

  /** What was quiet without `offered`, is with it once that counts as past the marker. */
  lemma PastTheMarker(served: set<Token>, taken: set<Token>, offered: set<Token>, past: set<Token>, unread: set<Token>)
    requires served * (taken - offered) <= past + unread
    ensures served * taken <= past + taken * offered + unread
  {
    forall t | t in served * taken ensures t in past + taken * offered + unread {
      if t !in offered { assert t in served * (taken - offered); }
    }
  }

  // ----- outcomes --------------------------------------------------------------------------

  /** What a request that may die at any step returns. */
  datatype Outcome<+T> = Died | Lives(value: T) {
    predicate IsFailure() { Died? }
    function PropagateFailure<U>(): Outcome<U> requires Died? { Died }
    function Extract(): T requires Lives? { value }
  }

  datatype Pulse = Dead | Alive {
    predicate IsFailure() { Dead? }
    function PropagateFailure<U>(): Outcome<U> requires Dead? { Died }
  }

  datatype Write = Written | Refused | Threw
  datatype StopResult = Stopped | Survived | StopThrew
  datatype How = Reapplied | Rebuilt | Cleaned | NotLive | StoppedXray | StopFailed

  /** The outcomes that prove the runtime no longer serves what the store stopped granting. */
  predicate Proves(how: How) {
    how != StopFailed
  }

  /** How a step that may raise went. */
  datatype Tried = Done | NotDone | Raised

  /** The steps that change the runtime, each logged by itself with its outcome. */
  datatype Event =
    | RolledBack(w: Write) | Reloaded(t: Tried) | Netted(t: Tried) | StopTried(r: StopResult) | GuardTried(ok: bool)

  /** Which step of a switch failed. */
  datatype Fault = ReloadFault(t: Tried) | NetFault(t: Tried)

  function FaultEvents(f: Fault): seq<Event> {
    match f
    case ReloadFault(t) => [Reloaded(t)]
    case NetFault(t) => [Reloaded(Done), Netted(t)]
  }

  /** What the failure path of an apply did, step by step: a step that was not taken is None. */
  datatype Recovery = Recovery(
    undo: Option<Write>, reload: Option<Tried>, net: Option<Tried>, stop: Option<StopResult>, guard: Option<bool>)

  function Events(r: Recovery): seq<Event> {
    (if r.undo.Some? then [RolledBack(r.undo.value)] else [])
    + (if r.reload.Some? then [Reloaded(r.reload.value)] else [])
    + (if r.net.Some? then [Netted(r.net.value)] else [])
    + (if r.stop.Some? then [StopTried(r.stop.value)] else [])
    + (if r.guard.Some? then [GuardTried(r.guard.value)] else [])
  }

  /** The previous tunnel is back. */
  predicate Restored(r: Recovery) {
    r.net == Some(Done)
  }

  /** The steps that were taken: the rollback unless withheld, the previous tunnel only after one, its
      rules only once it is ready, the stop and the guard exactly when it did not come back. */
  predicate Proper(r: Recovery, previous: bool, irreversible: bool) {
    && (r.undo.Some? <==> !irreversible)
    && (r.reload.Some? <==> previous && r.undo == Some(Written))
    && (r.net.Some? <==> r.reload == Some(Done))
    && (r.stop.Some? <==> !Restored(r)) && (r.guard.Some? <==> !Restored(r))
  }

  /** `r` completed by its stop and its guard, unless the previous tunnel is back. */
  function Ended(r: Recovery, stop: StopResult, guard: bool): Recovery {
    if Restored(r) then r else r.(stop := Some(stop), guard := Some(guard))
  }

  lemma EndedEvents(was: seq<Event>, r: Recovery, stop: StopResult, guard: bool)
    requires r.stop == None && r.guard == None && !Restored(r)
    ensures Events(Ended(r, stop, guard)) == Events(r) + [StopTried(stop), GuardTried(guard)]
    ensures was + Events(r) + [StopTried(stop), GuardTried(guard)] == was + Events(Ended(r, stop, guard))
  {
    assert Events(Ended(r, stop, guard)) == Events(r) + [StopTried(stop), GuardTried(guard)];
  }

  /** The failures a recovery reports. */
  datatype Note =
    | RollbackWithheld | RollbackThrew | RollbackUnavailable
    | PreviousNotReady | PreviousNetFailed | PreviousThrew
    | XraySurvived | XrayStopThrew | GuardFailed

  predicate Failure(e: Event) {
    match e
    case RolledBack(w) => w != Written
    case Reloaded(t) => t != Done
    case Netted(t) => t != Done
    case StopTried(r) => r != Stopped
    case GuardTried(ok) => !ok
  }

  /** The note that names a failure. */
  predicate Tells(n: Note, e: Event) {
    match n
    case RollbackWithheld => false
    case RollbackThrew => e == RolledBack(Threw)
    case RollbackUnavailable => e == RolledBack(Threw) || e == RolledBack(Refused)
    case PreviousNotReady => e == Reloaded(NotDone)
    case PreviousNetFailed => e == Netted(NotDone)
    case PreviousThrew => e == Reloaded(Raised) || e == Netted(Raised)
    case XraySurvived => e == StopTried(Survived)
    case XrayStopThrew => e == StopTried(StopThrew)
    case GuardFailed => e == GuardTried(false)
  }

  /** `notes` names the failures among `events`, each of them and nothing else; and says when the
      rollback was withheld. */
  ghost predicate NamesAll(notes: set<Note>, events: seq<Event>, irreversible: bool) {
    && (forall e :: e in events && Failure(e) ==> exists n :: n in notes && Tells(n, e))
    && (forall n :: n in notes && n != RollbackWithheld ==> exists e :: e in events && Tells(n, e))
    && (RollbackWithheld in notes <==> irreversible)
  }

  /** A report is empty exactly when the rollback was allowed and every step that was taken succeeded. */
  lemma SilentExactly(notes: set<Note>, events: seq<Event>, irreversible: bool)
    requires NamesAll(notes, events, irreversible)
    ensures notes == {} <==> !irreversible && forall e :: e in events ==> !Failure(e)
  {
    if notes != {} && !irreversible {
      var n :| n in notes;
      var e :| e in events && Tells(n, e);
      assert Failure(e);
    }
  }

  /** A recovery up to the point where it has to close down. */
  predicate Half(r: Recovery, previous: bool, irreversible: bool) {
    && (r.undo.Some? <==> !irreversible)
    && (r.reload.Some? <==> previous && r.undo == Some(Written))
    && (r.net.Some? <==> r.reload == Some(Done))
    && r.stop == None && r.guard == None
  }

  function RestoreNotes(r: Recovery, irreversible: bool): set<Note> {
    (if irreversible then {RollbackWithheld} else {})
    + (if r.undo == Some(Threw) then {RollbackThrew} else {})
    + (if r.undo.Some? && r.undo.value != Written then {RollbackUnavailable} else {})
    + (if r.reload == Some(NotDone) then {PreviousNotReady} else {})
    + (if r.net == Some(NotDone) then {PreviousNetFailed} else {})
    + (if r.reload == Some(Raised) || r.net == Some(Raised) then {PreviousThrew} else {})
  }

  lemma RestoreNamed(r: Recovery, previous: bool, irreversible: bool)
    requires Half(r, previous, irreversible)
    ensures NamesAll(RestoreNotes(r, irreversible), Events(r), irreversible)
  {
    var es, notes := Events(r), RestoreNotes(r, irreversible);
    forall e | e in es && Failure(e) ensures exists n :: n in notes && Tells(n, e) {
      var n := match e
        case RolledBack(w) => RollbackUnavailable
        case Reloaded(t) => if t == Raised then PreviousThrew else PreviousNotReady
        case Netted(t) => if t == Raised then PreviousThrew else PreviousNetFailed
        case _ => GuardFailed;
      assert n in notes && Tells(n, e);
    }
    forall n | n in notes && n != RollbackWithheld ensures exists e :: e in es && Tells(n, e) {
      var e := if n == RollbackThrew || n == RollbackUnavailable then RolledBack(r.undo.value)
               else if n == PreviousNotReady || (n == PreviousThrew && r.reload == Some(Raised))
               then Reloaded(r.reload.value)
               else Netted(r.net.value);
      assert e in es && Tells(n, e);
    }
  }

  function ClosingNotes(stop: StopResult, guard: bool): set<Note> {
    (if stop == Survived then {XraySurvived} else if stop == StopThrew then {XrayStopThrew} else {})
    + (if guard then {} else {GuardFailed})
  }

  lemma ClosingNamed(notes: set<Note>, events: seq<Event>, stop: StopResult, guard: bool, irreversible: bool)
    requires NamesAll(notes, events, irreversible)
    ensures NamesAll(notes + ClosingNotes(stop, guard), events + [StopTried(stop), GuardTried(guard)], irreversible)
  {
    var all, more := events + [StopTried(stop), GuardTried(guard)], notes + ClosingNotes(stop, guard);
    forall e | e in all && Failure(e) ensures exists n :: n in more && Tells(n, e) {
      if e in events {
        var n :| n in notes && Tells(n, e);
        assert n in more;
      } else if e == StopTried(stop) {
        var n := if stop == Survived then XraySurvived else XrayStopThrew;
        assert n in more && Tells(n, e);
      } else {
        assert GuardFailed in more && Tells(GuardFailed, e);
      }
    }
    forall n | n in more && n != RollbackWithheld ensures exists e :: e in all && Tells(n, e) {
      if n in notes {
        var e :| e in events && Tells(n, e);
        assert e in all;
      } else if n == GuardFailed {
        assert all[|events| + 1] == GuardTried(guard) && Tells(n, all[|events| + 1]);
      } else {
        assert all[|events|] == StopTried(stop) && Tells(n, all[|events|]);
      }
    }
  }

  datatype ApplyResult =
    | Applied
    | Invalid                                        // the config did not build or validate
    | WriteFailed                                    // a file could not be written
    | Failed(fault: Fault, recovery: Recovery, notes: set<Note>)    // failed after validation
    | StoreThrew                                     // a bookkeeping write raised
    | StaleGuardFailed                               // a missing node's id was cleared, its guard refused

  datatype RollbackResult = NoTarget | NotPromoted | Promoted | PromotedThenFailed

  /** The selected node is still stored, so the config being replaced describes a tunnel. */
  predicate Previous(s: Store) {
    s.active.Some? && s.active.value in s.nodes
  }

  /** How far an apply got. */
  datatype Phase = Preparing | ConfigWritten | Switching | Recovering | Recovered | Committed

  /** What the store is when an apply of `node` has got as far as `at`. */
  predicate StoreAt(was: Store, now: Store, node: int, at: Phase) {
    match at
    case Preparing => now == was
    case ConfigWritten => now == was
    case Switching => now == was.(intent := Some(node))
    case Recovering => now == was.(intent := Some(node))
    case Recovered => now == was.(intent := None)
    case Committed =>
      && (now.pending ==> was.pending)
      && now == was.(active := Some(node), intent := None, pending := now.pending,
                     prev := if was.active == Some(node) then was.prev else was.active)
  }

  /** And what is the same, and where boot then goes. */
  lemma BootAfter(was: Store, now: Store, node: int, at: Phase)
    requires StoreAt(was, now, node, at) && node in was.nodes
    ensures now.rw == was.rw && now.nodes == was.nodes && now.killSwitch == was.killSwitch
    ensures (now.pending ==> was.pending) && (now.pending == was.pending || at == Committed)
    ensures at == Switching ==> BootTarget(now) == Some(node)
    ensures at != Recovered && BootTarget(was) == Some(node) ==> BootTarget(now) == Some(node)
  {
  }

  class Gateway {
    const mark: int
    const smooth: bool                  // no step of this gateway fails, and no request dies
    var store: Store
    var disk: Disk
    var proc: Process
    var want: bool
    var net: Net
    ghost var revoked: set<Token>
    ghost var reoffered: set<Token>
    ghost var unread: set<Token>
    ghost var trail: seq<World>         // every state this gateway has passed through
    ghost var spawns: seq<Spawned>      // every config an xray was started on
    ghost var coldStarts: nat           // starts that did not replace a live child
    ghost var log: seq<Event>           // what each step that changes the runtime came to

    ghost function View(): World
      reads this
    {
      World(store, disk, proc, net, revoked, reoffered, unread)
    }

    ghost predicate Valid()
      reads this
    {
      && Coherent(View())
      && Safe(View())
      && (forall i :: 0 <= i < |trail| ==> Safe(trail[i]))
      && (forall i :: 0 <= i < |spawns| && spawns[i].read ==> Within(spawns[i].rw, spawns[i].loaded))
    }

    /** Nothing is ever struck from the record. */
    ghost predicate Extends(trailWas: seq<World>, spawnsWas: seq<Spawned>)
      reads this
    {
      trailWas <= trail && spawnsWas <= spawns
    }

    constructor (mark: int, smooth: bool, nodes: map<int, Base>)
      requires forall id :: id in nodes ==> NodeOk(nodes, id)
      ensures Valid() && this.smooth == smooth
      ensures store == Store(None, false, nodes, None, None, None, true) && proc == Down && disk.live == Missing
      ensures revoked == {} && reoffered == {} && unread == {} && trail == [] && spawns == []
    {
      this.mark, this.smooth := mark, smooth;
      store := Store(None, false, nodes, None, None, None, true);
      disk := Disk(Missing, Missing, NoMarker);
      proc, want, net := Down, false, TornDown;
      revoked, reoffered, unread, trail, spawns, coldStarts, log := {}, {}, {}, [], [], 0, [];
    }

    /** The present state joins the trail. */
    ghost method Note()
      requires Safe(View()) && forall i :: 0 <= i < |trail| ==> Safe(trail[i])
      modifies `trail
      ensures old(trail) <= trail && forall i :: 0 <= i < |trail| ==> Safe(trail[i])
    {
      trail := trail + [View()];
    }

    /** The one place a field changes: the new state joins the trail. */
    method Become(s: Store, d: Disk, p: Process, n: Net, ghost r: set<Token>, ghost ro: set<Token>, ghost u: set<Token>)
      requires Valid()
      requires Coherent(World(s, d, p, n, r, ro, u)) && Safe(World(s, d, p, n, r, ro, u))
      modifies this
      ensures Valid() && Extends(old(trail), old(spawns))
      ensures View() == World(s, d, p, n, r, ro, u)
      ensures coldStarts == old(coldStarts) && want == old(want) && spawns == old(spawns) && log == old(log)
    {
      store, disk, proc, net, revoked, reoffered, unread := s, d, p, n, r, ro, u;
      Note();
    }

    /** A change that leaves what is revoked alone. */
    method Put(s: Store, d: Disk, p: Process, n: Net)
      requires Valid()
      requires var w := World(s, d, p, n, revoked, reoffered, unread); Coherent(w) && Safe(w)
      modifies this
      ensures Valid() && Extends(old(trail), old(spawns))
      ensures View() == World(s, d, p, n, old(revoked), old(reoffered), old(unread))
      ensures coldStarts == old(coldStarts) && want == old(want) && spawns == old(spawns) && log == old(log)
    {
      Become(s, d, p, n, revoked, reoffered, unread);
    }

    /** The request thread, or the whole panel, may die between any two steps. */
    method Step() returns (p: Pulse)
      ensures smooth ==> p == Alive
    {
      p := Alive;
      if !smooth {
        if * { p := Dead; }
      }
    }

    method Fails() returns (b: bool)
      ensures smooth ==> !b
    {
      b := false;
      if !smooth {
        if * { b := true; }
      }
    }

    // ----- ConfigManager -------------------------------------------------------------------

    method PutDisk(d: Disk)
      requires Valid()
      modifies this
      ensures Valid() && Extends(old(trail), old(spawns))
      ensures View() == old(View()).(disk := d)
      ensures log == old(log) && coldStarts == old(coldStarts) && want == old(want)
    {
      Put(store, d, proc, net);
    }

    /** The replaced config became the undo target; or it could not be read, the older snapshot stays
        and its marker is dropped, or could not be. */
    ghost predicate Filed(was: Disk, cfg: Json, now: Disk) {
      || (was.live.Parsed? && now.lastgood == was.live && now.pairing == Paired(was.live.cfg, cfg))
      || (now.lastgood == was.lastgood && (now.pairing == NoMarker || now.pairing == was.pairing))
    }

    /** File the live config as the undo target of `cfg`, or drop the target if it cannot be read. False
        when a write raised. */
    method FileUndo(cfg: Json) returns (o: Outcome<bool>)
      requires Valid()
      modifies this
      ensures Valid() && Extends(old(trail), old(spawns))
      ensures View() == old(View()).(disk := disk) && disk.live == old(disk.live)
      ensures log == old(log) && coldStarts == old(coldStarts)
      ensures o == Lives(true) ==> Filed(old(disk), cfg, disk)
      ensures smooth ==> o == Lives(true)
      ensures smooth && old(disk.live).Parsed? ==>
                disk.lastgood == old(disk.live) && disk.pairing == Paired(old(disk.live).cfg, cfg)
    {
      var unreadable := Fails();
      if disk.live.Parsed? && !unreadable {
        var threw := Fails();
        if threw { return Lives(false); }
        PutDisk(disk.(lastgood := disk.live));
        :- Step();
        threw := Fails();
        if threw { return Lives(false); }
        PutDisk(disk.(pairing := Paired(disk.live.cfg, cfg)));
      } else {
        var kept := Fails();
        if !kept { PutDisk(disk.(pairing := NoMarker)); }
      }
      return Lives(true);
    }

    /** Validate, snapshot the live config as the undo target, write. */
    method Apply(cfg: Json) returns (o: Outcome<Write>)
      requires Valid()
      modifies this
      ensures Valid() && Extends(old(trail), old(spawns))
      ensures View() == old(View()).(disk := disk)
      ensures log == old(log) && coldStarts == old(coldStarts)
      ensures o == Lives(Refused) ==> disk == old(disk)
      ensures o != Lives(Written) ==> disk.live == old(disk.live)
      ensures o == Lives(Written) ==> disk.live == Parsed(cfg) && Filed(old(disk), cfg, disk)
      ensures smooth ==> o == Lives(Written)
      ensures smooth && old(disk.live).Parsed? ==> Target(disk) == Some(old(disk.live).cfg)
    {
      var invalid := Fails();
      if invalid { return Lives(Refused); }
      :- Step();
      var filed :- FileUndo(cfg);
      if !filed { return Lives(Threw); }
      :- Step();
      var threw := Fails();
      if threw { return Lives(Threw); }
      PutDisk(disk.(live := Parsed(cfg)));
      return Lives(Written);
    }

    /** Replace the marker by one that says why there is no target. False unless provably done. */
    method InvalidateRollback() returns (ok: bool)
      requires Valid()
      modifies this
      ensures Valid() && Extends(old(trail), old(spawns))
      ensures View() == old(View()).(disk := disk)
      ensures log == old(log) && coldStarts == old(coldStarts) && want == old(want)
      ensures disk == old(disk) || disk == old(disk).(pairing := Invalidated)
      ensures ok ==> disk.pairing == Invalidated
      ensures smooth ==> ok
    {
      var threw := Fails();
      if threw { return false; }
      PutDisk(disk.(pairing := Invalidated));
      var notDurable := Fails();
      ok := !notDurable;
    }

    /** Validate, invalidate the pairing, only then write: no state in between pairs the new
        config with a promotable older one. */
    method ApplyIrreversible(cfg: Json) returns (o: Outcome<Write>)
      requires Valid()
      modifies this
      ensures Valid() && Extends(old(trail), old(spawns))
      ensures View() == old(View()).(disk := disk)
      ensures log == old(log) && coldStarts == old(coldStarts) && want == old(want)
      ensures disk.lastgood == old(disk.lastgood)
      ensures disk == old(disk) || disk.pairing == Invalidated
      ensures disk.live == old(disk.live) || disk.live == Parsed(cfg)
      ensures o != Lives(Written) ==> disk.live == old(disk.live)
      ensures o == Lives(Written) ==> disk.live == Parsed(cfg) && disk.pairing == Invalidated
      ensures smooth ==> o == Lives(Written)
    {
      var invalid := Fails();
      if invalid { return Lives(Refused); }
      :- Step();
      var ok := InvalidateRollback();
      if !ok { return Lives(Refused); }
      :- Step();
      var threw := Fails();
      if threw { return Lives(Threw); }
      PutDisk(disk.(live := Parsed(cfg)));
      return Lives(Written);
    }

    /** The provable target, unless one of the three files cannot be read. */
    method ReadTarget() returns (target: Option<Json>)
      ensures target == None || target == Target(disk)
      ensures smooth ==> target == Target(disk)
    {
      var unreadable := Fails();
      target := if unreadable then None else Target(disk);
    }

    /** Promote the target, if there is a provable one. */
    method RollBack() returns (o: Outcome<Write>)
      requires Valid()
      modifies this
      ensures Valid() && Extends(old(trail), old(spawns))
      ensures View() == old(View()).(disk := disk)
      ensures coldStarts == old(coldStarts)
      ensures o == Lives(Refused) ==> disk == old(disk)
      ensures o == Lives(Written) ==> Target(disk) == old(Target(disk)) && disk.lastgood == old(disk.lastgood)
      ensures o == Lives(Written) ==> old(Target(disk)).Some? && disk.live == Parsed(old(Target(disk)).value)
      ensures disk.live == old(disk.live)
              || (old(Target(disk)).Some? && disk.live == Parsed(old(Target(disk)).value))
      ensures smooth && old(Target(disk)).Some? ==> o == Lives(Written)
      ensures o.Lives? ==> log == old(log) + [RolledBack(o.value)]
    {
      var target := ReadTarget();
      if target.None? { log := log + [RolledBack(Refused)]; return Lives(Refused); }
      var threw := Fails();
      if threw { log := log + [RolledBack(Threw)]; return Lives(Threw); }
      PutDisk(disk.(live := Parsed(target.value)));
      :- Step();
      threw := Fails();
      if threw { log := log + [RolledBack(Threw)]; return Lives(Threw); }
      PutDisk(disk.(pairing := Paired(target.value, target.value)));
      log := log + [RolledBack(Written)];
      return Lives(Written);
    }

    // ----- bringing the file into line -----------------------------------------------------

    /** `faultless` says that no read or open on the way fails. */
    method MayFail(faultless: bool) returns (b: bool)
      ensures faultless || smooth ==> !b
    {
      b := false;
      if !faultless { b := Fails(); }
    }

    /** One producer's config: left alone if the file already says exactly that, else written
        irreversibly. */
    method Install(cfg: Json, onDisk: Option<Json>) returns (o: Outcome<bool>)
      requires Valid()
      requires onDisk.Some? ==> disk.live == Parsed(onDisk.value)
      modifies this
      ensures Valid() && Extends(old(trail), old(spawns))
      ensures View() == old(View()).(disk := disk)
      ensures log == old(log) && coldStarts == old(coldStarts) && want == old(want)
      ensures disk.lastgood == old(disk.lastgood)
      ensures disk == old(disk) || disk.pairing == Invalidated
      ensures disk.live == old(disk.live) || disk.live == Parsed(cfg)
      ensures o == Lives(true) ==> disk.live == Parsed(cfg)
      ensures o != Lives(true) ==> disk.live == old(disk.live)
      ensures onDisk == Some(cfg) ==> disk == old(disk) && o == Lives(true)
      ensures smooth ==> o == Lives(true)
    {
      if onDisk == Some(cfg) { return Lives(true); }
      var w :- ApplyIrreversible(cfg);
      return Lives(w == Written);
    }

    /** Edit the file that is there. */
    method EditFile(onDisk: Json) returns (o: Outcome<bool>)
      requires Valid()
      requires disk.live == Parsed(onDisk) && Shaped(onDisk)
      modifies this
      ensures Valid() && Extends(old(trail), old(spawns))
      ensures View() == old(View()).(disk := disk)
      ensures log == old(log) && coldStarts == old(coldStarts) && want == old(want)
      ensures disk.lastgood == old(disk.lastgood)
      ensures disk == old(disk) || disk.pairing == Invalidated
      ensures disk.live == old(disk.live) || (Loadable(disk.live) && Within(store.rw, disk.live))
      ensures o == Lives(true) ==> disk.live == Parsed(Reconciled(store.rw, mark, onDisk))
      ensures o == Lives(true) ==> Loadable(disk.live) && Within(store.rw, disk.live)
      ensures o != Lives(true) ==> disk.live == old(disk.live)
      ensures AtRest(old(store), old(disk)) ==> disk == old(disk) && o == Lives(true)
      ensures smooth ==> o == Lives(true)
      ensures forall node :: Names(onDisk, node) ==> disk.live.Parsed? && Names(disk.live.cfg, node)
    {
      var edited := ReconcileConfig(store.rw, mark, onDisk);
      ReconciledGrants(store.rw, mark, onDisk);
      forall node | Names(onDisk, node) ensures Names(edited, node) { ReconciledNames(store.rw, mark, onDisk, node); }
      o := Install(edited, Some(onDisk));
    }

    /** Rebuild it from a node on record. */
    method RebuildFile(node: int, onDisk: Option<Json>) returns (o: Outcome<bool>)
      requires Valid() && node in store.nodes
      requires onDisk.Some? ==> disk.live == Parsed(onDisk.value)
      modifies this
      ensures Valid() && Extends(old(trail), old(spawns))
      ensures View() == old(View()).(disk := disk)
      ensures log == old(log) && coldStarts == old(coldStarts) && want == old(want)
      ensures disk.lastgood == old(disk.lastgood)
      ensures disk == old(disk) || disk.pairing == Invalidated
      ensures disk.live == old(disk.live) || (Loadable(disk.live) && Within(store.rw, disk.live))
      ensures o == Lives(true) ==> Loadable(disk.live) && Within(store.rw, disk.live) && Names(disk.live.cfg, node)
      ensures smooth ==> o == Lives(true)
    {
      var built := BuildNodeConfig(node);
      if built.None? { return Lives(false); }
      o := Install(built.value, onDisk);
    }

    /** Bring the live config into line with the store: edit the file that is there, else rebuild
        it from the node on record. Nothing is reloaded. True means the file provably grants no
        more than the store does. */
    method WriteConfig(faultless: bool) returns (o: Outcome<bool>)
      requires Valid()
      modifies this
      ensures Valid() && Extends(old(trail), old(spawns))
      ensures View() == old(View()).(disk := disk)
      ensures log == old(log) && coldStarts == old(coldStarts) && want == old(want)
      ensures disk.lastgood == old(disk.lastgood)
      ensures disk == old(disk) || disk.pairing == Invalidated
      ensures disk.live == old(disk.live) || (Loadable(disk.live) && Within(store.rw, disk.live))
      ensures o == Lives(true) ==> Loadable(disk.live) && Within(store.rw, disk.live)
      ensures faultless && AtRest(old(store), old(disk)) ==> disk == old(disk) && (o.Lives? ==> o.value)
      ensures smooth ==> o == Lives(CanBeCleaned(old(store), old(disk)))
      ensures smooth && Loadable(old(disk).live) ==> disk.live == Parsed(Reconciled(store.rw, mark, old(disk).live.cfg))
      ensures smooth && !Loadable(old(disk).live) && Previous(store) ==> Names(disk.live.cfg, store.active.value)
    {
      var noManager := MayFail(faultless);
      if noManager { return Lives(false); }
      var node := RebuildNode(store);
      var noNode := MayFail(faultless);
      if noNode { node := None; }
      var onDisk: Option<Json> := None;
      var noRead := MayFail(faultless);
      if !noRead && disk.live.Parsed? && Shaped(disk.live.cfg) { onDisk := Some(disk.live.cfg); }
      var noEdit := MayFail(faultless);
      if onDisk.Some? && !noEdit {
        var done :- EditFile(onDisk.value);
        if done { return Lives(true); }
      }
      :- Step();
      if node.None? { return Lives(false); }
      o := RebuildFile(node.value, onDisk);
    }

    /** There is a file to edit, or a node on record to rebuild it from. */
    ghost predicate CanBeCleaned(s: Store, d: Disk) {
      || Loadable(d.live)
      || (s.active.Some? && s.active.value in s.nodes)
      || (s.prev.Some? && s.prev.value in s.nodes)
    }

    /** The live file is well-formed and already its own reconciled form. */
    ghost predicate AtRest(s: Store, d: Disk) {
      d.live.Parsed? && Shaped(d.live.cfg) && Reconciled(s.rw, mark, d.live.cfg) == d.live.cfg
    }

    /** There is a rollback target, and it grants nothing the store does not. */
    ghost predicate SafeTarget(s: Store, d: Disk) {
      Target(d).Some? && !Excess(s.rw, Target(d).value)
    }

    // ----- the supervisor ------------------------------------------------------------------

    /** A child can exit at any moment; it is noticed whenever the process is looked at. */
    method ChildMayExit()
      requires Valid()
      modifies this
      ensures Valid() && Extends(old(trail), old(spawns))
      ensures View() == old(View()).(proc := proc)
      ensures proc == old(proc) || proc == Down
      ensures smooth ==> proc == old(proc)
      ensures log == old(log) && coldStarts == old(coldStarts) && want == old(want) && spawns == old(spawns)
    {
      var exits := Fails();
      if proc.Up? && exits { Put(store, disk, Down, net); }
    }

    /** True and false are observations; None is a failure to observe. */
    method Running() returns (r: Option<bool>)
      requires Valid()
      modifies this
      ensures Valid() && Extends(old(trail), old(spawns))
      ensures View() == old(View()).(proc := proc)
      ensures proc == old(proc) || proc == Down
      ensures r == Some(false) ==> proc == Down
      ensures r == Some(true) ==> proc.Up?
      ensures smooth ==> r == Some(proc.Up?) && proc == old(proc)
      ensures coldStarts == old(coldStarts) && log == old(log)
    {
      ChildMayExit();
      var unknown := Fails();
      r := if unknown then None else Some(proc.Up?);
    }

    /** End the child. Stopped means it is gone, surviving that it is not; a raise leaves either. */
    method StopChild() returns (r: StopResult)
      requires Valid()
      modifies this
      ensures Valid() && Extends(old(trail), old(spawns))
      ensures View() == old(View()).(proc := proc)
      ensures proc == old(proc) || proc == Down
      ensures r == Stopped ==> proc == Down
      ensures r == Survived ==> proc.Up?
      ensures smooth ==> r == Stopped
      ensures coldStarts == old(coldStarts) && log == old(log) && !want
    {
      want := false;
      ChildMayExit();
      var throws := Fails();
      if proc.Up? && !throws {
        var survives := Fails();
        if survives { return Survived; }
      }
      var gone := Fails();
      if proc.Up? && (!throws || gone) { Put(store, disk, Down, net); }
      return if throws then StopThrew else Stopped;
    }

    method Stop() returns (r: StopResult)
      requires Valid()
      modifies this
      ensures Valid() && Extends(old(trail), old(spawns))
      ensures View() == old(View()).(proc := proc)
      ensures proc == old(proc) || proc == Down
      ensures r == Stopped ==> proc == Down
      ensures r == Survived ==> proc.Up?
      ensures smooth ==> r == Stopped
      ensures coldStarts == old(coldStarts) && !want
      ensures log == old(log) + [StopTried(r)]
    {
      r := StopChild();
      log := log + [StopTried(r)];
    }

    /** The guard's answer, given whether it could read the file: a file it could not read passes,
        one beyond the store's grants passes only once it has been brought into line. */
    method Admit(read: bool) returns (o: Outcome<bool>)
      requires Valid()
      modifies this
      ensures Valid() && Extends(old(trail), old(spawns))
      ensures View() == old(View()).(disk := disk)
      ensures log == old(log) && coldStarts == old(coldStarts) && want == old(want)
      ensures o == Lives(true) && read ==> Within(store.rw, disk.live)
      ensures disk.lastgood == old(disk.lastgood)
      ensures !read || old(Within(store.rw, disk.live)) ==>
                disk == old(disk) && o == Lives(true) && spawns == old(spawns)
      ensures smooth ==> o == Lives(true)
      ensures Loadable(old(disk).live) ==> Loadable(disk.live)
      ensures disk == old(disk) || (Within(store.rw, disk.live) || disk.live == old(disk.live))
    {
      if !read || Within(store.rw, disk.live) { return Lives(true); }
      assert Loadable(disk.live);
      var done :- WriteConfig(false);
      return Lives(done);
    }

    /** The guard every spawn consults: may the config on disk be served, after one attempt to bring
        it into line? An exception refuses, a file it cannot read does not. */
    method StartGuard() returns (o: Outcome<bool>, read: bool)
      requires Valid()
      modifies this
      ensures Valid() && Extends(old(trail), old(spawns))
      ensures View() == old(View()).(disk := disk)
      ensures log == old(log) && coldStarts == old(coldStarts) && want == old(want)
      ensures o == Lives(true) && read ==> Within(store.rw, disk.live)
      ensures disk.lastgood == old(disk.lastgood)
      ensures old(Within(store.rw, disk.live)) ==> disk == old(disk)
      ensures disk == old(disk) || (Within(store.rw, disk.live) || disk.live == old(disk.live))
      ensures Loadable(old(disk).live) ==> Loadable(disk.live)
      ensures smooth ==> read && o == Lives(true)
    {
      var unreadable := Fails();
      read := !unreadable;
      var throws := Fails();
      if throws { return Lives(false), read; }
      o := Admit(read);
    }

    /** Run xray on the file the guard has just let through. A file xray cannot load leaves no child
        behind; the excess of one the guard could not read gets past the marker. */
    method Spawn(read: bool, ghost replacing: bool)
      requires Valid() && proc == Down && (read ==> Within(store.rw, disk.live))
      modifies this
      ensures Valid() && Extends(old(trail), old(spawns))
      ensures View() == old(View()).(proc := proc, unread := unread)
      ensures proc == Down || proc == Up(disk.live)
      ensures unread == old(unread) || (!read && unread == old(unread) + Beyond(store.rw, disk.live))
      ensures proc.Up? ==> Beyond(store.rw, disk.live) <= unread
      ensures Within(store.rw, disk.live) ==> unread == old(unread)
      ensures replacing ==> coldStarts == old(coldStarts)
      ensures want == old(want) && log == old(log)
      ensures smooth ==> spawns == old(spawns) + [Spawned(disk.live, store.rw, read)]
      ensures smooth && Loadable(disk.live) ==> proc == Up(disk.live)
    {
      var noChild := Fails();
      if noChild { return; }
      spawns := spawns + [Spawned(disk.live, store.rw, read)];
      if !replacing { coldStarts := coldStarts + 1; }
      if Loadable(disk.live) {
        Become(store, disk, Up(disk.live), net, revoked, reoffered, unread + Beyond(store.rw, disk.live));
      }
    }

    /** Spawn on the guard's word unless a child is up. */
    method StartChild(ghost replacing: bool) returns (o: Outcome<()>)
      requires Valid()
      modifies this
      ensures Valid() && Extends(old(trail), old(spawns))
      ensures View() == old(View()).(disk := disk, proc := proc, unread := unread) && old(unread) <= unread
      ensures disk.lastgood == old(disk.lastgood)
      ensures old(Within(store.rw, disk.live)) ==> disk == old(disk) && unread == old(unread)
      ensures disk == old(disk) || (Within(store.rw, disk.live) || disk.live == old(disk.live))
      ensures old(proc) == Down && proc.Up? ==> proc.loaded == disk.live && Beyond(store.rw, disk.live) <= unread
      ensures old(proc).Up? ==> proc == old(proc)
      ensures replacing ==> coldStarts == old(coldStarts)
      ensures want && log == old(log)
      ensures smooth ==> o == Lives(())
      ensures smooth && old(proc) == Down && Loadable(old(disk).live) ==>
                proc == Up(disk.live) && Within(store.rw, disk.live)
    {
      want := true;
      if proc.Up? { return Lives(()); }
      var may, read :- StartGuard();
      if may { Spawn(read, replacing); }
      return Lives(());
    }

    method Start() returns (o: Outcome<()>)
      requires Valid()
      modifies this
      ensures Valid() && Extends(old(trail), old(spawns))
      ensures View() == old(View()).(disk := disk, proc := proc, unread := unread) && old(unread) <= unread
      ensures disk.lastgood == old(disk.lastgood)
      ensures old(Within(store.rw, disk.live)) ==> disk == old(disk) && unread == old(unread)
      ensures disk == old(disk) || (Within(store.rw, disk.live) || disk.live == old(disk.live))
      ensures old(proc) == Down && proc.Up? ==> proc.loaded == disk.live && Beyond(store.rw, disk.live) <= unread
      ensures old(proc).Up? ==> proc == old(proc)
      ensures want && log == old(log)
      ensures smooth ==> o == Lives(())
      ensures smooth && old(proc) == Down && Loadable(old(disk).live) ==>
                proc == Up(disk.live) && Within(store.rw, disk.live)
    {
      o := StartChild(false);
    }

    /** Wait for the child just started; one that is up but never ready is stopped. */
    method AwaitReady() returns (t: Tried)
      requires Valid()
      modifies this
      ensures Valid() && Extends(old(trail), old(spawns))
      ensures View() == old(View()).(proc := proc)
      ensures proc == old(proc) || proc == Down
      ensures t == Done ==> proc.Up?
      ensures smooth && old(proc).Up? ==> t == Done
      ensures coldStarts == old(coldStarts) && log == old(log)
    {
      ChildMayExit();
      var throws := Fails();
      if throws { return Raised; }
      if proc == Down { return NotDone; }
      var unready := Fails();
      if !unready { return Done; }
      var _ := StopChild();
      want := true;
      return NotDone;
    }

    /** Stop, then start: done only when the new child was confirmed ready. */
    method Restarted(ghost replacing: bool) returns (o: Outcome<Tried>)
      requires Valid()
      modifies this
      ensures Valid() && Extends(old(trail), old(spawns))
      ensures View() == old(View()).(disk := disk, proc := proc, unread := unread) && old(unread) <= unread
      ensures disk.lastgood == old(disk.lastgood)
      ensures old(Within(store.rw, disk.live)) ==> disk == old(disk) && unread == old(unread)
      ensures o == Lives(Done) ==> proc == Up(disk.live) && Beyond(store.rw, disk.live) <= unread
      ensures replacing ==> coldStarts == old(coldStarts)
      ensures smooth ==> o.Lives?
      ensures smooth && Loadable(old(disk).live) ==> o == Lives(Done) && Within(store.rw, disk.live)
      ensures log == old(log)
    {
      var r := StopChild();
      if r != Stopped { return Lives(if r == Survived then NotDone else Raised); }
      :- Step();
      var _ :- StartChild(replacing);
      var t := AwaitReady();
      return Lives(t);
    }

    /** It replaces a child exactly when one was up. */
    method Reload() returns (o: Outcome<Tried>)
      requires Valid()
      modifies this
      ensures Valid() && Extends(old(trail), old(spawns))
      ensures View() == old(View()).(disk := disk, proc := proc, unread := unread) && old(unread) <= unread
      ensures disk.lastgood == old(disk.lastgood)
      ensures old(Within(store.rw, disk.live)) ==> disk == old(disk) && unread == old(unread)
      ensures o == Lives(Done) ==> proc == Up(disk.live) && Beyond(store.rw, disk.live) <= unread
      ensures old(proc).Up? ==> coldStarts == old(coldStarts)
      ensures smooth ==> o.Lives?
      ensures smooth && Loadable(old(disk).live) ==> o == Lives(Done) && Within(store.rw, disk.live)
      ensures o.Lives? ==> log == old(log) + [Reloaded(o.value)]
    {
      o := Restarted(proc.Up?);
      if o.Lives? { log := log + [Reloaded(o.value)]; }
    }

    /** A reload only for a child that is up at that moment: None says it was not, and that
        nothing was started. */
    method ReloadIfRunning() returns (o: Outcome<Option<bool>>)
      requires Valid()
      modifies this
      ensures Valid() && Extends(old(trail), old(spawns))
      ensures View() == old(View()).(disk := disk, proc := proc, unread := unread) && old(unread) <= unread
      ensures disk.lastgood == old(disk.lastgood)
      ensures old(Within(store.rw, disk.live)) ==> disk == old(disk) && unread == old(unread)
      ensures o == Lives(None) ==> proc == Down && disk == old(disk)
      ensures o == Lives(Some(true)) ==> proc == Up(disk.live) && Beyond(store.rw, disk.live) <= unread
      ensures old(proc) == Down ==> proc == Down && disk == old(disk)
      ensures coldStarts == old(coldStarts) && (o.Lives? ==> |old(log)| <= |log|)
      ensures smooth ==> o.Lives? && (o.value.Some? <==> old(proc).Up?)
      ensures smooth && old(proc).Up? && Loadable(old(disk).live) ==> o == Lives(Some(true))
    {
      ChildMayExit();
      if proc == Down { return Lives(None); }
      var threw := Fails();
      if threw { return Lives(Some(false)); }
      var t :- Reload();
      return Lives(Some(t == Done));
    }

    // ----- store and host ------------------------------------------------------------------

    /** Bookkeeping: a write that touches neither the grants nor the marker, and may raise. */
    method Save(s: Store) returns (ok: bool)
      requires Valid()
      requires s.rw == store.rw && s.pending == store.pending && s.nodes == store.nodes
      modifies this
      ensures Valid() && Extends(old(trail), old(spawns))
      ensures View() == old(View()).(store := store)
      ensures ok ==> store == s
      ensures !ok ==> store == old(store)
      ensures smooth ==> ok
      ensures log == old(log) && coldStarts == old(coldStarts)
    {
      var threw := Fails();
      if threw { return false; }
      Put(s, disk, proc, net);
      return true;
    }

    /** Drop the marker; true only when it was read back absent. Only a runtime that has caught
        up entitles a caller to this. */
    method ClearMarker() returns (o: Outcome<bool>)
      requires Valid() && Calm(View())
      modifies this
      ensures Valid() && Extends(old(trail), old(spawns))
      ensures View() == old(View()).(store := store)
      ensures store == old(store) || store == old(store).(pending := false)
      ensures o == Lives(true) ==> !store.pending
      ensures smooth ==> o == Lives(true)
      ensures log == old(log) && coldStarts == old(coldStarts)
    {
      var threw := Fails();
      if threw { return Lives(false); }
      var keptNothing := Fails();
      if !keptNothing { Put(store.(pending := false), disk, proc, net); }
      :- Step();
      var noRead := Fails();
      if noRead { return Lives(false); }
      return Lives(!store.pending);
    }

    /** Install the tproxy rules. A failure leaves the host as it was, in the fallback guard, or
        unconfirmed. */
    method ApplyNet() returns (t: Tried)
      requires Valid()
      modifies this
      ensures Valid() && Extends(old(trail), old(spawns))
      ensures View() == old(View()).(net := net)
      ensures t == Done ==> net == Tproxy
      ensures t != Done ==> net == old(net) || net == ClosedNet() || net == Unconfirmed
      ensures smooth ==> t == Done
      ensures coldStarts == old(coldStarts)
      ensures log == old(log) + [Netted(t)]
    {
      var throws := Fails();
      var failed := Fails();
      var untouched := Fails();
      var fallbackFailed := Fails();
      t := if throws then Raised else if failed then NotDone else Done;
      if t == Done || !untouched {
        Put(store, disk, proc, if t == Done then Tproxy else if fallbackFailed then Unconfirmed else ClosedNet());
      }
      log := log + [Netted(t)];
    }

    function ClosedNet(): Net
      reads this
    {
      if store.killSwitch then Guarded else TornDown
    }

    method StopNet() returns (ok: bool)
      requires Valid()
      modifies this
      ensures Valid() && Extends(old(trail), old(spawns))
      ensures View() == old(View()).(net := net)
      ensures ok ==> net == ClosedNet() == if store.killSwitch then Guarded else TornDown
      ensures !ok ==> net == old(net) || net == Unconfirmed
      ensures smooth ==> ok
      ensures coldStarts == old(coldStarts) && want == old(want)
      ensures log == old(log) + [GuardTried(ok)]
    {
      var failed := Fails();
      var untouched := Fails();
      if !failed || !untouched { Put(store, disk, proc, if failed then Unconfirmed else ClosedNet()); }
      ok := !failed;
      log := log + [GuardTried(ok)];
    }

    // ----- transactional apply -------------------------------------------------------------

    /** The replaced config's tunnel is back: process and rules run the file, and if the store grants
        what that config grants, the file is that config. */
    ghost predicate Back(target: Option<Json>)
      reads this
    {
      && target.Some?
      && proc == Up(disk.live) && net == Tproxy && Beyond(store.rw, disk.live) <= unread
      && (Within(store.rw, Parsed(target.value)) ==> disk.live == Parsed(target.value))
    }

    /** First half of the failure path: put the replaced config, its process and its rules back. */
    method TryRestore(previous: bool, irreversible: bool) returns (o: Outcome<Recovery>)
      requires Valid()
      modifies this
      ensures Valid() && Extends(old(trail), old(spawns))
      ensures View() == old(View()).(disk := disk, proc := proc, net := net, unread := unread) && old(unread) <= unread
      ensures irreversible ==> disk == old(disk)
      ensures o.Lives? ==> log == old(log) + Events(o.value)
      ensures o.Lives? ==> Half(o.value, previous, irreversible)
      ensures o.Lives? && Restored(o.value) ==> Back(old(Target(disk)))
    {
      if irreversible { return Lives(Recovery(None, None, None, None, None)); }
      var w :- RollBack();
      if w != Written || !previous { return Lives(Recovery(Some(w), None, None, None, None)); }
      var t, n :- ResumePrevious(disk.live.cfg);
      return Lives(Recovery(Some(w), Some(t), n, None, None));
    }

    /** Reload onto the file, which is the rolled-back config, and apply the host rules. */
    method ResumePrevious(ghost target: Json) returns (o: Outcome<Tried>, n: Option<Tried>)
      requires Valid() && disk.live == Parsed(target)
      modifies this
      ensures Valid() && Extends(old(trail), old(spawns))
      ensures View() == old(View()).(disk := disk, proc := proc, net := net, unread := unread) && old(unread) <= unread
      ensures o.Lives? ==> log == old(log) + [Reloaded(o.value)] + (if n.Some? then [Netted(n.value)] else [])
      ensures o.Lives? ==> (n.Some? <==> o.value == Done)
      ensures o.Lives? && n == Some(Done) ==> Back(Some(target))
    {
      n := None;
      :- Step();
      var t :- Reload();
      if t != Done { return Lives(t), None; }
      :- Step();
      var u := ApplyNet();
      return Lives(Done), Some(u);
    }

    /** Second half: no verified tunnel remains, so stop xray and close the host. */
    method CloseDown() returns (o: Outcome<(StopResult, bool)>)
      requires Valid()
      modifies this
      ensures Valid() && Extends(old(trail), old(spawns))
      ensures View() == old(View()).(proc := proc, net := net)
      ensures proc == old(proc) || proc == Down
      ensures o.Lives? ==> log == old(log) + [StopTried(o.value.0), GuardTried(o.value.1)]
      ensures o.Lives? ==> (o.value.0 == Stopped ==> proc == Down) && (o.value.0 == Survived ==> proc.Up?)
      ensures o.Lives? && o.value.1 ==> net == ClosedNet()
      ensures smooth ==> o == Lives((Stopped, true))
    {
      var pulse := Step();
      if pulse.Dead? { return Died; }
      var r := Stop();
      :- Step();
      var guarded := StopNet();
      return Lives((r, guarded));
    }

    /** What the record says of stop and guard is so. */
    ghost predicate Shut(r: Recovery)
      reads this
    {
      && (r.stop == Some(Stopped) ==> proc == Down) && (r.stop == Some(Survived) ==> proc.Up?)
      && (r.guard == Some(true) ==> net == ClosedNet())
    }

    /** Close down after a recovery that did not bring the previous tunnel back, and complete its record. */
    method Conclude(r: Recovery, named: set<Note>, ghost was: seq<Event>, ghost previous: bool,
                    ghost irreversible: bool)
      returns (o: Outcome<Recovery>, notes: set<Note>)
      requires Valid() && !Restored(r) && Half(r, previous, irreversible) && log == was + Events(r)
      requires NamesAll(named, Events(r), irreversible)
      modifies this
      ensures Valid() && Extends(old(trail), old(spawns))
      ensures View() == old(View()).(proc := proc, net := net)
      ensures o.Lives? ==> Proper(o.value, previous, irreversible) && !Restored(o.value) && Shut(o.value)
      ensures o.Lives? ==> log == was + Events(o.value) && NamesAll(notes, Events(o.value), irreversible)
    {
      notes := named;
      var c :- CloseDown();
      EndedEvents(was, r, c.0, c.1);
      ClosingNamed(named, Events(r), c.0, c.1, irreversible);
      notes := named + ClosingNotes(c.0, c.1);
      return Lives(Ended(r, c.0, c.1)), notes;
    }

    /** The failure path of an apply. */
    method Recover(previous: bool, irreversible: bool) returns (o: Outcome<Recovery>, notes: set<Note>)
      requires Valid()
      modifies this
      ensures Valid() && Extends(old(trail), old(spawns))
      ensures View() == old(View()).(disk := disk, proc := proc, net := net, unread := unread) && old(unread) <= unread
      ensures irreversible ==> disk == old(disk)
      ensures o.Lives? ==> Proper(o.value, previous, irreversible)
      // the record is what the steps themselves logged, and the notes name their failures
      ensures o.Lives? ==> log == old(log) + Events(o.value) && NamesAll(notes, Events(o.value), irreversible)
      ensures o.Lives? && Restored(o.value) ==> Back(old(Target(disk)))
      ensures o.Lives? && !Restored(o.value) ==> Shut(o.value)
    {
      notes := {};
      var r :- TryRestore(previous, irreversible);
      notes := RestoreNotes(r, irreversible);
      RestoreNamed(r, previous, irreversible);
      if Restored(r) { return Lives(r), notes; }
      o, notes := Conclude(r, notes, old(log), previous, irreversible);
    }

    /** Config, loaded process, host rules and the stored selection all name `node`. */
    ghost predicate Agrees(node: int)
      reads this
    {
      && disk.live.Parsed? && Names(disk.live.cfg, node)
      && proc == Up(disk.live)
      && net == Tproxy
      && store.active == Some(node) && store.intent == None
    }

    /** The file is a config for `node` that grants exactly what the store grants. */
    ghost predicate FileFor(node: int)
      reads this
    {
      Loadable(disk.live) && Names(disk.live.cfg, node) && FileGrants(disk.live) == Granted(store.rw)
    }

    /** The file is the very config built for `node`. */
    ghost predicate BuiltFor(node: int)
      reads this
    {
      && FileFor(node)
      && node in store.nodes && BaseOk(store.nodes[node])
      && disk.live.cfg == BuildConfig(store.nodes[node], store.rw, mark)
    }

    /** The config an apply writes for `node`, unless rendering it fails. */
    method BuildNodeConfig(node: int) returns (cfg: Option<Json>)
      requires Valid() && node in store.nodes
      ensures cfg.Some? ==> Shaped(cfg.value) && Names(cfg.value, node) && LiveGrants(cfg.value) == Granted(store.rw)
      ensures cfg.Some? ==> cfg.value == BuildConfig(store.nodes[node], store.rw, mark)
      ensures smooth ==> cfg.Some?
    {
      var fails := Fails();
      if fails { return None; }
      assert NodeOk(store.nodes, node);
      BuiltConfigGrants(store.nodes[node], store.rw, mark);
      cfg := Some(BuildConfig(store.nodes[node], store.rw, mark));
    }

    /** Build, validate and write. */
    method WriteNodeConfig(node: int, irreversible: bool) returns (o: Outcome<Write>)
      requires Valid() && node in store.nodes
      modifies this
      ensures Valid() && Extends(old(trail), old(spawns))
      ensures View() == old(View()).(disk := disk) && log == old(log)
      ensures o != Lives(Written) ==> disk.live == old(disk.live)
      ensures o == Lives(Refused) && !irreversible ==> disk == old(disk)
      ensures o == Lives(Written) ==> BuiltFor(node)
      ensures o == Lives(Written) && irreversible ==> disk.pairing == Invalidated
      ensures o == Lives(Written) && !irreversible ==> Filed(old(disk), disk.live.cfg, disk)
      ensures smooth ==> o == Lives(Written)
      ensures smooth && !irreversible && old(disk.live).Parsed? ==> Target(disk) == Some(old(disk.live).cfg)
    {
      var cfg := BuildNodeConfig(node);
      if cfg.None? { return Lives(Refused); }
      var w: Write;
      if irreversible { w :- ApplyIrreversible(cfg.value); } else { w :- Apply(cfg.value); }
      return Lives(w);
    }

    /** Reload xray onto the config on disk and apply the host rules; the fault, if one of them failed. */
    method SwitchRuntime() returns (o: Outcome<Option<Fault>>)
      requires Valid() && Within(store.rw, disk.live)
      modifies this
      ensures Valid() && Extends(old(trail), old(spawns))
      ensures View() == old(View()).(proc := proc, net := net)
      ensures o == Lives(None) ==> proc == Up(disk.live) && net == Tproxy
      ensures o == Lives(None) ==> log == old(log) + [Reloaded(Done), Netted(Done)]
      ensures o.Lives? && o.value.Some? ==> log == old(log) + FaultEvents(o.value.value) && o.value.value.t != Done
      ensures smooth && Loadable(disk.live) ==> o == Lives(None)
    {
      var pulse := Step();
      if pulse.Dead? { return Died; }
      var t :- Reload();
      if t != Done { return Lives(Some(ReloadFault(t))); }
      :- Step();
      var n := ApplyNet();
      return Lives(if n == Done then None else Some(NetFault(n)));
    }

    /** The bookkeeping of a switch that happened, and of a pending revocation it completed. */
    method Commit(node: int, ghost was: Store) returns (o: Outcome<bool>, ghost at: Phase)
      requires Valid() && Calm(View()) && StoreAt(was, store, node, Switching)
      modifies this
      ensures Valid() && Extends(old(trail), old(spawns))
      ensures View() == old(View()).(store := store) && log == old(log)
      ensures (at == Switching || at == Committed) && StoreAt(was, store, node, at)
      ensures o.Lives? ==> o.value == (at == Committed)
      ensures smooth ==> o == Lives(true) && !store.pending
    {
      at := Switching;
      :- Step();
      var saved := Save(store.(active := Some(node), intent := None,
                               prev := if store.active == Some(node) then store.prev else store.active));
      if !saved { return Lives(false), at; }
      at := Committed;
      :- Step();
      if store.pending { var _ :- ClearMarker(); }
      return Lives(true), at;
    }

    /** A failed switch tells what happened: its fault and its recovery are exactly what the steps logged
        since `was`, the recovery took the steps it should, its notes name every one that failed and
        nothing else, and what it says of stop and guard is so. */
    ghost predicate Told(was: seq<Event>, r: ApplyResult, previous: bool, irreversible: bool)
      requires r.Failed?
      reads this
    {
      && log == was + FaultEvents(r.fault) + Events(r.recovery) && r.fault.t != Done
      && Proper(r.recovery, previous, irreversible)
      && NamesAll(r.notes, Events(r.recovery), irreversible)
      && (!Restored(r.recovery) ==> Shut(r.recovery))
    }

    /** Recover from a switch that did not happen, then clear its intent. */
    method Abandon(ghost node: int, ghost was: Store, ghost logWas: seq<Event>, fault: Fault, previous: bool,
                   irreversible: bool)
      returns (o: Outcome<ApplyResult>, ghost at: Phase)
      requires Valid() && StoreAt(was, store, node, Switching)
      requires log == logWas + FaultEvents(fault) && fault.t != Done
      modifies this
      ensures Valid() && Extends(old(trail), old(spawns))
      ensures View() == old(View()).(store := store, disk := disk, proc := proc, net := net, unread := unread)
      ensures (at == Recovering || at == Recovered) && StoreAt(was, store, node, at) && old(unread) <= unread
      ensures irreversible ==> disk == old(disk)
      ensures o.Lives? ==> o.value.Failed? || o.value == StoreThrew
      ensures o.Lives? && o.value.Failed? ==>
                at == Recovered && o.value.fault == fault && Told(logWas, o.value, previous, irreversible)
      ensures o.Lives? && o.value.Failed? && Restored(o.value.recovery) ==> Back(old(Target(disk)))
      ensures o.Died? ==> at == Recovering
    {
      at := Recovering;
      :- Step();
      var recovery, notes :- Recover(previous, irreversible);
      :- Step();
      var saved := Save(store.(intent := None));
      if !saved { return Lives(StoreThrew), at; }
      return Lives(Failed(fault, recovery, notes)), Recovered;
    }

    /** The switch itself, with the node's config already on disk: record the intent, reload,
        apply the host rules, then commit or recover. */
    method SwitchNode(node: int, irreversible: bool) returns (o: Outcome<ApplyResult>, ghost at: Phase)
      requires Valid() && node in store.nodes && FileFor(node)
      modifies this
      ensures Valid() && Extends(old(trail), old(spawns))
      ensures revoked == old(revoked) && reoffered == old(reoffered) && old(unread) <= unread
      ensures StoreAt(old(store), store, node, at) && at != Preparing
      ensures o.Lives? ==> o.value == Applied || o.value.Failed? || o.value == StoreThrew
      ensures o == Lives(Applied) ==> at == Committed && disk == old(disk) && Agrees(node)
      ensures o == Lives(Applied) ==> log == old(log) + [Reloaded(Done), Netted(Done)]
      ensures o.Lives? && o.value.Failed? ==>
                at == Recovered && Told(old(log), o.value, Previous(old(store)), irreversible)
      ensures o.Lives? && o.value.Failed? && Restored(o.value.recovery) ==> Back(old(Target(disk)))
      ensures o.Lives? && o.value.Failed? && irreversible ==> disk == old(disk)
      ensures at == Recovered ==> o.Lives?
      ensures o.Lives? && at == Committed ==> o == Lives(Applied)
      ensures smooth ==> o == Lives(Applied) && !store.pending
    {
      at := ConfigWritten;
      var previous := Previous(store);
      :- Step();
      var saved := Save(store.(intent := Some(node)));
      if !saved { return Lives(StoreThrew), at; }
      at := Switching;
      var fault :- SwitchRuntime();
      if fault.Some? {
        o, at := Abandon(node, old(store), old(log), fault.value, previous, irreversible);
        return;
      }
      var c;
      c, at := Commit(node, old(store));
      if c.Died? { return Died, at; }
      return Lives(if c.value then Applied else StoreThrew), at;
    }

    /** Build, validate and write, record the intent, reload, apply the host rules, commit. */
    method ApplyNode(node: int, irreversible: bool) returns (o: Outcome<ApplyResult>, ghost at: Phase)
      requires Valid() && node in store.nodes
      modifies this
      ensures Valid() && Extends(old(trail), old(spawns))
      ensures revoked == old(revoked) && reoffered == old(reoffered) && old(unread) <= unread
      ensures StoreAt(old(store), store, node, at)
      // an ok result
      ensures o == Lives(Applied) ==> at == Committed && Agrees(node) && BuiltFor(node)
      ensures o == Lives(Applied) ==> log == old(log) + [Reloaded(Done), Netted(Done)]
      // a validation failure, and a write that raised
      ensures o == Lives(Invalid) || o == Lives(WriteFailed) ==>
                View() == old(View()).(disk := disk) && disk.live == old(disk).live
      ensures o == Lives(Invalid) && !irreversible ==> disk == old(disk)
      // a later failure
      ensures o.Lives? && o.value.Failed? ==>
                && at == Recovered
                && Told(old(log), o.value, old(store).active.Some? && old(store).active.value in old(store).nodes,
                        irreversible)
      ensures o.Lives? && o.value.Failed? && Restored(o.value.recovery) ==> Reverted(old(disk), node)
      ensures o.Lives? && o.value.Failed? && irreversible ==> BuiltFor(node) && disk.pairing == Invalidated
      // a crash
      ensures at == Recovered ==> o.Lives?
      ensures at == Switching ==> BootTarget(store) == Some(node)
      ensures at != Recovered && old(BootTarget(store)) == Some(node) ==> BootTarget(store) == Some(node)
      ensures o.Lives? && at == Committed ==> o == Lives(Applied)
      // no fault
      ensures smooth ==> o == Lives(Applied) && !store.pending
      ensures smooth && !irreversible && old(disk.live).Parsed? ==> Target(disk) == Some(old(disk.live).cfg)
    {
      at := Preparing;
      var w :- WriteNodeConfig(node, irreversible);
      if w == Refused { return Lives(Invalid), at; }
      if w == Threw { return Lives(WriteFailed), at; }
      ghost var written := disk;
      o, at := SwitchNode(node, irreversible);
      BootAfter(old(store), store, node, at);
      if o.Lives? && o.value.Failed? && Restored(o.value.recovery) { BackReverts(old(disk), written, node); }
    }

    /** A restored tunnel runs the config the apply replaced. Or it runs the older snapshot: only where
        the replaced file could not be read, the older marker could not be dropped, and that marker
        pairs the snapshot with this very config for `node`. In either case only if the store grants it. */
    ghost predicate Reverted(was: Disk, node: int)
      reads this
    {
      && proc == Up(disk.live) && net == Tproxy && Beyond(store.rw, disk.live) <= unread
      && (|| (was.live.Parsed? && (Within(store.rw, was.live) ==> disk.live == was.live))
          || (&& was.lastgood.Parsed? && was.pairing.Paired? && was.pairing.lastgood == was.lastgood.cfg
              && Names(was.pairing.live, node) && LiveGrants(was.pairing.live) == Granted(store.rw)
              && (Within(store.rw, was.lastgood) ==> disk.live == was.lastgood)))
    }

    /** Rolling back the write that turned `was` into `written` reverts it. */
    lemma BackReverts(was: Disk, written: Disk, node: int)
      requires Loadable(written.live) && Filed(was, written.live.cfg, written) && Back(Target(written))
      requires Names(written.live.cfg, node) && FileGrants(written.live) == Granted(store.rw)
      ensures Reverted(was, node)
    {
      assert LiveGrants(written.live.cfg) == Granted(store.rw);
    }

    // ----- boot ----------------------------------------------------------------------------

    /** Which node to re-establish; an intent that names no stored node is dropped. */
    method PendingOrActive() returns (o: Outcome<Option<int>>, threw: bool)
      requires Valid()
      modifies this
      ensures Valid() && Extends(old(trail), old(spawns))
      ensures View() == old(View()).(store := store)
      ensures store == old(store) || store == old(store).(intent := None)
      ensures o.Lives? ==> o.value == BootTarget(old(store)) == BootTarget(store)
      ensures BootTarget(store) == BootTarget(old(store))
      ensures o.Lives? && !threw && store.intent.Some? ==> store.intent == o.value
      ensures smooth ==> o.Lives? && !threw
    {
      threw := false;
      if store.intent.None? || store.intent == store.active { return Lives(store.active), false; }
      if store.intent.value in store.nodes { return Lives(store.intent), false; }
      :- Step();
      var saved := Save(store.(intent := None));
      return Lives(store.active), !saved;
    }

    /** An id that names no stored node is cleared, and the host closed. */
    method ClearStale() returns (o: Outcome<Option<ApplyResult>>)
      requires Valid()
      modifies this
      ensures Valid() && Extends(old(trail), old(spawns))
      ensures View() == old(View()).(store := store, net := net)
      ensures store == old(store) || store == old(store).(active := None, intent := None)
      ensures o == Lives(None) ==> store.active == None && store.intent == None && net == ClosedNet()
      ensures o.Lives? && o.value.Some? ==> o.value.value == StoreThrew || o.value.value == StaleGuardFailed
      ensures smooth ==> o == Lives(None)
    {
      var pulse := Step();
      if pulse.Dead? { return Died; }
      var saved := Save(store.(active := None, intent := None));
      if !saved { return Lives(Some(StoreThrew)); }
      :- Step();
      var guarded := StopNet();
      return Lives(if guarded then None else Some(StaleGuardFailed));
    }

    /** Re-apply the saved node. None when there is no valid one. */
    method Reapply(irreversible: bool) returns (o: Outcome<Option<ApplyResult>>, ghost at: Phase)
      requires Valid()
      modifies this
      ensures Valid() && Extends(old(trail), old(spawns))
      ensures store.rw == old(store).rw && store.nodes == old(store).nodes && store.killSwitch == old(store).killSwitch
      ensures revoked == old(revoked) && reoffered == old(reoffered) && old(unread) <= unread
      ensures store.pending ==> old(store).pending
      // success: everything names the node boot was meant to target
      ensures o == Lives(Some(Applied)) ==>
                HasTarget(old(store)) && Agrees(BootTarget(old(store)).value) && BuiltFor(BootTarget(old(store)).value)
      // no valid node: ids naming missing nodes are cleared, nothing is applied
      ensures o == Lives(None) ==> store.active == None && store.intent == None
      ensures !HasTarget(old(store)) ==>
                disk == old(disk) && proc == old(proc) && unread == old(unread) && o != Lives(Some(Applied))
      ensures o == Lives(None) ==> !HasTarget(old(store))
      ensures !HasTarget(old(store)) ==> store == old(store).(active := store.active, intent := store.intent)
      // a crash before recovery has cleared the intent leaves the target where it was
      ensures o.Died? && at != Recovered && HasTarget(old(store)) ==> BootTarget(store) == BootTarget(old(store))
      // only a success completes a pending revocation
      ensures o.Lives? && store.pending != old(store).pending ==> o == Lives(Some(Applied))
      // no fault
      ensures smooth ==> o == if HasTarget(old(store)) then Lives(Some(Applied)) else Lives(None)
      ensures smooth && HasTarget(old(store)) ==> !store.pending
    {
      at := Preparing;
      var id, threw :- PendingOrActive();
      if threw { return Lives(Some(StoreThrew)), at; }
      if id.None? { return Lives(None), at; }
      if id.value !in store.nodes {
        o := ClearStale();
        return;
      }
      ghost var before := store;
      var r;
      r, at := ApplyNode(id.value, irreversible);
      BootAfter(before, store, id.value, at);
      o := if r.Died? then Died else Lives(Some(r.value));
    }

    /** The panel restarts: the child is gone, the store and the files survive. */
    method Restart()
      requires Valid()
      modifies this
      ensures Valid() && Extends(old(trail), old(spawns))
      ensures View() == old(View()).(proc := Down)
    {
      want := false;
      Put(store, disk, Down, net);
    }

    // ----- revocation ----------------------------------------------------------------------

    /** The last thing that was done was to try to stop xray, and then to close the host. */
    ghost predicate TriedToStop(was: seq<Event>)
      reads this
    {
      |was| + 2 <= |log| && log[|log| - 2].StopTried? && log[|log| - 1].GuardTried?
    }

    ghost predicate StopsTried(was: seq<Event>, how: How)
      reads this
    {
      how == StoppedXray || how == StopFailed ==> TriedToStop(was)
    }

    /** No clean config could be made live, or the process could not be observed: stop xray and
        take the host rules down. */
    method FailSafeStop() returns (o: Outcome<How>)
      requires Valid()
      modifies this
      ensures Valid() && Extends(old(trail), old(spawns))
      ensures View() == old(View()).(proc := proc, net := net)
      ensures proc == old(proc) || proc == Down
      ensures o.Lives? ==> o.value == StoppedXray || o.value == StopFailed
      ensures o == Lives(StoppedXray) ==> proc == Down
      ensures coldStarts == old(coldStarts)
      ensures o.Lives? ==> StopsTried(old(log), o.value)
      ensures smooth ==> o == Lives(StoppedXray) && net == ClosedNet()
    {
      var pulse := Step();
      if pulse.Dead? { return Died; }
      var r := Stop();
      :- Step();
      var _ := StopNet();
      return Lives(if r == Stopped then StoppedXray else StopFailed);
    }

    /** A revocation that cost nothing but the revoked access: what ran runs on, on the file, the host
        rules as they were. */
    ghost predicate RunsOn(was: World)
      reads this
    {
      ServesFile(was.proc.Up?) && net == was.net
    }

    /** The tunnel is up and serves exactly what the store grants. */
    ghost predicate ServesStore()
      reads this
    {
      proc == Up(disk.live) && FileGrants(disk.live) == Granted(store.rw) && net == Tproxy
    }

    /** The file is within the grants, and the process, if there was one, serves it. */
    ghost predicate ServesFile(wasUp: bool)
      reads this
    {
      && proc == (if wasUp then Up(disk.live) else Down)
      && Loadable(disk.live) && Within(store.rw, disk.live)
    }

    /** The file holds no remote-access inbound, which proves nothing about a process that is up
        or cannot be observed: only its reload onto that file, or its stop, ends this. */
    method PushCleanFile(running: Option<bool>) returns (o: Outcome<How>)
      requires Valid() && !MayHoldInbound(disk.live)
      requires running == Some(false) ==> proc == Down
      modifies this
      ensures Valid() && Extends(old(trail), old(spawns))
      ensures View() == old(View()).(proc := proc, net := net)
      ensures o.Lives? && Proves(o.value) ==> Calm(View())
      ensures old(proc) == Down ==> proc == Down
      ensures coldStarts == old(coldStarts)
      ensures o.Lives? ==> StopsTried(old(log), o.value)
      ensures smooth ==> o.Lives? && Proves(o.value)
      ensures smooth && running == Some(old(proc).Up?) ==> RunsOn(old(View()))
    {
      NoInboundNoGrants(disk.live);
      if running == Some(false) { return Lives(NotLive); }
      if running == Some(true) {
        var reloaded :- ReloadIfRunning();
        if reloaded == Some(true) { return Lives(Rebuilt); }
        if reloaded == None { return Lives(NotLive); }
      }
      o := FailSafeStop();
    }

    /** With the file in line (or not): tell a child that is up to pick it up, report one that is
        down as cleaned up after, and stop anything else. */
    method ReloadOrStop(running: Option<bool>, clean: bool) returns (o: Outcome<How>)
      requires Valid()
      requires running == Some(false) ==> proc == Down
      requires clean ==> Loadable(disk.live) && Within(store.rw, disk.live)
      modifies this
      ensures Valid() && Extends(old(trail), old(spawns))
      ensures View() == old(View()).(proc := proc, net := net)
      ensures o.Lives? && Proves(o.value) ==> Calm(View())
      ensures old(proc) == Down ==> proc == Down
      ensures coldStarts == old(coldStarts)
      ensures o.Lives? ==> StopsTried(old(log), o.value)
      ensures smooth ==> o.Lives? && Proves(o.value)
      ensures smooth && running == Some(old(proc).Up?) && clean ==> RunsOn(old(View()))
    {
      var now := running;
      if running == Some(true) && clean {
        var reloaded :- ReloadIfRunning();
        if reloaded == Some(true) { return Lives(Rebuilt); }
        if reloaded == None { now := Some(false); }
      }
      if now == Some(false) && clean { return Lives(Cleaned); }
      o := FailSafeStop();
    }

    /** The file is `was` with the inbound brought into line, or as it was if it held none. */
    ghost predicate InLine(was: File)
      requires Loadable(was)
      reads this
    {
      if exists i :: i in Get(was.cfg, KInbounds).items && IsRw(i)
      then disk.live == Parsed(Reconciled(store.rw, mark, was.cfg)) else disk.live == was
    }

    /** Make the runtime stop serving what the store stopped granting, and report how. The file
        and the process are two questions: rewriting the file is safe whatever the process does,
        and only a child that is up may be told to pick it up. */
    method PushToRuntime(running: Option<bool>, faultless: bool) returns (o: Outcome<How>)
      requires Valid()
      requires running == Some(false) ==> proc == Down
      modifies this
      ensures Valid() && Extends(old(trail), old(spawns))
      ensures View() == old(View()).(disk := disk, proc := proc, net := net)
      ensures disk.lastgood == old(disk).lastgood
      ensures o.Lives? && Proves(o.value) ==> Calm(View())
      ensures old(proc) == Down ==> proc == Down
      ensures faultless && AtRest(old(store), old(disk)) ==> disk == old(disk)
      ensures coldStarts == old(coldStarts)
      ensures o.Lives? ==> StopsTried(old(log), o.value)
      ensures smooth ==> o.Lives? && Proves(o.value)
      ensures smooth && running == Some(old(proc).Up?) && CanBeCleaned(old(store), old(disk)) ==> RunsOn(old(View()))
      ensures smooth && Loadable(old(disk).live) ==> InLine(old(disk).live)
    {
      var noRead := MayFail(faultless);
      if !noRead && !MayHoldInbound(disk.live) {
        o := PushCleanFile(running);
        return;
      }
      var clean :- WriteConfig(faultless);
      o := ReloadOrStop(running, clean);
    }

    /** A child that is up is told by an irreversible rebuild: true if that was applied. Else `running` is
        what is known of the process afterwards. */
    method RebuildFirst() returns (o: Outcome<bool>, running: Option<bool>)
      requires Valid()
      modifies this
      ensures Valid() && Extends(old(trail), old(spawns))
      ensures store.rw == old(store).rw && store.nodes == old(store).nodes && store.killSwitch == old(store).killSwitch
      ensures revoked == old(revoked) && reoffered == old(reoffered) && old(unread) <= unread
      ensures store.pending ==> old(store).pending
      ensures o == Lives(true) ==> Calm(View())
      ensures o == Lives(false) ==> store.pending == old(store).pending
      ensures running == Some(false) ==> proc == Down
      ensures old(proc) == Down ==> proc == Down && o == Lives(false)
      ensures smooth ==> o == Lives(old(proc).Up? && HasTarget(old(store)))
      ensures smooth && o == Lives(true) ==> ServesFile(true) && ServesStore() && HasTarget(store)
      ensures smooth && o == Lives(false) ==>
                && running == Some(old(proc).Up?) && proc == old(proc) && disk == old(disk)
                && (CanBeCleaned(old(store), old(disk)) ==> CanBeCleaned(store, disk))
    {
      running := Running();
      if running != Some(true) { return Lives(false), running; }
      ghost var at;
      var res;
      res, at := Reapply(true);
      if res.Died? { return Died, running; }
      if res.value == Some(Applied) { return Lives(true), running; }
      if res.value.Some? { running := Running(); }
      return Lives(false), running;
    }

    /** The runtime half of a revocation, once. */
    method RevokeApply() returns (o: Outcome<How>)
      requires Valid()
      modifies this
      ensures Valid() && Extends(old(trail), old(spawns))
      ensures store.rw == old(store).rw && store.nodes == old(store).nodes && store.killSwitch == old(store).killSwitch
      ensures revoked == old(revoked) && reoffered == old(reoffered) && old(unread) <= unread
      ensures store.pending ==> old(store).pending
      ensures o.Lives? && Proves(o.value) ==> Calm(View())
      ensures o.Lives? && store.pending != old(store).pending ==> Calm(View())
      ensures old(proc) == Down ==> proc == Down
      ensures smooth ==> o.Lives? && Proves(o.value)
      ensures smooth && CanBeCleaned(old(store), old(disk)) ==> ServesFile(old(proc).Up?)
      ensures smooth && old(proc).Up? && HasTarget(old(store)) ==>
                && o == Lives(Reapplied) && HasTarget(store)
                && ServesStore()
    {
      var done, running :- RebuildFirst();
      if done { return Lives(Reapplied); }
      :- Step();
      o := PushToRuntime(running, false);
    }

    /** Push a committed revocation into the running xray. Whatever it did, the rollback target
        is dropped; the marker goes only on a proven outcome. */
    method Revoke() returns (o: Outcome<How>)
      requires Valid()
      modifies this
      ensures Valid() && Extends(old(trail), old(spawns))
      ensures store.rw == old(store).rw && store.nodes == old(store).nodes && store.killSwitch == old(store).killSwitch
      ensures revoked == old(revoked) && reoffered == old(reoffered) && old(unread) <= unread
      ensures o.Lives? && old(store).pending && !store.pending ==> Calm(View())
      ensures old(proc) == Down ==> proc == Down
      ensures smooth ==> o.Lives? && Proves(o.value) && !store.pending && Calm(View()) && disk.pairing == Invalidated
      ensures smooth && CanBeCleaned(old(store), old(disk)) ==> ServesFile(old(proc).Up?)
      ensures smooth && old(proc).Up? && HasTarget(old(store)) ==>
                && o == Lives(Reapplied) && HasTarget(store)
                && ServesStore()
    {
      var how :- RevokeApply();
      var _ := InvalidateRollback();
      :- Step();
      if Proves(how) { var _ :- ClearMarker(); }
      return Lives(how);
    }

    /** The store half of a narrowing save: the new grants and the marker commit together, and what
        got past an earlier marker is under this one. */
    method CommitNarrower(rw: Option<RwInbound>)
      requires Valid()
      modifies this
      ensures Valid() && Extends(old(trail), old(spawns))
      ensures View() == old(View()).(store := old(store).(rw := rw, pending := true),
                                     revoked := (old(revoked) + Granted(old(store).rw)) - Granted(rw),
                                     reoffered := {}, unread := {})
    {
      Become(store.(rw := rw, pending := true), disk, proc, net, (revoked + Granted(store.rw)) - Granted(rw), {}, {});
    }

    /** A save that narrows remote access: commit, then revoke. */
    method SaveNarrower(rw: Option<RwInbound>) returns (o: Outcome<Option<How>>)
      requires Valid()
      modifies this
      ensures Valid() && Extends(old(trail), old(spawns))
      ensures store.rw == old(store).rw || store.rw == rw
      ensures o == Lives(None) ==> View() == old(View())
      ensures o.Lives? && o.value.Some? ==> store.rw == rw
      ensures (store.rw == old(store).rw && revoked == old(revoked))
              || (store.rw == rw && revoked == (old(revoked) + Granted(old(store).rw)) - Granted(rw))
      ensures o.Lives? && o.value.Some? ==> revoked == (old(revoked) + Granted(old(store).rw)) - Granted(rw)
      ensures o.Lives? && o.value.Some? && !store.pending ==> Served(proc) !! (Granted(old(store).rw) - Granted(rw))
      ensures old(proc) == Down ==> proc == Down
      ensures smooth ==> o.Lives? && o.value.Some? && Proves(o.value.value) && !store.pending && Target(disk) == None
      ensures smooth && CanBeCleaned(old(store), old(disk)) ==> ServesFile(old(proc).Up?)
      ensures smooth && old(proc).Up? && HasTarget(old(store)) ==>
                && o == Lives(Some(Reapplied)) && HasTarget(store) && store.nodes == old(store).nodes
                && ServesStore()
    {
      var aborted := Fails();
      if aborted { return Lives(None); }
      CommitNarrower(rw);
      :- Step();
      var how :- Revoke();
      return Lives(Some(how));
    }

    /** The body of a save that only offers access: settings and apply, inside the transaction. */
    method Offer(rw: Option<RwInbound>) returns (o: Outcome<Option<ApplyResult>>)
      requires Valid()
      modifies this
      ensures Valid() && Extends(old(trail), old(spawns))
      ensures store.rw == rw && store.nodes == old(store).nodes && (store.pending ==> old(store).pending)
      ensures revoked == old(revoked) - Granted(rw) && reoffered == old(reoffered) && old(unread) <= unread
      ensures !HasTarget(old(store)) ==> proc == old(proc) && disk == old(disk) && unread == old(unread)
      ensures o == Lives(Some(Applied)) ==> proc == Up(disk.live) && FileGrants(disk.live) == Granted(rw)
      ensures o == Lives(None) ==> !HasTarget(old(store))
      ensures smooth ==> o == if HasTarget(old(store)) then Lives(Some(Applied)) else Lives(None)
    {
      Become(store.(rw := rw), disk, proc, net, revoked - Granted(rw), reoffered, unread);
      ghost var at;
      o, at := Reapply(false);
    }

    /** The transaction of such a save rolls back: the store takes the settings, the marker and the
        selection back down, the runtime keeps what the apply did. */
    method AbortSave(rw: Option<RwInbound>, snapshot: Store, ghost taken: set<Token>)
      requires Valid() && revoked == taken - Granted(rw)
      requires taken !! Granted(snapshot.rw) && forall id :: id in snapshot.nodes ==> NodeOk(snapshot.nodes, id)
      requires store.pending ==> snapshot.pending
      requires snapshot.pending || HasTarget(snapshot) || Served(proc) * taken <= reoffered + unread
      modifies this
      ensures Valid() && Extends(old(trail), old(spawns))
      ensures View() == old(View()).(store := snapshot, revoked := taken,
                                     reoffered := old(reoffered) + Reoffers(snapshot, taken, rw))
    {
      ghost var past := reoffered + Reoffers(snapshot, taken, rw);
      if !snapshot.pending && HasTarget(snapshot) {
        assert Quiet(View());
        PastTheMarker(Served(proc), taken, Granted(rw), reoffered, unread);
      }
      Become(snapshot, disk, proc, net, taken, past, unread);
    }

    /** A save that only offers access runs its apply inside the store transaction: an apply that
        fails, a commit that raises, or a crash takes the stored settings back down. The revoked grants
        it offered are then past the marker, exactly those `Reoffers` names. */
    method SaveWider(rw: Option<RwInbound>) returns (o: Outcome<bool>)
      requires Valid()
      modifies this
      ensures Valid() && Extends(old(trail), old(spawns))
      ensures o == Lives(true) ==>
                store.rw == rw && revoked == old(revoked) - Granted(rw) && reoffered == old(reoffered)
      ensures o != Lives(true) ==>
                && store == old(store) && revoked == old(revoked)
                && reoffered == old(reoffered) + Reoffers(old(store), old(revoked), rw)
      ensures !HasTarget(old(store)) ==> proc == old(proc)
      ensures o == Lives(true) && HasTarget(old(store)) ==>
                proc == Up(disk.live) && FileGrants(disk.live) == Granted(rw)
      ensures smooth ==> o == Lives(true) && store.nodes == old(store).nodes
    {
      ghost var taken := revoked;
      var snapshot := store;
      var res := Offer(rw);
      var aborted := Fails();
      if res.Lives? && !aborted && (res.value == None || res.value == Some(Applied)) { return Lives(true); }
      AbortSave(rw, snapshot, taken);
      return if res.Died? then Died else Lives(false);
    }

    // ----- the retry -----------------------------------------------------------------------

    /** Drop the rollback target unless it was read and grants nothing the store does not: kept exactly
        then, as far as the marker can be rewritten. */
    method DropUnsafeRollback(read: bool) returns (ok: bool)
      requires Valid()
      modifies this
      ensures Valid() && Extends(old(trail), old(spawns))
      ensures View() == old(View()).(disk := disk)
      ensures disk == old(disk) || disk == old(disk).(pairing := Invalidated)
      ensures read && SafeTarget(store, old(disk)) ==> disk == old(disk) && ok
      ensures !(read && SafeTarget(store, old(disk))) && ok ==> disk.pairing == Invalidated
      ensures smooth ==> ok
      ensures coldStarts == old(coldStarts) && log == old(log)
    {
      var target := Target(disk);
      if read && target.Some? && !Excess(store.rw, target.value) { return true; }
      ok := InvalidateRollback();
    }

    /** The sweep of a retry: nothing if the files cannot be got at, else as above. */
    method SweepRollback(faultless: bool)
      requires Valid()
      modifies this
      ensures Valid() && Extends(old(trail), old(spawns))
      ensures View() == old(View()).(disk := disk)
      ensures faultless && SafeTarget(store, old(disk)) ==> disk == old(disk)
      ensures coldStarts == old(coldStarts) && log == old(log)
      ensures smooth ==>
                disk == if SafeTarget(store, old(disk)) then old(disk) else old(disk).(pairing := Invalidated)
    {
      var noManager := MayFail(faultless);
      var noRead := MayFail(faultless);
      if !noManager { var _ := DropUnsafeRollback(!noRead); }
    }

    /** The runtime half of a retry: push, then sweep the rollback target. */
    method PushAndSweep(faultless: bool) returns (o: Outcome<How>)
      requires Valid()
      modifies this
      ensures Valid() && Extends(old(trail), old(spawns))
      ensures View() == old(View()).(disk := disk, proc := proc, net := net)
      ensures o.Lives? && Proves(o.value) ==> Calm(View())
      ensures o.Lives? ==> StopsTried(old(log), o.value)
      ensures old(proc) == Down ==> proc == Down
      ensures coldStarts == old(coldStarts)
      ensures faultless && AtRest(old(store), old(disk)) && SafeTarget(old(store), old(disk)) ==> disk == old(disk)
      ensures smooth ==> o.Lives? && Proves(o.value)
      ensures smooth && CanBeCleaned(old(store), old(disk)) ==> RunsOn(old(View()))
      ensures smooth && Loadable(old(disk).live) ==> InLine(old(disk).live)
      ensures smooth ==> Target(disk) == None || SafeTarget(store, disk)
    {
      var running := Running();
      var how :- PushToRuntime(running, faultless);
      SweepRollback(faultless);
      return Lives(how);
    }

    /** Finish a revocation whose store half committed and whose runtime half did not. */
    method ReconcilePending(faultless: bool) returns (o: Outcome<bool>)
      requires Valid()
      modifies this
      ensures Valid() && Extends(old(trail), old(spawns))
      ensures View() == old(View()).(store := store, disk := disk, proc := proc, net := net)
      ensures store == old(store) || store == old(store).(pending := false)
      ensures o == Lives(true) && old(store).pending && faultless ==> !store.pending && Calm(View())
      ensures !old(store).pending ==> View() == old(View())
      // the marker goes only on a proven outcome
      ensures old(store).pending && !store.pending ==> Calm(View())
      // short of that it has tried to stop xray and close the host, or only the marker is left
      ensures o == Lives(false) ==> TriedToStop(old(log)) || Calm(View())
      // it never starts a process that is down
      ensures old(proc) == Down ==> proc == Down
      ensures coldStarts == old(coldStarts)
      // it keeps a rollback target within the store's grants while the file is at rest
      ensures faultless && AtRest(old(store), old(disk)) && SafeTarget(old(store), old(disk)) ==> disk == old(disk)
      // no fault: the revocation is finished, what ran runs on, and no unsafe target is left
      ensures smooth && old(store).pending ==> o == Lives(true) && !store.pending && Calm(View())
      ensures smooth && old(store).pending && CanBeCleaned(old(store), old(disk)) ==> RunsOn(old(View()))
      ensures smooth && old(store).pending && Loadable(old(disk).live) ==> InLine(old(disk).live)
      ensures smooth && old(store).pending ==> Target(disk) == None || SafeTarget(store, disk)
    {
      var unanswered := MayFail(faultless);
      if unanswered || !store.pending { return Lives(true); }
      var how :- PushAndSweep(faultless);
      :- Step();
      if !Proves(how) { return Lives(false); }
      var cleared :- ClearMarker();
      return Lives(cleared);
    }

    // ----- rollback ------------------------------------------------------------------------

    /** Install the candidate only in a form the store grants; false leaves the live file as it
        was. */
    method GuardPromotion(candidate: Json) returns (o: Outcome<bool>)
      requires Valid() && Target(disk) == Some(candidate)
      modifies this
      ensures Valid() && Extends(old(trail), old(spawns))
      ensures View() == old(View()).(disk := disk)
      ensures o == Lives(false) ==> disk.live == old(disk).live
      ensures o == Lives(true) ==> Within(store.rw, disk.live)
      ensures o == Lives(true) && Excess(store.rw, candidate) ==> Target(disk) == None
      ensures o == Lives(true) && !Excess(store.rw, candidate) ==> disk.live == Parsed(candidate)
      ensures o == Lives(true) && Excess(store.rw, candidate) ==>
                Shaped(candidate) && disk.live == Parsed(Reconciled(store.rw, mark, candidate))
      ensures o == Lives(true) && Shaped(candidate) ==> Loadable(disk.live)
      ensures smooth ==> o == Lives(!Excess(store.rw, candidate) || Shaped(candidate))
    {
      if !Excess(store.rw, candidate) {
        var w :- RollBack();
        if w == Threw { return Died; }
        return Lives(w == Written);
      }
      if !Shaped(candidate) { return Lives(false); }
      var clean := ReconcileConfig(store.rw, mark, candidate);
      ReconciledGrants(store.rw, mark, candidate);
      var w :- ApplyIrreversible(clean);
      return Lives(w == Written);
    }

    /** Reload onto the promoted config and apply the host rules, or close down. */
    method RunPromoted() returns (o: Outcome<bool>)
      requires Valid() && Within(store.rw, disk.live)
      modifies this
      ensures Valid() && Extends(old(trail), old(spawns))
      ensures View() == old(View()).(proc := proc, net := net)
      ensures o == Lives(true) ==> proc == Up(disk.live) && net == Tproxy
      ensures smooth && Loadable(disk.live) ==> o == Lives(true)
    {
      var fault :- SwitchRuntime();
      if fault.None? { return Lives(true); }
      var _ :- CloseDown();
      return Lives(false);
    }

    /** The runtime half of a promoted rollback: reload if there was a previous node, else stop. */
    method FollowPromotion() returns (o: Outcome<bool>)
      requires Valid() && Within(store.rw, disk.live)
      modifies this
      ensures Valid() && Extends(old(trail), old(spawns))
      ensures View() == old(View()).(store := old(store).(active := store.active), proc := proc, net := net)
      ensures o == Lives(true) ==> store.active == store.prev
      ensures o == Lives(true) && store.prev.Some? ==> proc == Up(disk.live) && net == Tproxy
      ensures o == Lives(true) && store.prev.None? ==> proc == Down && net == ClosedNet()
      ensures smooth && (store.prev.None? || Loadable(disk.live)) ==> o == Lives(true)
      ensures o == Lives(false) ==> store == old(store)
    {
      if store.prev.Some? {
        var up :- RunPromoted();
        if !up { return Lives(false); }
      } else {
        var c :- CloseDown();
        if c != (Stopped, true) { return Lives(false); }
      }
      :- Step();
      var saved := Save(store.(active := store.prev));
      if !saved { return Died; }
      return Lives(true);
    }

    /** Promote the last-good config, then make the runtime match it. */
    method Rollback() returns (o: Outcome<RollbackResult>)
      requires Valid()
      modifies this
      ensures Valid() && Extends(old(trail), old(spawns))
      ensures store.rw == old(store).rw && store.pending == old(store).pending && unread == old(unread)
      ensures o == Lives(NoTarget) || o == Lives(NotPromoted) ==>
                disk.live == old(disk).live && proc == old(proc) && net == old(net) && store == old(store)
      ensures Target(old(disk)).None? ==> o == Lives(NoTarget)
      ensures smooth && Target(old(disk)).Some? ==> o != Lives(NoTarget)
      ensures smooth && Target(old(disk)).Some? && Shaped(Target(old(disk)).value) ==> o == Lives(Promoted)
      ensures o == Lives(Promoted) ==> Within(store.rw, disk.live) && store.active == store.prev == old(store).prev
      ensures o == Lives(Promoted) && store.prev.Some? ==> proc == Up(disk.live) && net == Tproxy
      ensures o == Lives(Promoted) && store.prev.None? ==> proc == Down && net == ClosedNet()
    {
      var candidate := ReadTarget();
      if candidate.None? { return Lives(NoTarget); }
      var promoted :- GuardPromotion(candidate.value);
      if !promoted { return Lives(NotPromoted); }
      var followed :- FollowPromotion();
      return Lives(if followed then Promoted else PromotedThenFailed);
    }

    // ----- the other steps that move the runtime --------------------------------------------

    /** Start xray: bring the active node's tunnel back, else serve the file as found. False is a
        refusal or a failed apply. */
    method XrayStart() returns (o: Outcome<bool>)
      requires Valid()
      modifies this
      ensures Valid() && Extends(old(trail), old(spawns))
      ensures store.rw == old(store).rw && reoffered == old(reoffered) && old(unread) <= unread
      ensures o == Lives(true) && HasTarget(old(store)) ==> Agrees(BootTarget(old(store)).value)
      ensures o == Lives(true) && !HasTarget(old(store)) ==>
                && want
                && (|| proc == old(proc) || proc == Down
                    || (proc == Up(disk.live) && Beyond(store.rw, disk.live) <= unread))
      ensures o == Lives(false) && !HasTarget(old(store)) ==> proc == old(proc)
      ensures smooth ==> o == Lives(true)
      ensures smooth && !HasTarget(old(store)) && old(proc) == Down && Loadable(old(disk).live) ==>
                proc == Up(disk.live) && Within(store.rw, disk.live)
    {
      ghost var at;
      var res;
      res, at := Reapply(false);
      if res.Died? { return Died; }
      if res.value.Some? { return Lives(res.value == Some(Applied)); }
      var may, _ :- StartGuard();
      if !may { return Lives(false); }
      var _ :- Start();
      return Lives(true);
    }

    /** Stop xray and close the host; the selection is kept. A stop that raises escapes before the
        host is closed. */
    method XrayStop() returns (o: Outcome<bool>)
      requires Valid()
      modifies this
      ensures Valid() && Extends(old(trail), old(spawns))
      ensures View() == old(View()).(proc := proc, net := net) && !want
      ensures o == Lives(true) ==> proc == Down && net == ClosedNet()
      ensures o == Lives(false) ==> proc.Up? || net == old(net) || net == Unconfirmed
      ensures proc == old(proc) || proc == Down
      ensures smooth ==> o == Lives(true)
    {
      var r := Stop();
      if r == StopThrew { return Died; }
      :- Step();
      var ok := StopNet();
      return Lives(ok && r == Stopped);
    }

    /** Leaves xray running on the config it loaded; the node becomes the previous one. */
    method Disconnect(node: int) returns (o: Outcome<bool>)
      requires Valid()
      modifies this
      ensures Valid() && Extends(old(trail), old(spawns))
      ensures View() == old(View()).(store := store, net := net)
      ensures o == Lives(true) ==>
                && old(store).active == Some(node) && net == ClosedNet()
                && store == old(store).(prev := Some(node), active := None)
      ensures o != Lives(true) ==> store == old(store)
      ensures old(store).active != Some(node) ==> o == Lives(false) && net == old(net)
      ensures smooth && old(store).active == Some(node) ==> o == Lives(true)
    {
      if store.active != Some(node) { return Lives(false); }
      var ok := StopNet();
      if !ok { return Lives(false); }
      :- Step();
      ok := Save(store.(prev := store.active, active := None));
      return Lives(ok);
    }

    /** Respawn a child that died although it was wanted. */
    method Watchdog() returns (o: Outcome<()>)
      requires Valid()
      modifies this
      ensures Valid() && Extends(old(trail), old(spawns))
      ensures View() == old(View()).(disk := disk, proc := proc, unread := unread) && old(unread) <= unread
      ensures !old(want) ==> disk == old(disk) && (proc == old(proc) || proc == Down) && spawns == old(spawns)
      ensures proc == old(proc) || proc == Down || (proc == Up(disk.live) && Beyond(store.rw, disk.live) <= unread)
      ensures smooth && old(want) && old(proc) == Down && Loadable(old(disk).live) ==>
                proc == Up(disk.live) && Within(store.rw, disk.live)
    {
      ChildMayExit();
      if !want || proc.Up? { return Lives(()); }
      o := StartChild(false);
    }

    /** Nodes are added, edited or removed. */
    method EditNodes(nodes: map<int, Base>)
      requires Valid() && forall id :: id in nodes ==> NodeOk(nodes, id)
      modifies this
      ensures Valid() && Extends(old(trail), old(spawns))
      ensures View() == old(View()).(store := old(store).(nodes := nodes))
    {
      Put(store.(nodes := nodes), disk, proc, net);
    }

    /** A restored document's rows replace the configuration while xray is down. */
    method ImportRows(rw: Option<RwInbound>, nodes: map<int, Base>, killSwitch: bool)
      requires Valid() && proc == Down && forall id :: id in nodes ==> NodeOk(nodes, id)
      modifies this
      ensures Valid() && Extends(old(trail), old(spawns))
      ensures View() == old(View()).(store := old(store).(rw := rw, nodes := nodes, killSwitch := killSwitch,
                                                          active := None, prev := None, intent := None),
                                     revoked := (old(revoked) + Granted(old(store).rw)) - Granted(rw))
    {
      Become(store.(rw := rw, nodes := nodes, killSwitch := killSwitch, active := None, prev := None, intent := None),
             disk, proc, net, (revoked + Granted(store.rw)) - Granted(rw), reoffered, unread);
    }

    /** The transaction that imported them rolls back. */
    method RevertRows(rows: Store, ghost taken: set<Token>)
      requires Valid() && proc == Down
      requires taken !! Granted(rows.rw) && forall id :: id in rows.nodes ==> NodeOk(rows.nodes, id)
      modifies this
      ensures Valid() && Extends(old(trail), old(spawns))
      ensures View() == old(View()).(store := rows, revoked := taken)
    {
      Become(rows, disk, proc, net, taken, reoffered, unread);
    }
  }
}
