/** Restoring a backup document: everything that can refuse is asked while the gateway still runs;
    then xray is stopped, the host closed, the record of what the restore may put on the host armed,
    and the document's rows and host pass applied in one store transaction. */
module Restore {
  import opened Basics
  import opened Xray
  import opened Gateway

  /** What a validated document sets: its remote-access projection, nodes and kill-switch. */
  datatype Document = Document(rw: Option<RwInbound>, nodes: map<int, Base>, killSwitch: bool)

  /** The undo record. An unarmed one keeps an interface covered and licenses no removal. */
  datatype Record = Settled | Unarmed | Armed

  /** A host-provisioning pass: from the document's rows or the previous ones, whether it could put
      anything on the host, and the record then. */
  datatype Pass = Pass(document: bool, candidate: bool, record: Record)

  datatype Refusal = InvalidDocument | NoSnapshot | NoCandidate | NotRecorded | NoGuardPlan

  datatype Result =
    | Restored
    | Declined(why: Refusal)     // before anything was stopped
    | StillRunning              // xray did not stop
    | NotEnforced | NotArmed    // stopped, but the host pass was never started
    | ApplyFailed               // the transaction rolled back

  ghost predicate DocumentOk(d: Document) {
    forall id :: id in d.nodes ==> NodeOk(d.nodes, id)
  }

  /** The configuration rows of `s`, whatever its selection. */
  function Rows(s: Store): (Option<RwInbound>, map<int, Base>, bool) {
    (s.rw, s.nodes, s.killSwitch)
  }

  function DocumentRows(d: Document): (Option<RwInbound>, map<int, Base>, bool) {
    (d.rw, d.nodes, d.killSwitch)
  }

  function Deselect(s: Store): Store {
    s.(active := None, prev := None, intent := None)
  }

  /** Fully the previous rows, the selection kept or dropped; or fully the document's, with none. */
  predicate OneSide(was: Store, d: Document, now: Store) {
    || now == was || now == Deselect(was)
    || now == Deselect(was).(rw := d.rw, nodes := d.nodes, killSwitch := d.killSwitch)
  }

  /** No selected node, no intent. */
  predicate Deselected(s: Store) {
    s.active == None && s.prev == None && s.intent == None
  }

  class Restorer {
    const gw: Gateway
    var record: Record
    ghost var passes: seq<Pass>
    ghost var stranded: bool      // a rolled-back pass may have left its candidate on the host

    constructor (gw: Gateway)
      requires gw.Valid()
      ensures Valid() && this.gw == gw && !stranded
    {
      this.gw := gw;
      record, passes, stranded := Settled, [], false;
    }

    ghost predicate Valid()
      reads this, gw
    {
      gw.Valid()
    }

    /** Since `was`, no document was installed on the host without an armed record. */
    ghost predicate PassesArmed(was: seq<Pass>)
      reads this
    {
      && was <= passes
      && forall i :: |was| <= i < |passes| && passes[i].document && passes[i].candidate ==> passes[i].record == Armed
    }

    /** Since `was`, no document was installed on the host at all. */
    ghost predicate NoDocumentPass(was: seq<Pass>)
      reads this
    {
      was <= passes && forall i :: |was| <= i < |passes| ==> !passes[i].document
    }

    /** There was a pass since `was`, and the last one installed the document, or the previous rows. */
    ghost predicate LastPass(was: seq<Pass>, document: bool)
      reads this
    {
      |was| < |passes| && passes[|passes| - 1].document == document
    }

    /** A record write that is read back: true only when it holds. Nothing is written for an empty
        candidate. */
    method WriteRecord(candidate: bool, r: Record) returns (ok: bool)
      modifies this`record
      ensures ok && candidate ==> record == r
      ensures record == old(record) || (candidate && record == r)
      ensures gw.smooth ==> ok
    {
      if !candidate { return true; }
      var threw := gw.Fails();
      if threw { return false; }
      record := r;
      var notDurable := gw.Fails();
      ok := !notDurable;
    }

    /** Settling is best effort, and only what this restore recorded is settled. */
    method Settle(candidate: bool)
      modifies this`record
      ensures record == old(record) || (candidate && record == Settled)
      ensures gw.smooth && candidate ==> record == Settled
    {
      var threw := gw.Fails();
      if candidate && !threw { record := Settled; }
    }

    /** Run the provisioning pass from the stored rows; false when it failed or raised. */
    method HostPass(ghost document: bool, ghost candidate: bool) returns (o: Outcome<bool>)
      modifies this`passes, this`stranded
      ensures passes == old(passes) + [Pass(document, candidate, record)]
      ensures stranded == (old(stranded) || (document && candidate))
      ensures gw.smooth ==> o == Lives(true)
    {
      passes := passes + [Pass(document, candidate, record)];
      if document && candidate { stranded := true; }
      :- gw.Step();
      var failed := gw.Fails();
      return Lives(!failed);
    }

    /** The questions asked while the gateway still runs. */
    method Preflight() returns (o: Outcome<Option<Refusal>>, candidate: bool)
      modifies this`record
      ensures record == old(record) || record == Unarmed || record == Settled
      ensures o == Lives(None) && candidate ==> record == Unarmed
      ensures o == Lives(None) && !candidate ==> record == old(record)
      ensures gw.smooth ==> o == Lives(None)
    {
      candidate := *;                  // whether the document may put an interface on the host
      var noSnapshot := gw.Fails();
      if noSnapshot { return Lives(Some(NoSnapshot)), candidate; }
      var noCandidate := gw.Fails();
      if noCandidate { return Lives(Some(NoCandidate)), candidate; }
      :- gw.Step();
      var recorded := WriteRecord(candidate, Unarmed);
      if !recorded { return Lives(Some(NotRecorded)), candidate; }
      :- gw.Step();
      var noPlan := gw.Fails();
      if noPlan {
        Settle(candidate);
        return Lives(Some(NoGuardPlan)), candidate;
      }
      return Lives(None), candidate;
    }

    /** Take the gateway down and arm the record. None means the document may now be applied. */
    method TakeDown(candidate: bool) returns (o: Outcome<Option<Result>>)
      requires Valid()
      modifies this`record, gw
      ensures Valid() && gw.Extends(old(gw.trail), old(gw.spawns))
      ensures gw.View() == old(gw.View()).(proc := gw.proc, net := gw.net)
      ensures gw.proc == old(gw.proc) || gw.proc == Down
      ensures candidate || record == old(record)
      ensures o == Lives(None) ==> gw.proc == Down && gw.net == gw.ClosedNet() && (candidate ==> record == Armed)
      ensures o.Lives? && o.value.Some? ==> o.value.value in {StillRunning, NotEnforced, NotArmed}
      ensures o == Lives(Some(StillRunning)) ==> gw.net == old(gw.net)
      ensures o == Lives(Some(NotEnforced)) || o == Lives(Some(NotArmed)) ==> gw.proc == Down
      ensures o == Lives(Some(NotArmed)) ==> gw.net == gw.ClosedNet()
      ensures gw.smooth ==> o == Lives(None)
    {
      var stopped := gw.Stop();
      if stopped == StopThrew { return Died; }
      var running := gw.Running();
      if running.None? { return Died; }
      if running.value {
        Settle(candidate);
        return Lives(Some(StillRunning));
      }
      :- gw.Step();
      var guarded := gw.StopNet();
      if !guarded {
        Settle(candidate);
        return Lives(Some(NotEnforced));
      }
      :- gw.Step();
      var armed := WriteRecord(candidate, Armed);
      if !armed {
        Settle(candidate);
        return Lives(Some(NotArmed));
      }
      return Lives(None);
    }

    /** The body of the restoring transaction: import, deselect, provision, close the host. False
        when a statement raised; the rows are then still the document's or the previous ones. */
    method ImportDocument(doc: Document, candidate: bool) returns (o: Outcome<bool>)
      requires Valid() && DocumentOk(doc) && gw.proc == Down
      requires candidate ==> record == Armed
      modifies this`passes, this`stranded, gw
      ensures Valid() && gw.Extends(old(gw.trail), old(gw.spawns))
      ensures gw.proc == Down && gw.disk == old(gw.disk)
      ensures gw.reoffered == old(gw.reoffered) && gw.unread == old(gw.unread)
      ensures PassesArmed(old(passes))
      ensures stranded ==> old(stranded) || record == Armed
      ensures o == Lives(true) ==>
                && gw.store == Deselect(old(gw.store)).(rw := doc.rw, nodes := doc.nodes, killSwitch := doc.killSwitch)
                && gw.net == gw.ClosedNet() && passes == old(passes) + [Pass(true, candidate, record)]
      ensures gw.smooth ==> o == Lives(true)
    {
      var threw := gw.Fails();
      if threw { return Lives(false); }
      gw.ImportRows(doc.rw, doc.nodes, doc.killSwitch);
      var provisioned :- HostPass(true, candidate);
      if !provisioned { return Lives(false); }
      var guarded := gw.StopNet();
      :- gw.Step();
      return Lives(guarded);
    }

    /** Re-assert the previous host, and remove what the failed pass left elsewhere. */
    method UndoPass(candidate: bool) returns (o: Outcome<()>)
      modifies this
      ensures NoDocumentPass(old(passes))
      ensures o.Lives? ==> passes == old(passes) + [Pass(false, candidate, old(record))]
      ensures stranded ==> old(stranded) && record == old(record)
      ensures record == old(record) || (candidate && record == Settled)
      ensures gw.smooth ==> o == Lives(()) && !stranded && (candidate ==> record == Settled)
    {
      var pass := HostPass(false, candidate);
      if pass.Died? { return Died; }
      var unresolved := gw.Fails();
      if !unresolved {
        stranded := false;             // the undo resolved everything the candidate put there
        Settle(candidate);
      }
      return Lives(());
    }

    /** After the rollback: deselect, re-assert the previous host, remove what the failed pass left
        elsewhere, close the host again. */
    method Recover(candidate: bool) returns (o: Outcome<()>)
      requires Valid() && gw.proc == Down
      modifies this, gw
      ensures Valid() && gw.Extends(old(gw.trail), old(gw.spawns))
      ensures gw.View() == old(gw.View()).(store := gw.store, net := gw.net)
      ensures gw.store == old(gw.store) || gw.store == Deselect(old(gw.store))
      ensures o.Lives? ==> gw.store == Deselect(old(gw.store))
      ensures NoDocumentPass(old(passes))
      ensures o.Lives? ==> passes == old(passes) + [Pass(false, candidate, old(record))]
      ensures stranded ==> old(stranded) && record == old(record)
      ensures record == old(record) || (candidate && record == Settled)
      ensures o.Lives? ==> gw.log == old(gw.log) + [GuardTried(true)] || gw.log == old(gw.log) + [GuardTried(false)]
      ensures gw.smooth ==> o == Lives(()) && gw.net == gw.ClosedNet() && !stranded && (candidate ==> record == Settled)
    {
      var saved := gw.Save(Deselect(gw.store));
      if !saved { return Died; }
      var _ :- UndoPass(candidate);
      :- gw.Step();
      var _ := gw.StopNet();
      return Lives(());
    }

    /** The restoring transaction: the document's rows, or the previous ones. */
    method Transact(doc: Document, candidate: bool) returns (o: Outcome<bool>)
      requires Valid() && DocumentOk(doc) && gw.proc == Down
      requires candidate ==> record == Armed
      modifies this`passes, this`stranded, gw
      ensures Valid() && gw.Extends(old(gw.trail), old(gw.spawns))
      ensures gw.proc == Down && gw.disk == old(gw.disk)
      ensures o == Lives(true) ==>
                && gw.store == Deselect(old(gw.store)).(rw := doc.rw, nodes := doc.nodes, killSwitch := doc.killSwitch)
                && gw.net == gw.ClosedNet() && stranded == old(stranded)
                && passes == old(passes) + [Pass(true, candidate, record)]
      ensures o != Lives(true) ==> gw.store == old(gw.store)
      ensures PassesArmed(old(passes))
      ensures stranded ==> old(stranded) || record == Armed
      ensures gw.smooth ==> o == Lives(true)
    {
      var previous := gw.store;
      ghost var taken := gw.revoked;
      o := ImportDocument(doc, candidate);
      if o == Lives(true) {
        var threw := gw.Fails();
        if !threw {
          stranded := old(stranded);     // the rows name what the pass installed
          return;
        }
        o := Lives(false);
      }
      gw.RevertRows(previous, taken);
    }

    /** Import the document, or roll back to the previous rows and recover. */
    method ApplyDocument(doc: Document, candidate: bool) returns (o: Outcome<Result>)
      requires Valid() && DocumentOk(doc) && gw.proc == Down
      requires candidate ==> record == Armed
      modifies this, gw
      ensures Valid() && gw.Extends(old(gw.trail), old(gw.spawns))
      ensures gw.proc == Down && gw.disk == old(gw.disk)
      ensures gw.store.pending == old(gw.store).pending
      ensures OneSide(old(gw.store), doc, gw.store)
      ensures o.Lives? ==> o.value == Restored || o.value == ApplyFailed
      ensures o == Lives(Restored) ==>
                && Rows(gw.store) == DocumentRows(doc) && Deselected(gw.store) && gw.net == gw.ClosedNet()
                && LastPass(old(passes), true)
      ensures o == Lives(ApplyFailed) ==> gw.store == Deselect(old(gw.store)) && LastPass(old(passes), false)
      ensures PassesArmed(old(passes))
      ensures stranded && !old(stranded) ==> record == Armed
      ensures record == old(record) || (candidate && record == Settled)
      ensures gw.smooth ==> o == Lives(Restored) && (candidate ==> record == Settled) && stranded == old(stranded)
    {
      var committed :- Transact(doc, candidate);
      if committed {
        :- gw.Step();
        Settle(candidate);
        return Lives(Restored);
      }
      var _ :- Recover(candidate);
      return Lives(ApplyFailed);
    }

    method RestoreBackup(doc: Option<Document>) returns (o: Outcome<Result>)
      requires Valid() && (doc.Some? ==> DocumentOk(doc.value))
      modifies this, gw
      ensures Valid() && gw.Extends(old(gw.trail), old(gw.spawns))
      ensures gw.disk == old(gw.disk)
      // a refusal before the stop costs nothing
      ensures doc.None? ==> o == Lives(Declined(InvalidDocument))
      ensures o.Lives? && o.value.Declined? ==> gw.View() == old(gw.View()) && NoDocumentPass(old(passes))
      // one between the stop and the transaction costs the tunnel and nothing stored
      ensures o.Lives? && o.value in {StillRunning, NotEnforced, NotArmed} ==>
                gw.store == old(gw.store) && NoDocumentPass(old(passes))
      ensures o == Lives(NotEnforced) || o == Lives(NotArmed) ==> gw.proc == Down
      // after that xray is stopped, nothing is selected, and the rows are all one side's
      ensures o == Lives(Restored) || o == Lives(ApplyFailed) ==> gw.proc == Down && Deselected(gw.store)
      ensures o == Lives(Restored) ==>
                && doc.Some? && Rows(gw.store) == DocumentRows(doc.value) && gw.net == gw.ClosedNet()
                && LastPass(old(passes), true)
      ensures o == Lives(ApplyFailed) ==> gw.store == Deselect(old(gw.store)) && LastPass(old(passes), false)
      // and whatever the exit, by an exception or a crash too
      ensures gw.store == old(gw.store) || (doc.Some? && OneSide(old(gw.store), doc.value, gw.store))
      ensures gw.proc == old(gw.proc) || gw.proc == Down
      ensures NoDocumentPass(old(passes)) || gw.proc == Down
      ensures gw.store == old(gw.store) || gw.proc == Down
      // the document reaches the host only under an armed record, and stays reclaimable
      ensures PassesArmed(old(passes))
      ensures stranded && !old(stranded) ==> record == Armed
      // no fault: a valid document is restored, and nothing is left to undo
      ensures gw.smooth && doc.Some? ==> o == Lives(Restored) && stranded == old(stranded)
      ensures gw.smooth && doc.Some? ==> record == old(record) || record == Settled
    {
      if doc.None? { return Lives(Declined(InvalidDocument)); }
      var refusal, candidate :- Preflight();
      if refusal.Some? { return Lives(Declined(refusal.value)); }
      var stopped :- TakeDown(candidate);
      if stopped.Some? { return Lives(stopped.value); }
      o := ApplyDocument(doc.value, candidate);
    }
  }
}
