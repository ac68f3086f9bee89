/** The migration that makes node identities unique: duplicates are archived and their operator
    data merged onto one survivor, pointers follow it, and rule positions are renumbered. */
module Migration {
  import opened Basics

  /** The columns of the unique index; a node without a subscription has -1 there. */
  datatype Identity = Identity(
    subscription: int, address: string, port: int, uuid: string, path: string, sni: string, shortId: string)

  /** Columns an operator fills in by hand. */
  datatype Col = Note | Profile

  datatype Row = Row(identity: Identity, note: Option<string>, profile: Option<string>)

  type Nodes = map<int, Row>

  function Val(r: Row, c: Col): Option<string> {
    if c == Note then r.note else r.profile
  }

  function With(r: Row, c: Col, v: Option<string>): Row {
    if c == Note then r.(note := v) else r.(profile := v)
  }

  /** Not NULL and not blank. */
  predicate Filled(v: Option<string>) {
    v.Some? && Strip(v.value) != ""
  }

  function Score(r: Row): nat {
    (if Filled(r.note) then 1 else 0) + (if Filled(r.profile) then 1 else 0)
  }

  /** The score is the number of columns that are filled in. */
  lemma ScoreCounts(r: Row)
    ensures Score(r) == FilledIn(r)
  {
    var filled := set c: Col | Filled(Val(r, c));
    if Filled(r.note) {
      if Filled(r.profile) { assert filled == {Note, Profile}; } else { assert filled == {Note}; }
    } else {
      if Filled(r.profile) { assert filled == {Profile}; } else { assert filled == {}; }
    }
  }

  function Group(nodes: Nodes, k: Identity): set<int> {
    set id | id in nodes && nodes[id].identity == k
  }

  /** `a` is kept in preference to `b`: more operator data, then the older id. */
  predicate Preferred(nodes: Nodes, a: int, b: int)
    requires a in nodes && b in nodes
  {
    Score(nodes[a]) > Score(nodes[b]) || (Score(nodes[a]) == Score(nodes[b]) && a <= b)
  }

  /** The active node if it is in the group, else the preferred one. */
  ghost predicate IsKept(nodes: Nodes, ids: set<int>, active: Option<int>, keep: int)
    requires ids <= nodes.Keys
  {
    && keep in ids
    && (if active.Some? && active.value in ids then keep == active.value
        else forall id :: id in ids ==> Preferred(nodes, keep, id))
  }

  /** Without the active node in it, a group keeps the row with the most columns filled in, the oldest
      of several. */
  lemma KeptExactly(nodes: Nodes, ids: set<int>, active: Option<int>, keep: int)
    requires ids <= nodes.Keys && keep in ids && !(active.Some? && active.value in ids)
    ensures IsKept(nodes, ids, active, keep) <==>
            forall id :: id in ids ==>
              || FilledIn(nodes[id]) < FilledIn(nodes[keep])
              || (FilledIn(nodes[id]) == FilledIn(nodes[keep]) && keep <= id)
  {
    forall id | id in ids ensures Score(nodes[id]) == FilledIn(nodes[id]) { ScoreCounts(nodes[id]); }
  }

  function FilledIn(r: Row): nat {
    |set c: Col | Filled(Val(r, c))|
  }

  /** `v` is what column `c` of the survivor becomes: its own value if it has one, else the newest
      one among the others, if any. */
  ghost predicate IsMerged(nodes: Nodes, ids: set<int>, keep: int, c: Col, v: Option<string>)
    requires ids <= nodes.Keys && keep in ids
  {
    if Filled(Val(nodes[keep], c)) then v == Val(nodes[keep], c)
    else if forall id :: id in ids ==> !Filled(Val(nodes[id], c)) then v == Val(nodes[keep], c)
    else exists newest ::
      && newest in ids && Filled(Val(nodes[newest], c)) && v == Val(nodes[newest], c)
      && forall id :: id in ids && Filled(Val(nodes[id], c)) ==> id <= newest
  }

  method PickKept(nodes: Nodes, ids: set<int>, active: Option<int>) returns (keep: int)
    requires ids != {} && ids <= nodes.Keys
    ensures IsKept(nodes, ids, active, keep)
  {
    if active.Some? && active.value in ids { return active.value; }
    SomeMember(ids);
    keep :| keep in ids;
    var rest := ids - {keep};
    while rest != {}
      invariant rest <= ids && keep in ids
      invariant forall id :: id in ids && id !in rest ==> Preferred(nodes, keep, id)
      decreases |rest|
    {
      SomeMember(rest);
      var id :| id in rest;
      if !Preferred(nodes, keep, id) { keep := id; }
      rest := rest - {id};
    }
  }

  /** Look through the rows about to go, newest first. */
  method MergedValue(nodes: Nodes, ids: set<int>, keep: int, c: Col) returns (v: Option<string>)
    requires ids <= nodes.Keys && keep in ids
    ensures IsMerged(nodes, ids, keep, c, v)
  {
    v := Val(nodes[keep], c);
    if Filled(v) { return; }
    var rest := ids - {keep};
    while rest != {}
      invariant rest <= ids - {keep}
      invariant forall id :: id in ids && id !in rest ==> !Filled(Val(nodes[id], c))
      decreases |rest|
    {
      var newest := Largest(rest);
      if Filled(Val(nodes[newest], c)) { return Val(nodes[newest], c); }
      rest := rest - {newest};
    }
  }

  method Largest(s: set<int>) returns (m: int)
    requires s != {}
    ensures m in s && forall x :: x in s ==> x <= m
  {
    SomeMember(s);
    m :| m in s;
    var rest := s - {m};
    while rest != {}
      invariant rest <= s && m in s
      invariant forall x :: x in s && x !in rest ==> x <= m
      decreases |rest|
    {
      SomeMember(rest);
      var x :| x in rest;
      if m < x { m := x; }
      rest := rest - {x};
    }
  }

  // ----- the dedup -------------------------------------------------------------------------

  /** Survivors and archived rows partition the originals. */
  ghost predicate Partition(orig: Nodes, nodes: Nodes, archive: Nodes) {
    && nodes.Keys !! archive.Keys && nodes.Keys + archive.Keys == orig.Keys
    && (forall id :: id in nodes ==> nodes[id].identity == orig[id].identity)
    && (forall id :: id in archive ==> archive[id] == orig[id])
  }

  /** `id` is the row its group keeps, and `row` what it became. */
  ghost predicate Survivor(orig: Nodes, active: Option<int>, id: int, row: Row)
    requires id in orig
  {
    var ids := Group(orig, orig[id].identity);
    && id in ids && IsKept(orig, ids, active, id)
    && row.identity == orig[id].identity
    && IsMerged(orig, ids, id, Note, row.note) && IsMerged(orig, ids, id, Profile, row.profile)
  }

  /** Outside `todo` every row is its group's survivor; inside, nothing has been touched. */
  ghost predicate Survivors(orig: Nodes, active: Option<int>, nodes: Nodes, todo: set<Identity>) {
    && nodes.Keys <= orig.Keys
    && (forall id :: id in nodes && nodes[id].identity in todo ==> nodes[id] == orig[id])
    && (forall id :: id in nodes && nodes[id].identity !in todo ==> Survivor(orig, active, id, nodes[id]))
  }

  ghost predicate Untouched(orig: Nodes, nodes: Nodes, todo: set<Identity>) {
    forall id :: id in orig && orig[id].identity in todo ==> id in nodes
  }

  ghost predicate Distinct(nodes: Nodes, todo: set<Identity>) {
    forall a, b :: a in nodes && b in nodes && a != b ==>
      nodes[a].identity != nodes[b].identity || nodes[a].identity in todo
  }

  /** Every archived row is superseded by the survivor of its identity. */
  ghost predicate Followed(orig: Nodes, nodes: Nodes, archive: Nodes, superseded: map<int, int>) {
    && superseded.Keys == archive.Keys
    && forall id :: id in archive ==>
         id in orig && superseded[id] in nodes && nodes[superseded[id]].identity == orig[id].identity
  }

  ghost predicate Deduped(orig: Nodes, active: Option<int>, nodes: Nodes, archive: Nodes,
                          superseded: map<int, int>, todo: set<Identity>)
  {
    && Partition(orig, nodes, archive)
    && Survivors(orig, active, nodes, todo)
    && Untouched(orig, nodes, todo)
    && Distinct(nodes, todo)
    && Followed(orig, nodes, archive, superseded)
  }

  /** Identities carried by more than one row. */
  ghost predicate Duplicates(orig: Nodes, todo: set<Identity>) {
    forall a, b :: a in orig && b in orig && a != b && orig[a].identity == orig[b].identity ==> orig[a].identity in todo
  }

  /** A row that is alone in its group is its own survivor. */
  lemma AloneSurvives(orig: Nodes, active: Option<int>, id: int)
    requires id in orig
    requires forall other :: other in orig && orig[other].identity == orig[id].identity ==> other == id
    ensures Survivor(orig, active, id, orig[id])
  {
    var ids := Group(orig, orig[id].identity);
    assert forall other :: other in ids <==> other == id;
  }

  lemma NothingDone(orig: Nodes, active: Option<int>, todo: set<Identity>)
    requires Duplicates(orig, todo)
    ensures Deduped(orig, active, orig, map[], map[], todo)
  {
    forall id | id in orig && orig[id].identity !in todo ensures Survivor(orig, active, id, orig[id]) {
      AloneSurvives(orig, active, id);
    }
  }

  /** What handling the group `ids` around `keep` leaves. */
  ghost predicate Handled(nodes: Nodes, archive: Nodes, superseded: map<int, int>, ids: set<int>, keep: int, row: Row,
                          nodes': Nodes, archive': Nodes, superseded': map<int, int>)
    requires ids <= nodes.Keys && keep in ids
  {
    && nodes'.Keys == nodes.Keys - (ids - {keep}) && nodes'[keep] == row
    && (forall id :: id in nodes' && id != keep ==> nodes'[id] == nodes[id])
    && archive'.Keys == archive.Keys + (ids - {keep}) && superseded'.Keys == superseded.Keys + (ids - {keep})
    && (forall id :: id in ids && id != keep ==> archive'[id] == nodes[id] && superseded'[id] == keep)
    && (forall id :: id in archive && id !in ids ==> archive'[id] == archive[id])
    && (forall id :: id in superseded && id !in ids ==> superseded'[id] == superseded[id])
  }

  lemma HandledPartition(orig: Nodes, nodes: Nodes, archive: Nodes, superseded: map<int, int>, todo: set<Identity>,
                         k: Identity, keep: int, row: Row, nodes': Nodes, archive': Nodes, superseded': map<int, int>)
    requires Partition(orig, nodes, archive) && Untouched(orig, nodes, todo) && Distinct(nodes, todo)
    requires forall id :: id in nodes && nodes[id].identity == k ==> nodes[id] == orig[id]
    requires keep in Group(nodes, k) && row.identity == k
    requires Handled(nodes, archive, superseded, Group(nodes, k), keep, row, nodes', archive', superseded')
    ensures Partition(orig, nodes', archive') && Untouched(orig, nodes', todo - {k}) && Distinct(nodes', todo - {k})
  {
  }

  lemma HandledSurvivors(orig: Nodes, active: Option<int>, nodes: Nodes, archive: Nodes, superseded: map<int, int>,
                         todo: set<Identity>, k: Identity, keep: int, row: Row,
                         nodes': Nodes, archive': Nodes, superseded': map<int, int>)
    requires Partition(orig, nodes, archive) && Survivors(orig, active, nodes, todo) && k in todo
    requires keep in Group(nodes, k) && row.identity == k && Survivor(orig, active, keep, row)
    requires Handled(nodes, archive, superseded, Group(nodes, k), keep, row, nodes', archive', superseded')
    ensures Survivors(orig, active, nodes', todo - {k})
  {
  }

  lemma HandledPointers(orig: Nodes, nodes: Nodes, archive: Nodes, superseded: map<int, int>, todo: set<Identity>,
                        k: Identity, keep: int, row: Row,
                        nodes': Nodes, archive': Nodes, superseded': map<int, int>)
    requires Partition(orig, nodes, archive) && Untouched(orig, nodes, todo)
    requires Followed(orig, nodes, archive, superseded)
    requires k in todo && keep in Group(nodes, k) && row.identity == k
    requires Handled(nodes, archive, superseded, Group(nodes, k), keep, row, nodes', archive', superseded')
    ensures Followed(orig, nodes', archive', superseded')
  {
    assert forall id :: id in archive ==> nodes[superseded[id]].identity != k;
  }

  /** The group as it is now is the original one. */
  lemma GroupUnchanged(orig: Nodes, active: Option<int>, nodes: Nodes, archive: Nodes, todo: set<Identity>, k: Identity)
    requires Partition(orig, nodes, archive) && Survivors(orig, active, nodes, todo) && Untouched(orig, nodes, todo)
    requires k in todo
    ensures Group(nodes, k) == Group(orig, k)
    ensures forall id :: id in Group(nodes, k) ==> nodes[id] == orig[id]
    ensures (exists id :: id in orig && orig[id].identity == k) ==> Group(nodes, k) != {}
  {
    assert forall id :: id in Group(nodes, k) <==> id in Group(orig, k);
    if id :| id in orig && orig[id].identity == k { assert id in Group(orig, k); }
  }

  /** Choose the survivor of the group and what it becomes. */
  method Resolve(nodes: Nodes, ids: set<int>, active: Option<int>, k: Identity) returns (keep: int, row: Row)
    requires ids != {} && ids == Group(nodes, k)
    ensures keep in ids && row.identity == k && IsKept(nodes, ids, active, keep)
    ensures IsMerged(nodes, ids, keep, Note, row.note) && IsMerged(nodes, ids, keep, Profile, row.profile)
  {
    keep := PickKept(nodes, ids, active);
    var note := MergedValue(nodes, ids, keep, Note);
    var profile := MergedValue(nodes, ids, keep, Profile);
    row := Row(k, note, profile);
  }

  /** The choice only looked at the group's own rows. */
  lemma ResolvedSurvives(orig: Nodes, nodes: Nodes, active: Option<int>, k: Identity, keep: int, row: Row)
    requires Group(nodes, k) == Group(orig, k)
    requires forall id :: id in Group(orig, k) ==> id in nodes && nodes[id] == orig[id]
    requires keep in Group(orig, k) && row.identity == k && IsKept(nodes, Group(orig, k), active, keep)
    requires IsMerged(nodes, Group(orig, k), keep, Note, row.note)
    requires IsMerged(nodes, Group(orig, k), keep, Profile, row.profile)
    ensures Survivor(orig, active, keep, row)
  {
  }

  /** Archive, repoint, delete, update. */
  function Archived(nodes: Nodes, archive: Nodes, remove: set<int>): Nodes
    requires remove <= nodes.Keys
  {
    archive + map id | id in remove :: nodes[id]
  }

  function Superseded(superseded: map<int, int>, remove: set<int>, keep: int): map<int, int> {
    superseded + map id | id in remove :: keep
  }

  function Remaining(nodes: Nodes, remove: set<int>, keep: int, row: Row): Nodes {
    (map id | id in nodes && id !in remove :: nodes[id])[keep := row]
  }

  lemma Rewritten(nodes: Nodes, archive: Nodes, superseded: map<int, int>, ids: set<int>, keep: int, row: Row)
    requires ids <= nodes.Keys && keep in ids
    requires nodes.Keys !! archive.Keys && superseded.Keys == archive.Keys
    ensures Handled(nodes, archive, superseded, ids, keep, row,
                    Remaining(nodes, ids - {keep}, keep, row), Archived(nodes, archive, ids - {keep}),
                    Superseded(superseded, ids - {keep}, keep))
  {
    var remove := ids - {keep};
    assert forall id :: id in Remaining(nodes, remove, keep, row).Keys <==> id in nodes.Keys - remove;
    assert forall id :: id in Archived(nodes, archive, remove).Keys <==> id in archive.Keys + remove;
    assert forall id :: id in Superseded(superseded, remove, keep).Keys <==> id in superseded.Keys + remove;
  }

  lemma GroupStep(orig: Nodes, active: Option<int>, nodes: Nodes, archive: Nodes, superseded: map<int, int>,
                  todo: set<Identity>, k: Identity, keep: int, row: Row)
    requires Deduped(orig, active, nodes, archive, superseded, todo) && k in todo
    requires keep in Group(nodes, k) && row.identity == k && IsKept(nodes, Group(nodes, k), active, keep)
    requires IsMerged(nodes, Group(nodes, k), keep, Note, row.note)
    requires IsMerged(nodes, Group(nodes, k), keep, Profile, row.profile)
    ensures var remove := Group(nodes, k) - {keep};
            Deduped(orig, active, Remaining(nodes, remove, keep, row), Archived(nodes, archive, remove),
                    Superseded(superseded, remove, keep), todo - {k})
  {
    var ids := Group(nodes, k);
    var remove := ids - {keep};
    var nodes', archive', superseded' :=
      Remaining(nodes, remove, keep, row), Archived(nodes, archive, remove), Superseded(superseded, remove, keep);
    GroupUnchanged(orig, active, nodes, archive, todo, k);
    ResolvedSurvives(orig, nodes, active, k, keep, row);
    Rewritten(nodes, archive, superseded, ids, keep, row);
    HandledKeepsDeduped(orig, active, nodes, archive, superseded, todo, k, keep, row, nodes', archive', superseded');
  }

  lemma HandledKeepsDeduped(orig: Nodes, active: Option<int>, nodes: Nodes, archive: Nodes, superseded: map<int, int>,
                            todo: set<Identity>, k: Identity, keep: int, row: Row,
                            nodes': Nodes, archive': Nodes, superseded': map<int, int>)
    requires Deduped(orig, active, nodes, archive, superseded, todo) && k in todo
    requires keep in Group(nodes, k) && row.identity == k && Survivor(orig, active, keep, row)
    requires Handled(nodes, archive, superseded, Group(nodes, k), keep, row, nodes', archive', superseded')
    ensures Deduped(orig, active, nodes', archive', superseded', todo - {k})
  {
    HandledPartition(orig, nodes, archive, superseded, todo, k, keep, row, nodes', archive', superseded');
    HandledSurvivors(orig, active, nodes, archive, superseded, todo, k, keep, row, nodes', archive', superseded');
    HandledPointers(orig, nodes, archive, superseded, todo, k, keep, row, nodes', archive', superseded');
  }

  // ----- what a finished dedup means -------------------------------------------------------

  /** Every original identity still has a row. */
  ghost predicate NoneLost(orig: Nodes, nodes: Nodes) {
    forall id :: id in orig ==> Carried(nodes, orig[id].identity)
  }

  ghost predicate Carried(nodes: Nodes, k: Identity) {
    exists s :: s in nodes && nodes[s].identity == k
  }

  /** Some row of the group had the column. */
  ghost predicate GroupHad(orig: Nodes, k: Identity, c: Col) {
    exists other :: other in orig && orig[other].identity == k && Filled(Val(orig[other], c))
  }

  /** A survivor's operator column is filled exactly when some row of its group had it. */
  ghost predicate NothingTypedLost(orig: Nodes, nodes: Nodes) {
    && nodes.Keys <= orig.Keys
    && forall id, c :: id in nodes ==> (Filled(Val(nodes[id], c)) <==> GroupHad(orig, orig[id].identity, c))
  }

  lemma MergedFilled(orig: Nodes, id: int, c: Col, v: Option<string>)
    requires id in orig && IsMerged(orig, Group(orig, orig[id].identity), id, c, v)
    ensures Filled(v) <==> GroupHad(orig, orig[id].identity, c)
  {
    var ids := Group(orig, orig[id].identity);
    if GroupHad(orig, orig[id].identity, c) {
      var other :| other in orig && orig[other].identity == orig[id].identity && Filled(Val(orig[other], c));
      assert other in ids;
    }
  }

  lemma SurvivorsFilled(orig: Nodes, active: Option<int>, nodes: Nodes)
    requires Survivors(orig, active, nodes, {})
    ensures NothingTypedLost(orig, nodes)
  {
    forall id, c | id in nodes ensures Filled(Val(nodes[id], c)) <==> GroupHad(orig, orig[id].identity, c) {
      assert Survivor(orig, active, id, nodes[id]);
      MergedFilled(orig, id, c, Val(nodes[id], c));
    }
  }

  lemma FollowedNoneLost(orig: Nodes, nodes: Nodes, archive: Nodes, superseded: map<int, int>)
    requires Partition(orig, nodes, archive) && Followed(orig, nodes, archive, superseded)
    ensures NoneLost(orig, nodes)
  {
    forall id | id in orig ensures Carried(nodes, orig[id].identity) {
      var s := if id in archive then superseded[id] else id;
      assert id in nodes.Keys + archive.Keys;
      assert s in nodes && nodes[s].identity == orig[id].identity;
    }
  }

  lemma ActiveSurvives(orig: Nodes, active: int, nodes: Nodes, archive: Nodes, superseded: map<int, int>)
    requires Deduped(orig, Some(active), nodes, archive, superseded, {}) && active in orig
    ensures active in nodes
  {
    var s := if active in archive then superseded[active] else active;
    assert active in nodes.Keys + archive.Keys;
    assert Survivor(orig, Some(active), s, nodes[s]);
    assert active in Group(orig, orig[s].identity);
  }

  /** A pointer to an archived row becomes one to its survivor; any other stays. */
  ghost predicate FollowsSurvivor(orig: Nodes, nodes: Nodes, archive: Nodes, was: Option<int>, now: Option<int>) {
    && (was.None? || was.value !in archive ==> now == was)
    && (was.Some? && was.value in archive ==>
          && was.value in orig && now.Some? && now.value in nodes
          && nodes[now.value].identity == orig[was.value].identity)
  }

  /** One survivor per original identity, the one the rule picks and the active node in any case;
      everything else archived; nothing an operator typed lost. */
  ghost predicate Migrated(orig: Nodes, active: Option<int>, nodes: Nodes, archive: Nodes) {
    && Distinct(nodes, {}) && NoneLost(orig, nodes) && Partition(orig, nodes, archive)
    && (active.Some? && active.value in orig ==> active.value in nodes)
    && Survivors(orig, active, nodes, {}) && NothingTypedLost(orig, nodes)
  }

  lemma DedupedMeans(orig: Nodes, active: Option<int>, nodes: Nodes, archive: Nodes, superseded: map<int, int>)
    requires Deduped(orig, active, nodes, archive, superseded, {})
    ensures Migrated(orig, active, nodes, archive)
  {
    FollowedNoneLost(orig, nodes, archive, superseded);
    SurvivorsFilled(orig, active, nodes);
    if active.Some? && active.value in orig { ActiveSurvives(orig, active.value, nodes, archive, superseded); }
  }

  // ----- rule positions --------------------------------------------------------------------

  /** The order the rules are read in: by position, then by id. */
  predicate Before(positions: map<int, int>, a: int, b: int)
    requires a in positions && b in positions
  {
    positions[a] < positions[b] || (positions[a] == positions[b] && a < b)
  }

  ghost predicate Taken(now: map<int, int>, p: int) {
    exists a :: a in now && now[a] == p
  }

  /** Positions 0 to n-1, each used once, in the old order. */
  ghost predicate Renumbered(was: map<int, int>, now: map<int, int>) {
    && now.Keys == was.Keys
    && (forall a :: a in now ==> 0 <= now[a] < |was|)
    && (forall a, b :: a in now && b in now ==> (Before(was, a, b) <==> now[a] < now[b]))
    && (forall p :: 0 <= p < |was| ==> Taken(now, p))
  }

  method FirstOf(positions: map<int, int>, ids: set<int>) returns (first: int)
    requires ids != {} && ids <= positions.Keys
    ensures first in ids && forall id :: id in ids && id != first ==> Before(positions, first, id)
  {
    SomeMember(ids);
    first :| first in ids;
    var rest := ids - {first};
    while rest != {}
      invariant rest <= ids && first in ids
      invariant forall id :: id in ids && id !in rest && id != first ==> Before(positions, first, id)
      decreases |rest|
    {
      SomeMember(rest);
      var id :| id in rest;
      if Before(positions, id, first) { first := id; }
      rest := rest - {id};
    }
  }

  method Renumber(was: map<int, int>) returns (now: map<int, int>)
    ensures Renumbered(was, now)
  {
    now := map[];
    var rest := was.Keys;
    var position := 0;
    while rest != {}
      invariant rest <= was.Keys && position + |rest| == |was|
      invariant forall a :: a in now <==> a in was && a !in rest
      invariant forall a :: a in now ==> 0 <= now[a] < position
      invariant forall a, b :: a in now && b in rest ==> Before(was, a, b)
      invariant forall a, b :: a in now && b in now ==> (Before(was, a, b) <==> now[a] < now[b])
      invariant forall p :: 0 <= p < position ==> Taken(now, p)
      decreases |rest|
    {
      var first := FirstOf(was, rest);
      ghost var before := now;
      now := now[first := position];
      forall p | 0 <= p < position ensures Taken(now, p) {
        assert Taken(before, p);
        var a :| a in before && before[a] == p;
        assert now[a] == p;
      }
      assert now[first] == position;
      rest := rest - {first};
      position := position + 1;
    }
    assert forall a :: a in now.Keys <==> a in was.Keys;
  }

  datatype Health = Health(failures: nat, text: string)

  /** Health rows that stayed are as they were. */
  ghost predicate HealthKept(orig: map<int, Health>, health: map<int, Health>) {
    forall id :: id in health ==> id in orig && health[id] == orig[id]
  }

  /** Of the archived nodes every health row is archived, and no other. */
  ghost predicate HealthArchived(orig: map<int, Health>, archive: Nodes, healthArchive: map<int, Health>) {
    && (forall id :: id in healthArchive <==> id in orig && id in archive)
    && (forall id :: id in healthArchive ==> healthArchive[id] == orig[id])
  }

  /** Each health row goes where its node goes: kept with a kept node, archived with an archived one. */
  ghost predicate HealthMoved(orig: map<int, Health>, nodes: Nodes, archive: Nodes, health: map<int, Health>,
                              healthArchive: map<int, Health>) {
    && (forall id :: id in health <==> id in orig && id in nodes)
    && HealthKept(orig, health)
    && HealthArchived(orig, archive, healthArchive)
  }

  /** The tables and settings the migration rewrites. */
  class Database {
    var nodes: Nodes
    var health: map<int, Health>
    var archive: Nodes
    var healthArchive: map<int, Health>
    var superseded: map<int, int>
    var active: Option<int>
    var prev: Option<int>
    var positions: map<int, int>      // of the routing rules, by id

    constructor (nodes: Nodes, health: map<int, Health>, active: Option<int>, prev: Option<int>,
                 positions: map<int, int>)
      ensures this.nodes == nodes && this.health == health && this.active == active && this.prev == prev
      ensures this.positions == positions && archive == map[] && healthArchive == map[] && superseded == map[]
    {
      this.nodes, this.health, this.active, this.prev, this.positions := nodes, health, active, prev, positions;
      archive, healthArchive, superseded := map[], map[], map[];
    }

    /** Archive the rest of one group, merge their operator data onto the survivor, delete them. */
    method DedupGroup(ghost orig: Nodes, ghost todo: set<Identity>, k: Identity)
      requires Deduped(orig, active, nodes, archive, superseded, todo) && k in todo
      requires exists id :: id in orig && orig[id].identity == k
      modifies `nodes, `archive, `superseded
      ensures Deduped(orig, active, nodes, archive, superseded, todo - {k})
    {
      GroupUnchanged(orig, active, nodes, archive, todo, k);
      var ids := Group(nodes, k);
      var keep, row := Resolve(nodes, ids, active, k);
      var remove := ids - {keep};
      GroupStep(orig, active, nodes, archive, superseded, todo, k, keep, row);
      archive := Archived(nodes, archive, remove);
      superseded := Superseded(superseded, remove, keep);
      nodes := Remaining(nodes, remove, keep, row);
    }

    /** All groups, in any order. */
    method Dedup()
      requires archive == map[] && superseded == map[]
      modifies `nodes, `archive, `superseded
      ensures Deduped(old(nodes), active, nodes, archive, superseded, {})
    {
      var todo := set a, b | a in nodes && b in nodes && a != b && nodes[a].identity == nodes[b].identity
                    :: nodes[a].identity;
      NothingDone(nodes, active, todo);
      while todo != {}
        invariant Deduped(old(nodes), active, nodes, archive, superseded, todo)
        invariant forall k :: k in todo ==> exists id :: id in old(nodes) && old(nodes)[id].identity == k
        decreases |todo|
      {
        var k :| k in todo;
        DedupGroup(old(nodes), todo, k);
        todo := todo - {k};
      }
    }

    /** Health stays with its node or is archived with it; a row without a node goes. */
    method MoveHealth()
      modifies `health, `healthArchive
      ensures forall id :: id in health <==> id in old(health) && id !in archive && id in nodes
      ensures HealthKept(old(health), health)
      ensures HealthArchived(old(health), archive, healthArchive)
      ensures nodes.Keys !! archive.Keys ==> HealthMoved(old(health), nodes, archive, health, healthArchive)
    {
      healthArchive := map id | id in health && id in archive :: health[id];
      health := map id | id in health && id !in archive && id in nodes :: health[id];
    }

    /** The rollback pointer follows its survivor. */
    method Repoint(ghost orig: Nodes)
      requires Partition(orig, nodes, archive) && Followed(orig, nodes, archive, superseded)
      modifies `prev
      ensures FollowsSurvivor(orig, nodes, archive, old(prev), prev)
    {
      if prev.Some? && prev.value in superseded {
        var removed := prev.value;
        assert removed in archive;
        assert superseded[removed] in nodes && nodes[superseded[removed]].identity == orig[removed].identity;
        prev := Some(superseded[removed]);
      }
    }

    /** One row per identity, and the rollback pointer on a row that is left. */
    method MergeNodes()
      requires archive == map[] && superseded == map[]
      modifies `nodes, `archive, `superseded, `prev
      ensures Migrated(old(nodes), active, nodes, archive)
      ensures FollowsSurvivor(old(nodes), nodes, archive, old(prev), prev)
      ensures nodes.Keys !! archive.Keys
    {
      Dedup();
      DedupedMeans(old(nodes), active, nodes, archive, superseded);
      Repoint(old(nodes));
    }

    /** The tables that hang on the nodes, once those are merged. */
    method TidyRest()
      requires nodes.Keys !! archive.Keys
      modifies `positions, `health, `healthArchive
      ensures HealthMoved(old(health), nodes, archive, health, healthArchive)
      ensures Renumbered(old(positions), positions)
    {
      positions := Renumber(positions);
      MoveHealth();
    }

    /** The whole data part of the migration. */
    method Migrate()
      requires archive == map[] && superseded == map[] && healthArchive == map[]
      modifies this
      ensures active == old(active)
      ensures Migrated(old(nodes), active, nodes, archive)
      ensures FollowsSurvivor(old(nodes), nodes, archive, old(prev), prev)
      ensures HealthMoved(old(health), nodes, archive, health, healthArchive)
      ensures Renumbered(old(positions), positions)
    {
      MergeNodes();
      TidyRest();
    }
  }
}
