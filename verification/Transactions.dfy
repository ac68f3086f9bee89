/** The nesting transaction of the shared SQLite connection. */
module Transactions {

  type Db = map<string, string>

  /** Code that uses the connection: a statement, a raise (of its own, or of a statement that
      fails), sequencing, `try: ... except: pass`, and a `with store.transaction():` block. */
  datatype Prog =
    | Exec(key: string, value: string)
    | Raise
    | Seq(first: Prog, second: Prog)
    | Swallow(body: Prog)
    | Block(body: Prog)

  /** `poisoned`: some block inside was left by an exception, even one that was then swallowed. */
  datatype Effect = Effect(db: Db, raised: bool, poisoned: bool)

  /** What code inside an open transaction does, as if every nested block were plain code. */
  function Inside(p: Prog, db: Db): Effect {
    match p
    case Exec(k, v) => Effect(db[k := v], false, false)
    case Raise => Effect(db, true, false)
    case Seq(a, b) =>
      var x := Inside(a, db);
      if x.raised then x
      else var y := Inside(b, x.db); y.(poisoned := x.poisoned || y.poisoned)
    case Swallow(a) => Inside(a, db).(raised := false)
    case Block(a) => var x := Inside(a, db); x.(poisoned := x.poisoned || x.raised)
  }

  /** What code outside any transaction does: statements take effect one by one, a block either
      completely or not at all, and a block that had no effect never ends normally. */
  function Outside(p: Prog, db: Db): (r: (Db, bool)) {
    match p
    case Exec(k, v) => (db[k := v], false)
    case Raise => (db, true)
    case Seq(a, b) => var x := Outside(a, db); if x.1 then x else Outside(b, x.0)
    case Swallow(a) => (Outside(a, db).0, false)
    case Block(a) => var x := Inside(a, db); if x.raised || x.poisoned then (db, true) else (x.db, false)
  }

  // ----- the specification itself: a block loses or keeps all of its writes ------------------

  function Writes(p: Prog): seq<(string, string)> {
    match p
    case Exec(k, v) => [(k, v)]
    case Raise => []
    case Seq(a, b) => Writes(a) + Writes(b)
    case Swallow(a) => Writes(a)
    case Block(a) => Writes(a)
  }

  function Play(writes: seq<(string, string)>, db: Db): Db {
    if writes == [] then db else Play(writes[1..], db[writes[0].0 := writes[0].1])
  }

  lemma {:induction false} PlayConcat(a: seq<(string, string)>, b: seq<(string, string)>, db: Db)
    ensures Play(a + b, db) == Play(b, Play(a, db))
  {
    if a == [] {
      assert a + b == b;
    } else {
      PlayConcat(a[1..], b, db[a[0].0 := a[0].1]);
      assert (a + b)[1..] == a[1..] + b;
    }
  }

  /** No exception is raised anywhere in `p`. */
  predicate Calm(p: Prog) {
    match p
    case Exec(_, _) => true
    case Raise => false
    case Seq(a, b) => Calm(a) && Calm(b)
    case Swallow(a) => Calm(a)
    case Block(a) => Calm(a)
  }

  lemma {:induction false} CalmKeepsEveryWrite(p: Prog, db: Db)
    requires Calm(p)
    ensures Inside(p, db) == Effect(Play(Writes(p), db), false, false)
  {
    match p
    case Exec(k, v) =>
      assert Writes(p)[1..] == [];
    case Seq(a, b) =>
      CalmKeepsEveryWrite(a, db);
      CalmKeepsEveryWrite(b, Inside(a, db).db);
      PlayConcat(Writes(a), Writes(b), db);
    case Swallow(a) => CalmKeepsEveryWrite(a, db);
    case Block(a) => CalmKeepsEveryWrite(a, db);
  }

  /** `p` runs a block that raises, wherever the exception goes afterwards. */
  predicate SomeBlockRaises(p: Prog, db: Db) {
    match p
    case Exec(_, _) => false
    case Raise => false
    case Seq(a, b) => SomeBlockRaises(a, db) || (!Inside(a, db).raised && SomeBlockRaises(b, Inside(a, db).db))
    case Swallow(a) => SomeBlockRaises(a, db)
    case Block(a) => SomeBlockRaises(a, db) || Inside(a, db).raised
  }

  lemma {:induction false} PoisonedExactly(p: Prog, db: Db)
    ensures Inside(p, db).poisoned == SomeBlockRaises(p, db)
  {
    match p
    case Exec(_, _) =>
    case Raise =>
    case Seq(a, b) =>
      PoisonedExactly(a, db);
      PoisonedExactly(b, Inside(a, db).db);
    case Swallow(a) => PoisonedExactly(a, db);
    case Block(a) => PoisonedExactly(a, db);
  }

  /** A block whose code raises nowhere keeps every write, in order. One in which some block raised
      keeps none and raises, however deep that was and whoever swallowed the exception. */
  lemma AllOrNothing(p: Prog, db: Db)
    ensures Calm(p) ==> Outside(Block(p), db) == (Play(Writes(p), db), false)
    ensures SomeBlockRaises(Block(p), db) ==> Outside(Block(p), db) == (db, true)
    ensures !SomeBlockRaises(Block(p), db) ==> Outside(Block(p), db) == (Inside(p, db).db, false)
  {
    if Calm(p) { CalmKeepsEveryWrite(p, db); }
    PoisonedExactly(p, db);
  }

  // ----- the connection --------------------------------------------------------------------

  class SafeConn {
    const reliable: bool          // SQLite's own BEGIN and COMMIT never fail
    var durable: Db               // what another connection, or a restart, sees
    var db: Db                    // what the next statement sees
    var begun: bool               // SQLite has a transaction open
    var depth: nat
    var rollbackOnly: bool

    ghost predicate Valid()
      reads this
    {
      && (!begun ==> db == durable)
      && (depth > 0 ==> begun)
      && (depth == 0 ==> !rollbackOnly)
      && (reliable && depth == 0 ==> !begun)
    }

    constructor (db: Db, reliable: bool)
      ensures Valid() && durable == db && depth == 0 && !begun && this.reliable == reliable
    {
      this.reliable := reliable;
      durable, this.db, begun, depth, rollbackOnly := db, db, false, 0, false;
    }

    method Execute(key: string, value: string)
      requires Valid()
      modifies this
      ensures Valid()
      ensures db == old(db)[key := value]
      ensures durable == if begun then old(durable) else db
      ensures begun == old(begun) && depth == old(depth) && rollbackOnly == old(rollbackOnly)
    {
      db := db[key := value];
      if !begun { durable := db; }
    }

    /** False when BEGIN raised, as it does while an earlier COMMIT left its transaction open. */
    method Enter() returns (ok: bool)
      requires Valid()
      modifies this
      ensures Valid()
      ensures db == old(db) && durable == old(durable) && rollbackOnly == old(rollbackOnly)
      ensures depth == if ok then old(depth) + 1 else old(depth)
      ensures begun == (old(begun) || ok)
      ensures old(depth) > 0 ==> ok
      ensures old(depth) == 0 && old(begun) ==> !ok
      ensures reliable ==> ok
    {
      if depth == 0 {
        var fails: bool := *;
        if begun || (fails && !reliable) { return false; }
        begun := true;
        rollbackOnly := false;
      }
      depth := depth + 1;
      return true;
    }

    /** Leave a block, by an exception or normally; true when one propagates from it. */
    method Exit(raising: bool) returns (raised: bool)
      requires Valid() && depth > 0
      modifies this
      ensures Valid() && depth == old(depth) - 1
      ensures raising ==> raised
      // a nested exit only remembers
      ensures old(depth) > 1 ==>
                && db == old(db) && durable == old(durable) && begun
                && raised == raising && rollbackOnly == (old(rollbackOnly) || raising)
      // the outermost one commits or discards
      ensures old(depth) == 1 && (raising || old(rollbackOnly)) ==>
                raised && durable == old(durable) && !begun
      ensures old(depth) == 1 && !raised ==> durable == old(db) && !begun && !raising && !old(rollbackOnly)
      ensures old(depth) == 1 && raised ==> durable == old(durable)
      ensures old(depth) == 1 && reliable && !raising && !old(rollbackOnly) ==> !raised
    {
      var poison := rollbackOnly || raising;
      rollbackOnly := poison;
      depth := depth - 1;
      if depth == 0 {
        rollbackOnly := false;
        if poison {
          db, begun := durable, false;
          return true;
        }
        var fails: bool := *;
        if fails && !reliable {
          if * { db, begun := durable, false; }    // SQLite rolled it back, or left it open
          return true;
        }
        durable, begun := db, false;
        return false;
      }
      return raising;
    }

    /** Code running inside an open transaction has exactly the effect of the plain code, and the
        flag remembers a block that raised. Nothing becomes durable. */
    method RunInside(p: Prog) returns (raised: bool)
      requires Valid() && depth > 0
      modifies this
      ensures Valid() && depth == old(depth) && durable == old(durable)
      ensures Effect(db, raised, rollbackOnly) ==
              Inside(p, old(db)).(poisoned := old(rollbackOnly) || Inside(p, old(db)).poisoned)
      decreases p
    {
      match p
      case Exec(k, v) =>
        Execute(k, v);
        return false;
      case Raise =>
        return true;
      case Seq(a, b) =>
        raised := RunInside(a);
        if !raised { raised := RunInside(b); }
      case Swallow(a) =>
        var _ := RunInside(a);
        return false;
      case Block(a) =>
        var _ := Enter();
        raised := RunInside(a);
        raised := Exit(raised);
    }

    /** An outermost block. Whatever BEGIN and COMMIT do, it becomes durable as a whole or not at
        all, and ends normally only if it did. */
    method RunBlock(body: Prog) returns (raised: bool)
      requires Valid() && depth == 0
      modifies this
      ensures Valid() && depth == 0 && !rollbackOnly
      ensures raised ==> durable == old(durable)
      ensures !raised ==> Outside(Block(body), old(db)) == (durable, false) && !begun
      ensures reliable ==> Outside(Block(body), old(db)) == (durable, raised)
    {
      var ok := Enter();
      if !ok { return true; }
      raised := RunInside(body);
      raised := Exit(raised);
    }

    /** Any code at all: the nesting connection does what the all-or-nothing reading says, and its
        counter and flag are back at their initial values. */
    method Run(p: Prog) returns (raised: bool)
      requires Valid() && depth == 0 && reliable
      modifies this
      ensures Valid() && depth == 0 && !rollbackOnly && !begun
      ensures Outside(p, old(durable)) == (durable, raised)
      decreases p
    {
      match p
      case Exec(k, v) =>
        Execute(k, v);
        return false;
      case Raise =>
        return true;
      case Seq(a, b) =>
        raised := Run(a);
        if !raised { raised := Run(b); }
      case Swallow(a) =>
        var _ := Run(a);
        return false;
      case Block(a) =>
        raised := RunBlock(a);
    }
  }
}
