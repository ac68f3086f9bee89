/** Byte accounting over a counter that resets, batched flushes that fail, and crashes. */
module Traffic {
  import opened Basics

  datatype Bytes = Bytes(up: int, down: int)

  datatype Bucket = Bucket(minute: int, bytes: Bytes)

  const ZERO := Bytes(0, 0)

  function Plus(a: Bytes, b: Bytes): Bytes {
    Bytes(a.up + b.up, a.down + b.down)
  }

  const MAX_PENDING := 1440
  const RETENTION := 90 * 24 * 60
  const FLUSH_MS := 30000

  /** What one direction's reading adds: a counter that went down was reset, and counts from zero. */
  function Delta(prev: int, cur: int): (d: int)
    ensures d >= 0
    ensures cur >= 0 ==> d <= cur || prev < 0
  {
    if cur >= prev then cur - prev else if cur > 0 then cur else 0
  }

  function DeltaOf(prev: Bytes, cur: Bytes): (d: Bytes)
    ensures d.up >= 0 && d.down >= 0
  {
    Bytes(Delta(prev.up, cur.up), Delta(prev.down, cur.down))
  }

  /** The deltas of consecutive readings, added up. */
  function Counted(readings: seq<Bytes>): Bytes {
    if |readings| < 2 then ZERO
    else Plus(Counted(readings[..|readings| - 1]), DeltaOf(readings[|readings| - 2], readings[|readings| - 1]))
  }

  lemma CountedSnoc(readings: seq<Bytes>, cur: Bytes)
    ensures readings == [] ==> Counted(readings + [cur]) == ZERO
    ensures readings != [] ==>
              var last := readings[|readings| - 1];
              && Counted(readings + [cur]).up == Counted(readings).up + Delta(last.up, cur.up)
              && Counted(readings + [cur]).down == Counted(readings).down + Delta(last.down, cur.down)
  {
    var all := readings + [cur];
    assert all[..|all| - 1] == readings;
  }

  function Total(queue: seq<Bucket>): Bytes {
    if queue == [] then ZERO else Plus(queue[0].bytes, Total(queue[1..]))
  }

  lemma {:induction false} TotalSnoc(queue: seq<Bucket>, b: Bucket)
    ensures Total(queue + [b]) == Plus(Total(queue), b.bytes)
  {
    if queue == [] {
      assert (queue + [b])[1..] == [];
    } else {
      TotalSnoc(queue[1..], b);
      assert (queue + [b])[1..] == queue[1..] + [b];
    }
  }

  // ----- the durable minute series ---------------------------------------------------------

  /** The newest stored minute. */
  ghost predicate Newest(table: map<int, Bytes>, m: int) {
    m in table && forall k :: k in table ==> k <= m
  }

  /** Add to the minute's row, then prune below the retention window of the older of this minute
      and the newest one stored before. */
  function AddMinute(table: map<int, Bytes>, newest: Option<int>, minute: int, bytes: Bytes): map<int, Bytes> {
    var row := if minute in table then Plus(table[minute], bytes) else bytes;
    var added := table[minute := row];
    var anchor := if newest.None? || minute < newest.value then minute else newest.value;
    map m | m in added && anchor - RETENTION <= m :: added[m]
  }

  /** Nothing is overwritten, only the one row grows, and no clock step, however far, removes a row
      within the window of the newest sample that was already there, or the row just written. */
  lemma AddMinuteKeeps(table: map<int, Bytes>, newest: Option<int>, minute: int, bytes: Bytes)
    requires newest.None? <==> table == map[]
    requires newest.Some? ==> Newest(table, newest.value)
    ensures var after := AddMinute(table, newest, minute, bytes);
            && minute in after
            && (forall m :: m in table && newest.value - 90 * 1440 <= m ==> m in after)
            && (forall m :: m in after && m != minute ==> m in table && after[m] == table[m])
            && (forall m :: m in table && m != minute && m < newest.value - 90 * 1440 && m < minute - 90 * 1440 ==>
                  m !in after)
            && after[minute] == Plus(if minute in table then table[minute] else ZERO, bytes)
  {
  }

  // ----- one direction, over the world's counter ---------------------------------------------

  /** `counted` is `start` plus the deltas of exactly these readings. */
  ghost predicate Covers(counted: Bytes, start: Bytes, readings: seq<Bytes>) {
    && counted.up == start.up + Counted(readings).up
    && counted.down == start.down + Counted(readings).down
  }

  /** Bytes since `last` was read, as far as the counter still shows them: `reset` says whether it
      restarted since. */
  function Shown(last: int, counter: int, reset: bool): int {
    if reset then counter else counter - last
  }

  /** The balance of one direction: everything since the start is counted, still shown, or lost. */
  predicate Balance(start: int, counted: int, last: int, counter: int, truth: int, reset: bool, lost: int) {
    && last >= 0 && counter >= 0 && lost >= 0
    && (!reset ==> last <= counter)
    && counted + Shown(last, counter, reset) + lost == start + truth
  }

  predicate Balanced(start: Bytes, counted: Bytes, last: Bytes, counter: Bytes, truth: Bytes, reset: bool,
                     lost: Bytes)
  {
    && Balance(start.up, counted.up, last.up, counter.up, truth.up, reset, lost.up)
    && Balance(start.down, counted.down, last.down, counter.down, truth.down, reset, lost.down)
  }

  /** A restart the next reading takes for no restart, because the counter has grown back to where it
      was, costs the bytes of the last reading. */
  function Overlooked(last: int, cur: int, reset: bool): int {
    if reset && cur >= last then last else 0
  }

  /** One reading, one direction. */
  lemma ReadBalances(start: int, counted: int, last: int, counter: int, truth: int, reset: bool, lost: int)
    requires Balance(start, counted, last, counter, truth, reset, lost)
    ensures Balance(start, counted + Delta(last, counter), counter, counter, truth, false,
                    lost + Overlooked(last, counter, reset))
  {
  }

  /** What is pending once `cur` is read. */
  function Seen(prev: Option<Bytes>, pending: Bytes, cur: Bytes): Bytes {
    if prev.Some? then Plus(pending, DeltaOf(prev.value, cur)) else pending
  }

  // ----- the lifetime total ----------------------------------------------------------------

  /** The recorder's lifetime total: what is stored, what is pending in memory. */
  class DataUsed {
    var baseline: Option<Bytes>    // stored
    var total: Bytes               // stored
    var prevAbs: Option<Bytes>
    var pending: Bytes

    // the readings the accounting rests on, of which the first `base` are covered by the store
    ghost var readings: seq<Bytes>
    ghost var base: nat
    ghost const start: Bytes
    const reliable: bool           // no write of this store raises

    // the world: what xray's counters show, and all bytes since the first of those readings
    var counter: Bytes
    ghost var truth: Bytes
    ghost var resetSinceRead: bool
    ghost var resetSinceBase: bool

    // bytes no total will ever hold, as things stand and if the panel died now
    ghost var lost: Bytes
    ghost var lostOnCrash: Bytes

    /** The stored total covers exactly the readings up to the stored baseline, pending exactly the
        rest. */
    ghost predicate Exact()
      reads `base, `readings, `prevAbs, `baseline, `total, `pending
    {
      && base <= |readings|
      && prevAbs == (if readings == [] then None else Some(readings[|readings| - 1]))
      && baseline == (if base == 0 then None else Some(readings[base - 1]))
      && Covers(total, start, readings[..base])
      && Covers(Plus(total, pending), start, readings)
    }

    /** From memory, and after a crash from the stored baseline. */
    ghost predicate Kept()
      reads `prevAbs, `baseline, `total, `pending, `counter, `truth
      reads `resetSinceRead, `resetSinceBase, `lost, `lostOnCrash
    {
      && counter.up >= 0 && counter.down >= 0
      && (resetSinceRead ==> resetSinceBase)
      && (prevAbs.Some? ==> Balanced(start, Plus(total, pending), prevAbs.value, counter, truth, resetSinceRead, lost))
      && (baseline.Some? ==> Balanced(start, total, baseline.value, counter, truth, resetSinceBase, lostOnCrash))
    }

    ghost predicate Valid()
      reads this
    {
      Exact() && Kept()
    }

    constructor (total: Bytes, reliable: bool)
      ensures Valid() && this.total == total && start == total && readings == [] && this.reliable == reliable
    {
      this.reliable := reliable;
      baseline, this.total, prevAbs, pending := None, total, None, ZERO;
      readings, base, start := [], 0, total;
      counter, truth, resetSinceRead, resetSinceBase := ZERO, ZERO, false, false;
      lost, lostOnCrash := ZERO, ZERO;
    }

    /** Traffic flows. */
    method Transfer(bytes: Bytes)
      requires Valid() && bytes.up >= 0 && bytes.down >= 0
      modifies `counter, `truth
      ensures Valid()
      ensures truth == Plus(old(truth), bytes) && counter == Plus(old(counter), bytes)
    {
      counter, truth := Plus(counter, bytes), Plus(truth, bytes);
    }

    /** xray restarts: its counters start again from zero, and what they showed beyond the last reading
        is lost; beyond the stored baseline, if the panel should die before the next flush. */
    method ResetCounters()
      requires Valid()
      modifies `counter, `resetSinceRead, `resetSinceBase, `lost, `lostOnCrash
      ensures Valid() && counter == ZERO && resetSinceRead && resetSinceBase
      ensures prevAbs.Some? ==>
                && lost.up == old(lost).up + Shown(prevAbs.value.up, old(counter).up, old(resetSinceRead))
                && lost.down == old(lost).down + Shown(prevAbs.value.down, old(counter).down, old(resetSinceRead))
    {
      if prevAbs.Some? {
        lost := Bytes(lost.up + Shown(prevAbs.value.up, counter.up, resetSinceRead),
                      lost.down + Shown(prevAbs.value.down, counter.down, resetSinceRead));
      }
      if baseline.Some? {
        lostOnCrash := Bytes(lostOnCrash.up + Shown(baseline.value.up, counter.up, resetSinceBase),
                             lostOnCrash.down + Shown(baseline.value.down, counter.down, resetSinceBase));
      }
      counter, resetSinceRead, resetSinceBase := ZERO, true, true;
    }

    /** Back to the stored baseline, and to the readings it covers. */
    method Rewind()
      requires Exact()
      modifies `prevAbs, `pending, `readings
      ensures Exact() && prevAbs == baseline && pending == ZERO && readings == old(readings)[..base]
    {
      readings := readings[..base];
      prevAbs, pending := baseline, ZERO;
      assert readings[..base] == readings;
    }

    /** The panel dies and comes back: memory is gone, the stored baseline is loaded. */
    method Crash()
      requires Valid()
      modifies `prevAbs, `pending, `readings, `truth, `resetSinceRead, `lost
      ensures Valid()
      ensures prevAbs == baseline && readings == old(readings)[..base] && lost == lostOnCrash
      ensures truth == if baseline.Some? then old(truth) else ZERO
    {
      if baseline.None? { truth := ZERO; }     // nothing is covered yet: the next reading starts afresh
      lost, resetSinceRead := lostOnCrash, resetSinceBase;
      Rewind();
    }

    /** Move to a new reading; the seen bytes are pending from here on, before anything fallible. */
    method Append(cur: Bytes, d: Bytes)
      requires Exact() && prevAbs.Some? && d == DeltaOf(prevAbs.value, cur)
      modifies `prevAbs, `pending, `readings
      ensures Exact() && prevAbs == Some(cur) && readings == old(readings) + [cur]
      ensures pending == Plus(old(pending), d)
    {
      CountedSnoc(readings, cur);
      assert (readings + [cur])[..base] == readings[..base];
      pending := Plus(pending, d);
      prevAbs, readings := Some(cur), readings + [cur];
    }

    method First(cur: Bytes)
      requires Valid() && cur == counter && prevAbs.None?
      modifies `prevAbs, `readings, `truth, `resetSinceRead, `lost, `pending
      ensures Valid() && prevAbs == Some(cur) && readings == [cur] && truth == ZERO && lost == ZERO
      ensures pending == old(pending)
    {
      CountedSnoc(readings, cur);
      assert readings + [cur] == [cur] && [cur][..base] == [];
      truth, lost, prevAbs, readings, resetSinceRead := ZERO, ZERO, Some(cur), [cur], false;
    }

    /** A reading that follows another adds the reset-aware delta of each direction. */
    method Next(cur: Bytes) returns (d: Bytes)
      requires Valid() && cur == counter && prevAbs.Some?
      modifies `prevAbs, `pending, `readings, `resetSinceRead, `lost
      ensures Valid() && prevAbs == Some(cur) && readings == old(readings) + [cur]
      ensures d == DeltaOf(old(prevAbs).value, cur) && pending == Plus(old(pending), d)
      ensures lost.up == old(lost).up + Overlooked(old(prevAbs).value.up, cur.up, old(resetSinceRead))
      ensures lost.down == old(lost).down + Overlooked(old(prevAbs).value.down, cur.down, old(resetSinceRead))
    {
      ghost var last := prevAbs.value;
      d := DeltaOf(prevAbs.value, cur);
      ReadBalances(start.up, total.up + pending.up, last.up, cur.up, truth.up, resetSinceRead, lost.up);
      ReadBalances(start.down, total.down + pending.down, last.down, cur.down, truth.down, resetSinceRead, lost.down);
      lost := Bytes(lost.up + Overlooked(last.up, cur.up, resetSinceRead),
                    lost.down + Overlooked(last.down, cur.down, resetSinceRead));
      resetSinceRead := false;
      Append(cur, d);
    }

    /** Take one reading of the counters; None when it was the first. */
    method Read(cur: Bytes) returns (d: Option<Bytes>)
      requires Valid() && cur == counter
      modifies `prevAbs, `pending, `readings, `truth, `resetSinceRead, `lost
      ensures Valid() && prevAbs == Some(cur) && readings == old(readings) + [cur]
      ensures d == if old(prevAbs).Some? then Some(DeltaOf(old(prevAbs).value, cur)) else None
      ensures pending == Seen(old(prevAbs), old(pending), cur)
      ensures truth == if old(prevAbs).Some? then old(truth) else ZERO
      ensures old(prevAbs).Some? && !old(resetSinceRead) ==> lost == old(lost)
    {
      d := None;
      if prevAbs.Some? {
        var delta := Next(cur);
        d := Some(delta);
      } else {
        First(cur);
      }
    }

    /** The transaction: baseline and total together. */
    method Commit()
      requires Exact()
      modifies `baseline, `total, `pending, `base
      ensures Exact() && baseline == prevAbs && base == |readings| && pending == ZERO
      ensures total.up == old(total).up + old(pending).up && total.down == old(total).down + old(pending).down
    {
      baseline, base := prevAbs, |readings|;
      total, pending := Plus(total, pending), ZERO;
      assert readings[..base] == readings;
    }

    /** Store baseline and total in one transaction; false, and nothing changed, when it raised. */
    method Flush() returns (ok: bool)
      requires Valid()
      modifies `baseline, `total, `pending, `base, `resetSinceBase, `lostOnCrash
      ensures Valid()
      ensures ok ==> baseline == prevAbs && pending == ZERO && base == |readings| && lostOnCrash == lost
      ensures ok ==> total.up == old(total).up + old(pending).up && total.down == old(total).down + old(pending).down
      ensures !ok ==> total == old(total) && baseline == old(baseline) && pending == old(pending) && base == old(base)
      ensures reliable ==> ok
    {
      ok := true;
      if !reliable { ok := *; }
      if ok {
        resetSinceBase, lostOnCrash := resetSinceRead, lost;
        Commit();
      }
    }
  }

  // ----- the order of the backlog -----------------------------------------------------------

  predicate Precedes(a: int, b: int, strictly: bool) {
    a <= b && (strictly ==> a < b)
  }

  predicate Increasing(queue: seq<Bucket>, strictly: bool) {
    forall i, j :: 0 <= i < j < |queue| ==> Precedes(queue[i].minute, queue[j].minute, strictly)
  }

  predicate Below(queue: seq<Bucket>, limit: int, strictly: bool) {
    forall i :: 0 <= i < |queue| ==> Precedes(queue[i].minute, limit, strictly)
  }

  /** A later bucket at the end, with or without the oldest dropped. */
  lemma AppendInOrder(queue: seq<Bucket>, b: Bucket, limit: int, strictly: bool)
    requires Increasing(queue, strictly) && Below(queue, b.minute, strictly)
    requires Below(queue, limit, strictly) && Precedes(b.minute, limit, strictly)
    ensures Increasing(queue + [b], strictly) && Below(queue + [b], limit, strictly)
    ensures queue != [] ==> Increasing(queue[1..] + [b], strictly) && Below(queue[1..] + [b], limit, strictly)
  {
  }

  lemma OldestOff(queue: seq<Bucket>, strictly: bool)
    requires queue != [] && Increasing(queue, strictly)
    ensures Increasing(queue[1..], strictly)
    ensures forall limit :: Below(queue, limit, strictly) ==> Below(queue[1..], limit, strictly)
  {
  }

  // ----- the minute series -----------------------------------------------------------------

  /** A clock that stepped back reads as the newest timestamp. */
  function Clamped(last: Option<int>, clock: int): int {
    if last.Some? && clock < last.value then last.value else clock
  }

  /** One more bucket, the oldest dropped once the backlog is full. */
  function Queued(queue: seq<Bucket>, b: Bucket): seq<Bucket> {
    (if |queue| < 1440 then queue else queue[1..]) + [b]
  }

  /** The backlog once the current minute is closed; an empty one is not kept. */
  function WithMinute(queue: seq<Bucket>, minute: Option<Bucket>): seq<Bucket> {
    if minute.Some? && minute.value.bytes != ZERO then Queued(queue, minute.value) else queue
  }

  predicate Over(minute: Option<Bucket>, cur: int) {
    minute.Some? && minute.value.minute != cur
  }

  /** What the minute `cur` already holds. */
  function Running(minute: Option<Bucket>, cur: int): Bytes {
    if minute.Some? && minute.value.minute == cur then minute.value.bytes else ZERO
  }

  /** The recorder's minute buckets: the current one, and completed ones not yet stored. */
  class MinuteSeries {
    const reliable: bool           // no write of this store raises
    var minute: Option<Bucket>
    var queue: seq<Bucket>
    var lastTs: Option<int>        // newest timestamp of the history series, milliseconds

    ghost var accepted: Bytes      // deltas charged to a minute
    ghost var stored: seq<Bucket>  // what was handed to the durable series, in order
    ghost var dropped: Bytes
    ghost var lost: Bytes          // held in memory at a crash
    ghost var stopping: bool       // the final flush has closed the current minute

    /** What memory holds. */
    ghost function Held(): Bytes
      reads `minute, `queue
    {
      if minute.Some? then Plus(Total(queue), minute.value.bytes) else Total(queue)
    }

    /** Every byte charged to a minute is stored, held, dropped, or was in memory at a crash. */
    ghost predicate Conserved()
      reads `minute, `queue, `accepted, `stored, `dropped, `lost
    {
      && accepted.up == Total(stored).up + Held().up + dropped.up + lost.up
      && accepted.down == Total(stored).down + Held().down + dropped.down + lost.down
    }

    /** The backlog is bounded and in minute order, before the current minute and the clock. Only
        the final flush can put a minute there that is not over. */
    ghost predicate InOrder()
      reads `queue, `minute, `lastTs, `stopping
    {
      && |queue| <= MAX_PENDING && Increasing(queue, !stopping)
      && (queue != [] || minute.Some? ==> lastTs.Some?)
      && (lastTs.Some? ==> Below(queue, lastTs.value / 60000, !stopping))
      && (minute.Some? ==>
            minute.value.minute <= lastTs.value / 60000 && Below(queue, minute.value.minute, !stopping))
    }

    ghost predicate Valid()
      reads this
    {
      Conserved() && InOrder()
    }

    constructor (reliable: bool)
      ensures Valid() && accepted == ZERO && lastTs == None && stored == [] && this.reliable == reliable
    {
      this.reliable := reliable;
      minute, queue, lastTs := None, [], None;
      accepted, stored, dropped, lost, stopping := ZERO, [], ZERO, ZERO, false;
    }

    method Crash()
      requires Valid()
      modifies this
      ensures Valid() && queue == [] && minute == None && lastTs == None && !stopping
      ensures lost == Plus(old(lost), old(Held()))
      ensures accepted == old(accepted) && stored == old(stored) && dropped == old(dropped)
    {
      lost := Plus(lost, Held());
      minute, queue, lastTs, stopping := None, [], None, false;
    }

    /** The history series clamps a clock that stepped back. */
    method RecordPoint(clock: int) returns (ts: int)
      requires Valid()
      modifies `lastTs
      ensures Valid() && lastTs == Some(ts)
      ensures ts == Clamped(old(lastTs), clock)
    {
      ts := if lastTs.Some? && clock < lastTs.value then lastTs.value else clock;
      lastTs := Some(ts);
    }

    /** Enqueue a completed bucket, dropping the oldest once the backlog is full. */
    method QueueMinute(b: Bucket)
      requires |queue| <= MAX_PENDING
      modifies `queue, `dropped
      ensures |queue| <= MAX_PENDING
      ensures dropped.up + Total(queue).up == old(dropped).up + Total(old(queue)).up + b.bytes.up
      ensures dropped.down + Total(queue).down == old(dropped).down + Total(old(queue)).down + b.bytes.down
      ensures queue == Queued(old(queue), b)
      ensures |old(queue)| < MAX_PENDING ==> dropped == old(dropped)
    {
      while |queue| >= MAX_PENDING
        invariant |queue| <= MAX_PENDING
        invariant queue == if |queue| == |old(queue)| then old(queue) else old(queue)[1..]
        invariant |old(queue)| < MAX_PENDING ==> dropped == old(dropped)
        invariant |queue| == |old(queue)| || |queue| + 1 == |old(queue)| == MAX_PENDING
        invariant dropped.up + Total(queue).up == old(dropped).up + Total(old(queue)).up
        invariant dropped.down + Total(queue).down == old(dropped).down + Total(old(queue)).down
        decreases |queue|
      {
        dropped := Plus(dropped, queue[0].bytes);
        queue := queue[1..];
      }
      TotalSnoc(queue, b);
      queue := queue + [b];
    }

    /** Enqueueing a later bucket keeps the order. */
    method Enqueue(b: Bucket, ghost limit: int, ghost strictly: bool)
      requires |queue| <= MAX_PENDING && Increasing(queue, strictly)
      requires Below(queue, b.minute, strictly) && Below(queue, limit, strictly) && Precedes(b.minute, limit, strictly)
      modifies `queue, `dropped
      ensures |queue| <= MAX_PENDING && Increasing(queue, strictly) && Below(queue, limit, strictly)
      ensures queue == Queued(old(queue), b)
      ensures |old(queue)| < MAX_PENDING ==> dropped == old(dropped)
      ensures dropped.up + Total(queue).up == old(dropped).up + Total(old(queue)).up + b.bytes.up
      ensures dropped.down + Total(queue).down == old(dropped).down + Total(old(queue)).down + b.bytes.down
    {
      AppendInOrder(queue, b, limit, strictly);
      QueueMinute(b);
    }

    /** Close the current bucket. */
    method CloseMinute()
      requires Valid() && minute.Some?
      requires !stopping ==> minute.value.minute < lastTs.value / 60000
      modifies `queue, `dropped, `minute
      ensures Valid() && minute == None
      ensures queue == WithMinute(old(queue), old(minute))
      ensures |old(queue)| < MAX_PENDING ==> dropped == old(dropped)
    {
      if minute.value.bytes != ZERO { Enqueue(minute.value, lastTs.value / 60000, !stopping); }
      minute := None;
    }

    /** The minute `cur`, which is the current one if there is one, grows by the delta. */
    method Charge(d: Bytes, cur: int)
      requires Valid() && lastTs.Some? && cur == lastTs.value / 60000 && !Over(minute, cur)
      modifies `minute, `accepted
      ensures Valid() && accepted == Plus(old(accepted), d)
      ensures minute == Some(Bucket(cur, Plus(Running(old(minute), cur), d)))
    {
      if minute.None? { minute := Some(Bucket(cur, ZERO)); }
      minute := Some(minute.value.(bytes := Plus(minute.value.bytes, d)));
      accepted := Plus(accepted, d);
    }

    /** Charge a delta to the minute of `ts`. */
    method Accumulate(d: Bytes, ts: int)
      requires Valid() && lastTs == Some(ts)
      modifies `queue, `dropped, `minute, `accepted
      ensures Valid() && accepted == Plus(old(accepted), d)
      // an earlier minute is over; this one grows by the delta
      ensures queue == if Over(old(minute), ts / 60000) then WithMinute(old(queue), old(minute)) else old(queue)
      ensures minute == if d != ZERO then Some(Bucket(ts / 60000, Plus(Running(old(minute), ts / 60000), d)))
                        else if Over(old(minute), ts / 60000) then None else old(minute)
      ensures |old(queue)| < MAX_PENDING ==> dropped == old(dropped)
    {
      var cur := ts / 60000;
      if minute.Some? && minute.value.minute != cur { CloseMinute(); }
      if d != ZERO { Charge(d, cur); }
    }

    /** The oldest bucket is stored, and only then removed. */
    method StoreOldest()
      requires Valid() && queue != []
      modifies `queue, `stored
      ensures Valid() && stored == old(stored) + [old(queue)[0]] && queue == old(queue)[1..]
    {
      TotalSnoc(stored, queue[0]);
      OldestOff(queue, !stopping);
      stored := stored + [queue[0]];
      queue := queue[1..];
    }

    /** Store completed buckets in order, each removed only once stored; a failure keeps the rest. */
    method Drain() returns (ok: bool)
      requires Valid()
      modifies `queue, `stored
      ensures Valid() && (ok ==> queue == [])
      ensures stored + queue == old(stored) + old(queue)
      ensures reliable ==> ok
    {
      while queue != []
        invariant Valid() && stored + queue == old(stored) + old(queue)
        decreases |queue|
      {
        if !reliable {
          if * { return false; }
        }
        assert stored + queue == stored + [queue[0]] + queue[1..];
        StoreOldest();
      }
      return true;
    }

    /** No minute is charged any more: the current one is closed, over or not. */
    method BeginStop()
      requires Valid()
      modifies `queue, `dropped, `minute, `stopping
      ensures Valid() && minute == None && queue == WithMinute(old(queue), old(minute))
      ensures |old(queue)| < MAX_PENDING ==> dropped == old(dropped)
    {
      stopping := true;
      if minute.Some? { CloseMinute(); }
    }

    /** The final flush closes the current minute first. */
    method FlushAll() returns (ok: bool)
      requires Valid()
      modifies this
      ensures Valid() && accepted == old(accepted) && lost == old(lost) && lastTs == old(lastTs)
      ensures ok ==> Held() == ZERO
      ensures stored + queue == old(stored) + WithMinute(old(queue), old(minute))
      ensures |old(queue)| < MAX_PENDING ==> dropped == old(dropped)
      ensures reliable ==> ok
    {
      BeginStop();
      ok := Drain();
    }
  }

  // ----- the recorder ----------------------------------------------------------------------

  /** Something is pending, and the last flush is old enough. */
  predicate FlushIsDue(pending: Bytes, ts: int, lastFlush: int) {
    pending != ZERO && ts - lastFlush >= 30000
  }

  predicate DueAfter(prev: Option<Bytes>, pending: Bytes, cur: Bytes, ts: int, lastFlush: int) {
    FlushIsDue(Seen(prev, pending, cur), ts, lastFlush)
  }

  class TrafficRecorder {
    const totals: DataUsed
    const minutes: MinuteSeries
    const reliable: bool
    var recovered: bool
    var lastFlush: int

    ghost predicate Valid()
      reads this, totals, minutes
    {
      && totals.Valid() && minutes.Valid() && (recovered ==> totals.prevAbs.Some?)
      && totals.reliable == minutes.reliable == reliable
    }

    constructor (total: Bytes, reliable: bool)
      ensures Valid() && fresh(totals) && fresh(minutes)
      ensures totals.start == total && this.reliable == reliable
    {
      this.reliable := reliable;
      totals := new DataUsed(total, reliable);
      minutes := new MinuteSeries(reliable);
      recovered, lastFlush := false, 0;
    }

    /** Account for one reading. The series is charged every delta but the first after a restored
        baseline, which spans the downtime. */
    method Account(ts: int, cur: Bytes)
      requires Valid() && minutes.lastTs == Some(ts) && cur == totals.counter
      modifies this, totals, minutes
      ensures Valid() && !recovered
      ensures totals.truth == if old(totals.prevAbs).None? then ZERO else old(totals.truth)
      ensures totals.readings == old(totals.readings) + [cur] && totals.prevAbs == Some(cur)
      ensures totals.total == old(totals.total) && totals.baseline == old(totals.baseline)
      ensures totals.pending == Seen(old(totals.prevAbs), old(totals.pending), cur)
      ensures minutes.stored == old(minutes.stored)
      ensures minutes.accepted ==
              if old(totals.prevAbs).None? || old(recovered) then old(minutes.accepted)
              else Plus(old(minutes.accepted), DeltaOf(old(totals.prevAbs).value, cur))
      ensures lastFlush == old(lastFlush)
    {
      var d := totals.Read(cur);
      if d.Some? && !recovered { minutes.Accumulate(d.value, ts); }
      recovered := false;
    }

    /** Everything seen is stored: the total grew by what was pending, and the baseline is the last
        reading. */
    ghost predicate Stored(total: Bytes, pending: Bytes, clock: int)
      reads this, totals
    {
      && totals.total.up == total.up + pending.up && totals.total.down == total.down + pending.down
      && totals.baseline == totals.prevAbs && totals.pending == ZERO && lastFlush == clock
    }

    method FlushTotal(ts: int, clock: int)
      requires Valid()
      modifies `lastFlush, totals`baseline, totals`total, totals`pending, totals`base, totals`resetSinceBase,
               totals`lostOnCrash
      ensures Valid()
      ensures totals.total == old(totals.total) || Stored(old(totals.total), old(totals.pending), clock)
      ensures reliable && FlushIsDue(old(totals.pending), ts, old(lastFlush)) ==>
                Stored(old(totals.total), old(totals.pending), clock)
      ensures !FlushIsDue(old(totals.pending), ts, old(lastFlush)) ==>
                && totals.total == old(totals.total) && totals.baseline == old(totals.baseline)
                && totals.pending == old(totals.pending) && lastFlush == old(lastFlush)
    {
      if totals.pending != ZERO && ts - lastFlush >= FLUSH_MS {
        var ok := totals.Flush();
        if ok { lastFlush := clock; }
      }
    }

    /** Flush what is due; a failure keeps everything for the next attempt. */
    method FlushDue(ts: int, clock: int)
      requires Valid()
      modifies this, totals, minutes
      ensures Valid() && recovered == old(recovered)
      ensures totals.truth == old(totals.truth) && totals.readings == old(totals.readings)
      ensures totals.prevAbs == old(totals.prevAbs) && minutes.accepted == old(minutes.accepted)
      ensures totals.total == old(totals.total) || Stored(old(totals.total), old(totals.pending), clock)
      ensures reliable && FlushIsDue(old(totals.pending), ts, old(lastFlush)) ==>
                Stored(old(totals.total), old(totals.pending), clock)
      ensures !FlushIsDue(old(totals.pending), ts, old(lastFlush)) ==>
                && totals.total == old(totals.total) && totals.baseline == old(totals.baseline)
                && totals.pending == old(totals.pending) && lastFlush == old(lastFlush)
      ensures minutes.stored + minutes.queue == old(minutes.stored) + old(minutes.queue)
      ensures reliable ==> minutes.queue == []
    {
      FlushTotal(ts, clock);
      var _ := minutes.Drain();
    }

    /** One sample of the clock and of xray's counters, which may be absent. */
    method Tick(clock: int, reading: Option<Bytes>)
      requires Valid() && (reading.Some? ==> reading.value == totals.counter)
      modifies this, totals, minutes
      ensures Valid()
      ensures reading.None? ==> totals.readings == old(totals.readings) && minutes.accepted == old(minutes.accepted)
      ensures reading.Some? ==> totals.readings == old(totals.readings) + [reading.value]
      ensures reading.Some? ==>
                minutes.accepted ==
                if old(totals.prevAbs).None? || old(recovered) then old(minutes.accepted)
                else Plus(old(minutes.accepted), DeltaOf(old(totals.prevAbs).value, reading.value))
      // no reading, nothing stored; a reading is stored with all that is pending exactly when due
      ensures reading.None? || !DueAfter(old(totals.prevAbs), old(totals.pending), reading.value,
                                         Clamped(old(minutes.lastTs), clock), old(lastFlush)) ==>
                totals.total == old(totals.total) && totals.baseline == old(totals.baseline)
      ensures reliable && reading.Some? && DueAfter(old(totals.prevAbs), old(totals.pending), reading.value,
                                                    Clamped(old(minutes.lastTs), clock), old(lastFlush)) ==>
                && Stored(old(totals.total), Seen(old(totals.prevAbs), old(totals.pending), reading.value), clock)
                && totals.baseline == reading
      ensures reliable && reading.Some? ==> minutes.queue == []
    {
      var ts := minutes.RecordPoint(clock);
      if reading.Some? {
        Account(ts, reading.value);
        FlushDue(ts, clock);
      }
    }

    /** The flush on shutdown; a total that cannot be stored keeps the minutes in memory too. */
    method FlushOnStop() returns (ok: bool)
      requires Valid()
      modifies this, totals, minutes
      ensures Valid()
      ensures ok && totals.prevAbs == Some(totals.counter) && !totals.resetSinceRead ==>
                && totals.total.up + totals.lost.up == totals.start.up + totals.truth.up
                && totals.total.down + totals.lost.down == totals.start.down + totals.truth.down
      ensures ok ==> minutes.Held() == ZERO && totals.pending == ZERO
      ensures reliable ==> ok && totals.baseline == totals.prevAbs
      ensures reliable ==>
                && totals.total.up == old(totals.total).up + old(totals.pending).up
                && totals.total.down == old(totals.total).down + old(totals.pending).down
    {
      ok := totals.Flush();
      if ok { ok := minutes.FlushAll(); }
    }

    method Crash()
      requires Valid()
      modifies this, totals, minutes
      ensures Valid() && recovered == totals.baseline.Some?
      ensures totals.total == old(totals.total)
    {
      totals.Crash();
      minutes.Crash();
      recovered, lastFlush := totals.baseline.Some?, 0;
    }
  }

  /** Traffic, a counter reset, a crash, a flush or a sample, chosen freely. */
  method AnyStep(r: TrafficRecorder)
    requires r.Valid()
    modifies r, r.totals, r.minutes
    ensures r.Valid()
  {
    var bytes: Bytes, clock: int := *, *;
    if * { if bytes.up >= 0 && bytes.down >= 0 { r.totals.Transfer(bytes); } }
    else if * { r.totals.ResetCounters(); }
    else if * { r.Crash(); }
    else if * { var _ := r.FlushOnStop(); }
    else if * { r.Tick(clock, None); }
    else { r.Tick(clock, Some(r.totals.counter)); }
  }

  /** Samples, failed and successful flushes, traffic, counter resets, crashes and restarts in any
      order. The stored total plus what is pending, what the counter still shows and what is lost is
      the starting value plus the bytes since the first reading it rests on: no byte is counted twice,
      and with the counter at the stored baseline the total is exact if and only if nothing is lost. */
  method AnyRun(start: Bytes, reliable: bool, steps: nat) returns (r: TrafficRecorder)
    ensures r.Valid() && r.totals.start == start
    ensures r.totals.baseline.None? ==> r.totals.total == start
    ensures r.totals.prevAbs.Some? ==>
              Balanced(start, Plus(r.totals.total, r.totals.pending), r.totals.prevAbs.value, r.totals.counter,
                       r.totals.truth, r.totals.resetSinceRead, r.totals.lost)
    ensures r.totals.baseline.Some? ==>
              && r.totals.total.up <= start.up + r.totals.truth.up
              && r.totals.total.down <= start.down + r.totals.truth.down
    ensures r.totals.baseline == Some(r.totals.counter) && !r.totals.resetSinceBase ==>
              (r.totals.total.up == start.up + r.totals.truth.up
               && r.totals.total.down == start.down + r.totals.truth.down
               <==> r.totals.lostOnCrash == ZERO)
  {
    r := new TrafficRecorder(start, reliable);
    for i := 0 to steps
      invariant r.Valid() && fresh(r) && fresh(r.totals) && fresh(r.minutes) && r.totals.start == start
    {
      AnyStep(r);
    }
  }
}
