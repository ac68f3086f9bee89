/** Incidents and downtime from the connection events. */
module Downtime {
  import opened Basics

  const DOWN_KINDS := {"disconnect", "xray-stop", "all-nodes-down", "stale-active"}
  const UP_KINDS := {"connect", "failover", "xray-restart"}

  datatype Event = Event(ts: int, kind: string)

  datatype Span = Span(started: int, ended: int, seconds: int, ongoing: bool)

  predicate IsDown(e: Event) { e.kind in DOWN_KINDS }
  predicate IsUp(e: Event) { e.kind in UP_KINDS }

  function Closed(started: int, ended: int, ongoing: bool): Span {
    Span(started, ended, if ended > started then ended - started else 0, ongoing)
  }

  // ----- the code --------------------------------------------------------------------------

  /** The closed spans, oldest first, and the start of the open one, if any. */
  datatype Tally = Tally(spans: seq<Span>, open: Option<int>)

  function Next(t: Tally, ts: int, down: bool, up: bool): Tally {
    if down && t.open.None? then t.(open := Some(ts))
    else if up && t.open.Some? then Tally(t.spans + [Closed(t.open.value, ts, false)], None)
    else t
  }

  function Folded(events: seq<Event>): Tally {
    if events == [] then Tally([], None)
    else
      var e := events[|events| - 1];
      Next(Folded(events[..|events| - 1]), e.ts, IsDown(e), IsUp(e))
  }

  /** All spans, oldest first; an open one ends at `now`. */
  function Cut(t: Tally, now: int): seq<Span> {
    if t.open.Some? then t.spans + [Closed(t.open.value, now, true)] else t.spans
  }

  function AllSpans(events: seq<Event>, now: int): seq<Span> {
    Cut(Folded(events), now)
  }

  function Reversed(spans: seq<Span>): seq<Span> {
    if spans == [] then [] else [spans[|spans| - 1]] + Reversed(spans[..|spans| - 1])
  }

  method Incidents(events: seq<Event>, now: int) returns (spans: seq<Span>)
    ensures spans == Reversed(AllSpans(events, now))
  {
    var oldestFirst: seq<Span>, open: Option<int> := [], None;
    for i := 0 to |events|
      invariant Folded(events[..i]) == Tally(oldestFirst, open)
    {
      var e := events[i];
      assert events[..i + 1][..i] == events[..i];
      if IsDown(e) && open.None? {
        open := Some(e.ts);
      } else if IsUp(e) && open.Some? {
        oldestFirst := oldestFirst + [Closed(open.value, e.ts, false)];
        open := None;
      }
    }
    assert events[..|events|] == events;
    if open.Some? { oldestFirst := oldestFirst + [Closed(open.value, now, true)]; }
    spans := [];
    for i := 0 to |oldestFirst|
      invariant spans == Reversed(oldestFirst[..i])
    {
      assert oldestFirst[..i + 1][..i] == oldestFirst[..i];
      spans := [oldestFirst[i]] + spans;
    }
    assert oldestFirst[..|oldestFirst|] == oldestFirst;
  }

  /** The part of a span after `since`. */
  function Inside(s: Span, since: int): int {
    var start := if s.started < since then since else s.started;
    if s.ended > start then s.ended - start else 0
  }

  function Sum(spans: seq<Span>, since: int): int {
    if spans == [] then 0 else Sum(spans[..|spans| - 1], since) + Inside(spans[|spans| - 1], since)
  }

  method TotalDowntime(spans: seq<Span>, since: int) returns (total: int)
    ensures total == Sum(spans, since)
  {
    total := 0;
    for i := 0 to |spans|
      invariant total == Sum(spans[..i], since)
    {
      assert spans[..i + 1][..i] == spans[..i];
      var start := if spans[i].started < since then since else spans[i].started;
      if spans[i].ended > start { total := total + (spans[i].ended - start); }
    }
    assert spans[..|spans|] == spans;
  }

  // ----- what it should be -----------------------------------------------------------------

  /** Down at second `t`: the latest up or down event at or before `t` is a down event. */
  predicate DownAt(events: seq<Event>, t: int) {
    if events == [] then false
    else
      var e := events[|events| - 1];
      if e.ts <= t && (IsDown(e) || IsUp(e)) then IsDown(e) else DownAt(events[..|events| - 1], t)
  }

  /** How many seconds of [from, to) are down. */
  function DownSeconds(events: seq<Event>, from: int, to: int): nat
    decreases if from < to then to - from else 0
  {
    if to <= from then 0 else DownSeconds(events, from, to - 1) + if DownAt(events, to - 1) then 1 else 0
  }

  predicate Ordered(events: seq<Event>) {
    forall i, j :: 0 <= i < j < |events| ==> events[i].ts <= events[j].ts
  }

  predicate NotAfter(events: seq<Event>, now: int) {
    forall i :: 0 <= i < |events| ==> events[i].ts <= now
  }

  // ----- and is ----------------------------------------------------------------------------

  lemma NoUpIsDown(e: Event)
    ensures !(IsDown(e) && IsUp(e))
  {
  }

  /** From its last event on, the state is the open span. */
  lemma {:induction false} OpenIsDown(events: seq<Event>, t: int)
    requires NotAfter(events, t)
    ensures DownAt(events, t) == Folded(events).open.Some?
    ensures Folded(events).open.Some? ==> Folded(events).open.value <= t
  {
    if events != [] {
      NoUpIsDown(events[|events| - 1]);
      OpenIsDown(events[..|events| - 1], t);
    }
  }

  /** Seconds on which two histories agree, or that are all down, or all up. */
  lemma {:induction false} SameSeconds(a: seq<Event>, b: seq<Event>, from: int, to: int)
    requires forall t :: from <= t < to ==> DownAt(a, t) == DownAt(b, t)
    ensures DownSeconds(a, from, to) == DownSeconds(b, from, to)
    decreases if from < to then to - from else 0
  {
    if from < to { SameSeconds(a, b, from, to - 1); }
  }

  /** What a steady stretch [mid, to) adds after `from`. */
  function Stretch(down: bool, from: int, mid: int, to: int): int {
    if !down || to <= from then 0 else if mid < from then to - from else to - mid
  }

  lemma {:induction false} SteadySeconds(events: seq<Event>, from: int, mid: int, to: int, down: bool)
    requires mid <= to && forall t :: mid <= t < to && from <= t ==> DownAt(events, t) == down
    ensures DownSeconds(events, from, to) ==
            DownSeconds(events, from, mid) + Stretch(down, from, mid, to)
    decreases if mid < to then to - mid else 0
  {
    if mid < to { SteadySeconds(events, from, mid, to - 1, down); }
  }

  /** The pointwise count up to any time after the last event is the sum over the spans, the open one
      counted up to that time. */
  lemma {:induction false} SpansCountSeconds(events: seq<Event>, since: int, until: int)
    requires Ordered(events) && NotAfter(events, until)
    ensures Sum(AllSpans(events, until), since) == DownSeconds(events, since, until)
    decreases |events|
  {
    if events == [] {
      NeverDown(since, until);
    } else {
      var init, e := events[..|events| - 1], events[|events| - 1];
      assert NotAfter(init, e.ts);
      SpansCountSeconds(init, since, e.ts);
      assert events == init + [e];
      SecondsStep(init, e, since, until);
      OpenIsDown(init, e.ts);
      NoUpIsDown(e);
      NextSum(Folded(init), e.ts, IsDown(e), IsUp(e), since, until);
    }
  }

  /** Before the event `e` nothing changed, after it the state is the open span. */
  lemma SecondsStep(init: seq<Event>, e: Event, since: int, until: int)
    requires NotAfter(init, e.ts) && e.ts <= until
    ensures DownSeconds(init + [e], since, until) ==
            DownSeconds(init, since, e.ts) + Stretch(Folded(init + [e]).open.Some?, since, e.ts, until)
  {
    var events := init + [e];
    assert events[..|init|] == init;
    forall t | t < e.ts ensures DownAt(events, t) == DownAt(init, t) {}
    SameSeconds(events, init, since, e.ts);
    var open := Folded(events).open.Some?;
    forall t | e.ts <= t ensures DownAt(events, t) == open {
      assert NotAfter(events, t);
      OpenIsDown(events, t);
    }
    SteadySeconds(events, since, e.ts, until, open);
  }

  /** What one more event at `ts` does to the sum: an up event closes the open span where the sum had
      cut it; after a down event, or while a span stays open, all the time from `ts` on is added. */
  lemma NextSum(t: Tally, ts: int, down: bool, up: bool, since: int, until: int)
    requires ts <= until && !(down && up)
    requires t.open.Some? ==> t.open.value <= ts
    ensures var next := Next(t, ts, down, up);
            Sum(Cut(next, until), since) == Sum(Cut(t, ts), since) + Stretch(next.open.Some?, since, ts, until)
  {
    CutSum(t, ts, since);
    CutSum(Next(t, ts, down, up), until, since);
    if t.open.Some? {
      SpanGrows(t.open.value, ts, until, since);
      if up { SumAppend(t.spans, Closed(t.open.value, ts, false), since); }
    } else if down {
      SpanGrows(ts, ts, until, since);
    }
  }

  /** A span that stays open from `ts` to `until` grows by that stretch. */
  lemma SpanGrows(started: int, ts: int, until: int, since: int)
    requires started <= ts <= until
    ensures Inside(Closed(started, until, true), since) ==
            Inside(Closed(started, ts, true), since) + Stretch(true, since, ts, until)
    ensures started == ts ==> Inside(Closed(started, ts, true), since) == 0
  {
  }

  lemma SumAppend(spans: seq<Span>, s: Span, since: int)
    ensures Sum(spans + [s], since) == Sum(spans, since) + Inside(s, since)
  {
    assert (spans + [s])[..|spans|] == spans;
  }

  lemma CutSum(t: Tally, now: int, since: int)
    ensures Sum(Cut(t, now), since) ==
            Sum(t.spans, since) + if t.open.Some? then Inside(Closed(t.open.value, now, true), since) else 0
  {
    if t.open.Some? { SumAppend(t.spans, Closed(t.open.value, now, true), since); }
  }

  lemma {:induction false} NeverDown(from: int, to: int)
    ensures DownSeconds([], from, to) == 0
    decreases if from < to then to - from else 0
  {
    if from < to { NeverDown(from, to - 1); }
  }

  // ----- the whole report ------------------------------------------------------------------

  lemma {:induction false} SumPrepend(s: Span, spans: seq<Span>, since: int)
    ensures Sum([s] + spans, since) == Inside(s, since) + Sum(spans, since)
  {
    if spans == [] {
      assert [s] + spans == [s] && [s][..0] == [];
    } else {
      SumPrepend(s, spans[..|spans| - 1], since);
      assert ([s] + spans)[..|spans|] == [s] + spans[..|spans| - 1];
    }
  }

  lemma {:induction false} SumReversed(spans: seq<Span>, since: int)
    ensures Sum(Reversed(spans), since) == Sum(spans, since)
  {
    if spans != [] {
      SumReversed(spans[..|spans| - 1], since);
      SumPrepend(spans[|spans| - 1], Reversed(spans[..|spans| - 1]), since);
    }
  }

  lemma {:induction false} ReversedAt(spans: seq<Span>)
    ensures |Reversed(spans)| == |spans|
    ensures forall i :: 0 <= i < |spans| ==> Reversed(spans)[i] == spans[|spans| - 1 - i]
  {
    if spans != [] { ReversedAt(spans[..|spans| - 1]); }
  }

  /** One after the other, none ending before it starts or after `until`. */
  predicate Successive(spans: seq<Span>, until: int) {
    && (forall i :: 0 <= i < |spans| ==> spans[i].started <= spans[i].ended <= until)
    && (forall i, j :: 0 <= i < j < |spans| ==> spans[i].ended <= spans[j].started)
  }

  lemma {:induction false} FoldedSuccessive(events: seq<Event>, until: int)
    requires Ordered(events) && NotAfter(events, until)
    ensures var Tally(spans, open) := Folded(events);
            && Successive(spans, until)
            && (open.Some? ==> open.value <= until && Successive(spans, open.value))
  {
    if events != [] {
      var init, e := events[..|events| - 1], events[|events| - 1];
      assert NotAfter(init, e.ts);
      FoldedSuccessive(init, e.ts);
    }
  }

  // ----- second by second --------------------------------------------------------------------

  predicate CoveredBy(spans: seq<Span>, t: int) {
    exists i :: 0 <= i < |spans| && spans[i].started <= t < spans[i].ended
  }

  lemma CoveredAppend(spans: seq<Span>, s: Span, t: int)
    ensures CoveredBy(spans + [s], t) <==> CoveredBy(spans, t) || s.started <= t < s.ended
  {
    var all := spans + [s];
    assert all[|spans|] == s;
    assert forall i :: 0 <= i < |spans| ==> all[i] == spans[i];
  }

  lemma CutCovers(t: Tally, now: int, s: int)
    ensures CoveredBy(Cut(t, now), s) <==> CoveredBy(t.spans, s) || (t.open.Some? && t.open.value <= s < now)
  {
    if t.open.Some? { CoveredAppend(t.spans, Closed(t.open.value, now, true), s); }
  }

  /** One more event at `ts` changes nothing before it. */
  lemma NextCovers(t: Tally, ts: int, down: bool, up: bool, until: int, s: int)
    requires s < ts <= until && !(down && up)
    ensures CoveredBy(Cut(Next(t, ts, down, up), until), s) <==> CoveredBy(Cut(t, ts), s)
  {
    CutCovers(t, ts, s);
    CutCovers(Next(t, ts, down, up), until, s);
    if up && t.open.Some? { CoveredAppend(t.spans, Closed(t.open.value, ts, false), s); }
  }

  /** A second before `until` is in one of the spans exactly if the latest up or down event at or before
      it is a down event. */
  lemma {:induction false} SpansCoverExactly(events: seq<Event>, until: int, t: int)
    requires Ordered(events) && NotAfter(events, until) && t < until
    ensures CoveredBy(AllSpans(events, until), t) <==> DownAt(events, t)
    decreases |events|
  {
    if events != [] {
      var init, e := events[..|events| - 1], events[|events| - 1];
      assert NotAfter(init, e.ts) && NotAfter(events, e.ts);
      NoUpIsDown(e);
      if t < e.ts {
        SpansCoverExactly(init, e.ts, t);
        NextCovers(Folded(init), e.ts, IsDown(e), IsUp(e), until, t);
      } else {
        FoldedSuccessive(events, e.ts);
        assert NotAfter(events, t);
        OpenIsDown(events, t);
        CutCovers(Folded(events), until, t);
      }
    }
  }

  /** How the spans are labelled: with their length, and the newest one as ongoing, until `now`, exactly
      while it is down. */
  predicate Labelled(spans: seq<Span>, downNow: bool, now: int) {
    && (forall i :: 0 <= i < |spans| ==>
          spans[i].seconds == spans[i].ended - spans[i].started && (spans[i].ongoing <==> i == 0 && downNow))
    && (downNow ==> spans != [] && spans[0].ended == now)
  }

  lemma {:induction false} FoldedLabels(events: seq<Event>, until: int)
    requires Ordered(events) && NotAfter(events, until)
    ensures forall s :: s in Folded(events).spans ==> s.seconds == s.ended - s.started && !s.ongoing
  {
    if events != [] {
      var init, e := events[..|events| - 1], events[|events| - 1];
      assert NotAfter(init, e.ts);
      FoldedLabels(init, e.ts);
      FoldedSuccessive(init, e.ts);
    }
  }

  lemma IncidentsLabelled(events: seq<Event>, now: int)
    requires Ordered(events) && NotAfter(events, now)
    ensures Labelled(Reversed(AllSpans(events, now)), DownAt(events, now), now)
  {
    FoldedLabels(events, now);
    FoldedSuccessive(events, now);
    OpenIsDown(events, now);
    ReversedAt(AllSpans(events, now));
    var t := Folded(events);
    assert forall i :: 0 <= i < |t.spans| ==> t.spans[i] in t.spans;
  }

  /** Disjoint, and newest first. */
  predicate NewestFirst(spans: seq<Span>) {
    && (forall i :: 0 <= i < |spans| ==> spans[i].started <= spans[i].ended)
    && (forall i, j :: 0 <= i < j < |spans| ==> spans[j].ended <= spans[i].started)
  }

  lemma IncidentsNewestFirst(events: seq<Event>, now: int)
    requires Ordered(events) && NotAfter(events, now)
    ensures NewestFirst(Reversed(AllSpans(events, now)))
  {
    FoldedSuccessive(events, now);
    ReversedAt(AllSpans(events, now));
    assert Successive(AllSpans(events, now), now);
  }

  lemma {:induction false} CoveredReversed(spans: seq<Span>, t: int)
    ensures CoveredBy(Reversed(spans), t) <==> CoveredBy(spans, t)
  {
    ReversedAt(spans);
    var back := Reversed(spans);
    if CoveredBy(spans, t) {
      var i :| 0 <= i < |spans| && spans[i].started <= t < spans[i].ended;
      assert back[|spans| - 1 - i] == spans[i];
    }
    if CoveredBy(back, t) {
      var i :| 0 <= i < |back| && back[i].started <= t < back[i].ended;
      assert spans[|spans| - 1 - i] == back[i];
    }
  }

  /** The incidents and the downtime since `since`: for ordered events not after `now`, exactly the
      seconds of [since, now) whose latest up or down event is a down event. */
  method Report(events: seq<Event>, since: int, now: int) returns (spans: seq<Span>, total: int)
    ensures Ordered(events) && NotAfter(events, now) ==>
              && NewestFirst(spans) && Labelled(spans, DownAt(events, now), now)
              && (forall t :: t < now ==> (CoveredBy(spans, t) <==> DownAt(events, t)))
              && total == DownSeconds(events, since, now)
  {
    spans := Incidents(events, now);
    total := TotalDowntime(spans, since);
    if Ordered(events) && NotAfter(events, now) {
      IncidentsNewestFirst(events, now);
      IncidentsLabelled(events, now);
      forall t | t < now ensures CoveredBy(spans, t) <==> DownAt(events, t) {
        SpansCoverExactly(events, now, t);
        CoveredReversed(AllSpans(events, now), t);
      }
      SumReversed(AllSpans(events, now), since);
      SpansCountSeconds(events, since, now);
    }
  }
}
