/** A lane's capacity history (dashboard/lane_history.py) and the reader it must satisfy
    (dashboard/history_read.py). Times and slot-seconds are whole seconds, averages are exact fractions. */
module LaneHistory {
  import opened Common

  const SAMPLE_SPAN_SECONDS := 120
  const CLEANUP_SECONDS := 60

  /** One job's time on its runner. */
  datatype Span = Span(start: int, stop: int)

  datatype Host = Host(slotsOccupied: nat, slotsRunning: nat, warm: nat, jobsWaiting: Option<nat>)

  datatype Point = Point(at: int, host: Host)

  predicate Ordered(spans: seq<Span>) { forall k :: 0 <= k < |spans| ==> spans[k].start <= spans[k].stop }

  /** Samples come oldest first, and none is after now. */
  predicate Ascending(points: seq<Point>, now: int)
  {
    && (forall i, j :: 0 <= i < j < |points| ==> points[i].at < points[j].at)
    && (forall i :: 0 <= i < |points| ==> points[i].at <= now)
  }

  // What spans mean for one interval

  datatype Kind = Covering | Cleaning | Overlap | Starting

  function Part(kind: Kind, begin: int, end: int, span: Span): (r: int)
    ensures begin <= end ==> r >= 0
  {
    match kind
    case Covering => if span.start <= begin <= span.stop then 1 else 0
    case Cleaning => if span.stop < begin <= span.stop + CLEANUP_SECONDS then 1 else 0
    case Overlap => Max(0, Min(span.stop, end) - Max(span.start, begin))
    case Starting => if begin < span.start < end then end - span.start else 0
  }

  function Total(kind: Kind, begin: int, end: int, spans: seq<Span>): (r: int)
    ensures begin <= end ==> r >= 0
  {
    if spans == [] then 0 else Part(kind, begin, end, spans[0]) + Total(kind, begin, end, spans[1..])
  }

  datatype Usage = Usage(running: int, warm: int, reserved: int, weight: int)

  function Cap(host: Host, limit: Option<nat>): nat
  {
    if limit.Some? && limit.value != 0 then limit.value else host.slotsOccupied
  }

  /** Busy runners that neither a span nor a cleanup explains. */
  function Loose(host: Host, covering: int, cleaning: int): nat
  {
    Max(0, host.slotsRunning - covering - cleaning)
  }

  function Unspanned(host: Host, begin: int, end: int, spans: seq<Span>): nat
  {
    Loose(host, Total(Covering, begin, end, spans), Total(Cleaning, begin, end, spans))
  }

  /** Slot-seconds over `weight` seconds, from what the spans add up to. */
  function Accounted(host: Host, weight: int, begun: bool, covering: int, cleaning: int, overlap: int, starting: int,
                     limit: Option<nat>): Usage
  {
    var jobs := (if begun then overlap else covering) + Loose(host, covering, cleaning) * weight;
    var cap := Cap(host, limit);
    var running := Min(jobs, cap * weight);
    var up := Min(host.slotsOccupied, cap) - Max(host.slotsRunning, covering + cleaning);
    var idle := Min(Max(0, Max(0, up) * weight - starting), Max(0, cap * weight - running));
    var warm := Min(idle, host.warm * weight);
    Usage(running, warm, idle - warm, weight)
  }

  /** Slot-seconds of one sample's interval. `seconds` is 0 only for a sample whose interval has not begun. */
  function Interval(host: Host, begin: int, end: int, seconds: int, spans: seq<Span>, limit: Option<nat>): Usage
  {
    Accounted(host, end - begin, seconds != 0, Total(Covering, begin, end, spans), Total(Cleaning, begin, end, spans),
              Total(Overlap, begin, end, spans), Total(Starting, begin, end, spans), limit)
  }

  function Seconds(points: seq<Point>, i: nat, now: int): int
    requires i < |points|
  {
    Min(SAMPLE_SPAN_SECONDS, (if i + 1 < |points| then points[i + 1].at else now) - points[i].at)
  }

  function End(points: seq<Point>, i: nat, now: int): int
    requires i < |points|
  {
    var seconds := Seconds(points, i, now);
    points[i].at + if seconds != 0 then seconds else 1
  }

  datatype Sampled = Sampled(point: Point, seconds: int, usage: Usage)

  /** The meaning of a sample: its interval evaluated against every span. */
  function SampledAt(points: seq<Point>, i: nat, spans: seq<Span>, limit: Option<nat>, now: int): Sampled
    requires i < |points|
  {
    var begin, end, seconds := points[i].at, End(points, i, now), Seconds(points, i, now);
    Sampled(points[i], seconds, Interval(points[i].host, begin, end, seconds, spans, limit))
  }

  // The sweep

  predicate Before(a: Span, b: Span) { a.start < b.start || (a.start == b.start && a.stop <= b.stop) }

  function InsertSpan(x: Span, s: seq<Span>): (r: seq<Span>)
    ensures forall k :: 0 <= k < |r| ==> r[k] == x || r[k] in s
  {
    if s == [] || Before(x, s[0]) then [x] + s else [s[0]] + InsertSpan(x, s[1..])
  }

  function SortSpans(s: seq<Span>): seq<Span>
  {
    if s == [] then [] else InsertSpan(s[0], SortSpans(s[1..]))
  }

  predicate ByStart(s: seq<Span>) { forall i, j :: 0 <= i < j < |s| ==> s[i].start <= s[j].start }

  lemma {:induction false} SortedByStart(s: seq<Span>)
    ensures ByStart(SortSpans(s))
  {
    if s != [] {
      SortedByStart(s[1..]);
      InsertedByStart(s[0], SortSpans(s[1..]));
    }
  }

  lemma {:induction false} InsertedByStart(x: Span, s: seq<Span>)
    requires ByStart(s)
    ensures ByStart(InsertSpan(x, s))
  {
    if s != [] && !Before(x, s[0]) {
      InsertedByStart(x, s[1..]);
      var rest := InsertSpan(x, s[1..]);
      assert forall k :: 0 <= k < |rest| ==> s[0].start <= rest[k].start;
    }
  }

  /** What the sweep looks at for an interval: a span that starts before it ends, and ended no more than CLEANUP_SECONDS
      before it begins. */
  predicate Holds(span: Span, begin: int, end: int) { span.start < end && span.stop + CLEANUP_SECONDS >= begin }

  function Held(spans: seq<Span>, begin: int, end: int): seq<Span>
  {
    if spans == [] then []
    else if Holds(spans[0], begin, end) then [spans[0]] + Held(spans[1..], begin, end)
    else Held(spans[1..], begin, end)
  }

  /** What the sweep gives a sample: its interval evaluated against the spans held for it. */
  function SweepAt(points: seq<Point>, i: nat, spans: seq<Span>, limit: Option<nat>, now: int): Sampled
    requires i < |points|
  {
    SampledAt(points, i, Held(spans, points[i].at, End(points, i, now)), limit, now)
  }

  predicate SweptRows(rows: seq<Sampled>, points: seq<Point>, spans: seq<Span>, limit: Option<nat>, now: int)
  {
    |rows| == |points| && forall i :: 0 <= i < |rows| ==> rows[i] == SweepAt(points, i, spans, limit, now)
  }

  function Swept(points: seq<Point>, spans: seq<Span>, limit: Option<nat>, now: int): (r: seq<Sampled>)
    ensures SweptRows(r, points, spans, limit, now)
  {
    seq(|points|, i requires 0 <= i < |points| => SweepAt(points, i, spans, limit, now))
  }

  lemma SweptIsOnly(rows: seq<Sampled>, points: seq<Point>, spans: seq<Span>, limit: Option<nat>, now: int)
    requires SweptRows(rows, points, spans, limit, now)
    ensures rows == Swept(points, spans, limit, now)
  {
  }

  lemma {:induction false} InsertedHeld(x: Span, s: seq<Span>, kind: Kind, begin: int, end: int)
    ensures Total(kind, begin, end, Held(InsertSpan(x, s), begin, end))
      == (if Holds(x, begin, end) then Part(kind, begin, end, x) else 0) + Total(kind, begin, end, Held(s, begin, end))
  {
    if s != [] && !Before(x, s[0]) {
      InsertedHeld(x, s[1..], kind, begin, end);
      assert InsertSpan(x, s)[1..] == InsertSpan(x, s[1..]);
      HeldOfFirst(s[0], InsertSpan(x, s[1..]), kind, begin, end);
      HeldOfFirst(s[0], s[1..], kind, begin, end);
      FirstApart(s);
    } else {
      HeldOfFirst(x, s, kind, begin, end);
    }
  }

  lemma HeldOfFirst(first: Span, rest: seq<Span>, kind: Kind, begin: int, end: int)
    ensures Total(kind, begin, end, Held([first] + rest, begin, end))
      == (if Holds(first, begin, end) then Part(kind, begin, end, first) else 0) + Total(kind, begin, end, Held(rest, begin, end))
  {
    assert ([first] + rest)[1..] == rest;
    assert ([first] + Held(rest, begin, end))[1..] == Held(rest, begin, end);
  }

  lemma {:induction false} SortedHeld(s: seq<Span>, kind: Kind, begin: int, end: int)
    ensures Total(kind, begin, end, Held(SortSpans(s), begin, end)) == Total(kind, begin, end, Held(s, begin, end))
  {
    if s != [] {
      SortedHeld(s[1..], kind, begin, end);
      InsertedHeld(s[0], SortSpans(s[1..]), kind, begin, end);
      HeldOfFirst(s[0], s[1..], kind, begin, end);
      FirstApart(s);
    }
  }

  /** The spans that had not ended more than CLEANUP_SECONDS before `begin`. */
  function Near(spans: seq<Span>, begin: int): seq<Span>
  {
    if spans == [] then []
    else if spans[0].stop + CLEANUP_SECONDS >= begin then [spans[0]] + Near(spans[1..], begin)
    else Near(spans[1..], begin)
  }

  lemma {:induction false} NearConcat(a: seq<Span>, b: seq<Span>, begin: int)
    ensures Near(a + b, begin) == Near(a, begin) + Near(b, begin)
  {
    if a == [] {
      assert a + b == b;
    } else {
      assert (a + b)[1..] == a[1..] + b;
      NearConcat(a[1..], b, begin);
    }
  }

  lemma {:induction false} NearTwice(a: seq<Span>, earlier: int, begin: int)
    requires earlier <= begin
    ensures Near(Near(a, earlier), begin) == Near(a, begin)
  {
    if a != [] {
      NearTwice(a[1..], earlier, begin);
      if a[0].stop + CLEANUP_SECONDS >= earlier {
        assert ([a[0]] + Near(a[1..], earlier))[1..] == Near(a[1..], earlier);
      }
    }
  }

  lemma {:induction false} HeldConcat(a: seq<Span>, b: seq<Span>, begin: int, end: int)
    ensures Held(a + b, begin, end) == Held(a, begin, end) + Held(b, begin, end)
  {
    if a == [] {
      assert a + b == b;
    } else {
      assert (a + b)[1..] == a[1..] + b;
      HeldConcat(a[1..], b, begin, end);
    }
  }

  lemma {:induction false} StartedHeld(spans: seq<Span>, begin: int, end: int)
    requires forall k :: 0 <= k < |spans| ==> spans[k].start < end
    ensures Held(spans, begin, end) == Near(spans, begin)
  {
    if spans != [] { StartedHeld(spans[1..], begin, end); }
  }

  lemma {:induction false} LaterNotHeld(spans: seq<Span>, begin: int, end: int)
    requires forall k :: 0 <= k < |spans| ==> spans[k].start >= end
    ensures Held(spans, begin, end) == []
  {
    if spans != [] { LaterNotHeld(spans[1..], begin, end); }
  }

  /** The sweep has taken up exactly the spans that start before `end`. */
  predicate TakenUp(ordered: seq<Span>, index: nat, end: int)
    requires index <= |ordered|
  {
    && (forall k :: 0 <= k < index ==> ordered[k].start < end)
    && (index < |ordered| ==> ordered[index].start >= end)
  }

  lemma TakenUpIsHeld(ordered: seq<Span>, index: nat, begin: int, end: int)
    requires index <= |ordered| && ByStart(ordered) && TakenUp(ordered, index, end)
    ensures Near(ordered[..index], begin) == Held(ordered, begin, end)
  {
    var later := ordered[index..];
    assert forall k :: 0 <= k < |later| ==> later[k] == ordered[index + k];
    Halves(ordered, index);
    HeldConcat(ordered[..index], later, begin, end);
    StartedHeld(ordered[..index], begin, end);
    LaterNotHeld(later, begin, end);
  }

  /** The spans left from the sorted ones, once taken up and pruned, count what the spans held for the interval count. */
  lemma SweepTotals(kind: Kind, begin: int, end: int, spans: seq<Span>, index: nat)
    requires index <= |SortSpans(spans)| && TakenUp(SortSpans(spans), index, end)
    ensures Total(kind, begin, end, Near(SortSpans(spans)[..index], begin)) == Total(kind, begin, end, Held(spans, begin, end))
  {
    SortedByStart(spans);
    TakenUpIsHeld(SortSpans(spans), index, begin, end);
    SortedHeld(spans, kind, begin, end);
  }

  lemma SweepInterval(host: Host, begin: int, end: int, seconds: int, spans: seq<Span>, index: nat, limit: Option<nat>)
    requires index <= |SortSpans(spans)| && TakenUp(SortSpans(spans), index, end)
    ensures Interval(host, begin, end, seconds, Near(SortSpans(spans)[..index], begin), limit)
            == Interval(host, begin, end, seconds, Held(spans, begin, end), limit)
  {
    SweepTotals(Covering, begin, end, spans, index);
    SweepTotals(Cleaning, begin, end, spans, index);
    SweepTotals(Overlap, begin, end, spans, index);
    SweepTotals(Starting, begin, end, spans, index);
  }

  /** Takes up the spans that start before the interval ends. */
  method TakeUp(ordered: seq<Span>, before: seq<Span>, taken: nat, begin: int, end: int)
      returns (active: seq<Span>, index: nat)
    requires taken <= |ordered| && Near(before, begin) == Near(ordered[..taken], begin)
    requires forall k :: 0 <= k < taken ==> ordered[k].start < end
    ensures index <= |ordered| && TakenUp(ordered, index, end) && Near(active, begin) == Near(ordered[..index], begin)
  {
    active, index := before, taken;
    while index < |ordered| && ordered[index].start < end
      invariant index <= |ordered| && Near(active, begin) == Near(ordered[..index], begin)
      invariant forall k :: 0 <= k < index ==> ordered[k].start < end
    {
      NearConcat(active, [ordered[index]], begin);
      NearConcat(ordered[..index], [ordered[index]], begin);
      SplitAt(ordered, index);
      active := active + [ordered[index]];
      index := index + 1;
    }
  }

  /** The sweep takes up spans by start and drops them once they ended long before, so that each sample sees the spans
      held for its interval and no others. */
  method Intervals(points: seq<Point>, spans: seq<Span>, limit: Option<nat>, now: int) returns (rows: seq<Sampled>)
    requires Ascending(points, now)
    ensures rows == Swept(points, spans, limit, now)
  {
    rows := [];
    var ordered, active, index := SortSpans(spans), [], 0;
    ghost var last := if points == [] then 0 else points[0].at;
    for i := 0 to |points|
      invariant 0 <= index <= |ordered| && active == Near(ordered[..index], last)
      invariant i < |points| ==> last <= points[i].at && forall k :: 0 <= k < index ==> ordered[k].start < End(points, i, now)
      invariant |rows| == i && forall k :: 0 <= k < i ==> rows[k] == SweepAt(points, k, spans, limit, now)
    {
      var begin := points[i].at;
      NearTwice(ordered[..index], last, begin);
      active, index := TakeUp(ordered, active, index, begin, End(points, i, now));
      active := Near(active, begin);
      rows := rows + [SampledAt(points, i, active, limit, now)];
      SweepInterval(points[i].host, begin, End(points, i, now), Seconds(points, i, now), spans, index, limit);
      if i + 1 < |points| { EndsAscend(points, i, now); }
      last := begin;
    }
    SweptIsOnly(rows, points, spans, limit, now);
  }

  lemma EndsAscend(points: seq<Point>, i: nat, now: int)
    requires Ascending(points, now) && i + 1 < |points|
    ensures End(points, i, now) <= points[i + 1].at < End(points, i + 1, now)
  {
  }

  // When the spans held for a sample tell it what all spans do

  /** No span ends more than a second before it starts. */
  predicate Timely(spans: seq<Span>) { forall k :: 0 <= k < |spans| ==> spans[k].start <= spans[k].stop + 1 }

  /** Whatever the samples, the sweep gives each what all spans together give it. */
  ghost predicate SweptWhole(spans: seq<Span>)
  {
    forall points, i: nat, limit, now :: Ascending(points, now) && i < |points| ==>
      SweepAt(points, i, spans, limit, now) == SampledAt(points, i, spans, limit, now)
  }

  /** The sweep agrees with all spans, whatever the samples, exactly when no span ends more than a second before it starts. */
  lemma SweptWholeExactly(spans: seq<Span>)
    ensures SweptWhole(spans) <==> Timely(spans)
  {
    if Timely(spans) {
      forall points, i: nat, limit, now | Ascending(points, now) && i < |points|
        ensures SweepAt(points, i, spans, limit, now) == SampledAt(points, i, spans, limit, now)
      {
        TimelyIsSweptWhole(points, i, spans, limit, now);
      }
    } else {
      var k :| 0 <= k < |spans| && spans[k].start > spans[k].stop + 1;
      var points := LateSpanIsMissed(spans, k);
      assert !SweptWhole(spans);
    }
  }

  lemma TimelyIsSweptWhole(points: seq<Point>, i: nat, spans: seq<Span>, limit: Option<nat>, now: int)
    requires Timely(spans) && Ascending(points, now) && i < |points|
    ensures SweepAt(points, i, spans, limit, now) == SampledAt(points, i, spans, limit, now)
  {
    var begin, end := points[i].at, End(points, i, now);
    TimelyTotals(Covering, begin, end, spans);
    TimelyTotals(Cleaning, begin, end, spans);
    TimelyTotals(Overlap, begin, end, spans);
    TimelyTotals(Starting, begin, end, spans);
  }

  lemma {:induction false} TimelyTotals(kind: Kind, begin: int, end: int, spans: seq<Span>)
    requires begin < end && Timely(spans)
    ensures Total(kind, begin, end, Held(spans, begin, end)) == Total(kind, begin, end, spans)
  {
    if spans != [] {
      TimelyTotals(kind, begin, end, spans[1..]);
      HeldOfFirst(spans[0], spans[1..], kind, begin, end);
      FirstApart(spans);
    }
  }

  /** What covers an instant, or overlaps an interval, is held for it, timely or not. */
  lemma {:induction false} HeldCovers(kind: Kind, begin: int, end: int, spans: seq<Span>)
    requires begin < end && (kind.Covering? || kind.Overlap?)
    ensures Total(kind, begin, end, Held(spans, begin, end)) == Total(kind, begin, end, spans)
  {
    if spans != [] {
      HeldCovers(kind, begin, end, spans[1..]);
      HeldOfFirst(spans[0], spans[1..], kind, begin, end);
      FirstApart(spans);
    }
  }

  lemma {:induction false} HeldIsPart(kind: Kind, begin: int, end: int, spans: seq<Span>)
    requires begin < end
    ensures Total(kind, begin, end, Held(spans, begin, end)) <= Total(kind, begin, end, spans)
    ensures (exists k :: 0 <= k < |spans| && !Holds(spans[k], begin, end) && Part(kind, begin, end, spans[k]) > 0) ==>
      Total(kind, begin, end, Held(spans, begin, end)) < Total(kind, begin, end, spans)
  {
    if spans != [] {
      HeldIsPart(kind, begin, end, spans[1..]);
      HeldOfFirst(spans[0], spans[1..], kind, begin, end);
      FirstApart(spans);
      assert forall k :: 1 <= k < |spans| ==> spans[k] == spans[1..][k - 1];
    }
  }

  /** A span that ends more than a second before it starts: one sample, taken a second after its end, sees its cleanup
      in all spans and not in the sweep, which has not taken it up. */
  lemma LateSpanIsMissed(spans: seq<Span>, k: nat) returns (points: seq<Point>)
    requires k < |spans| && spans[k].start > spans[k].stop + 1
    ensures |points| == 1 && Ascending(points, spans[k].stop + 1)
    ensures SweepAt(points, 0, spans, None, spans[k].stop + 1) != SampledAt(points, 0, spans, None, spans[k].stop + 1)
  {
    var begin := spans[k].stop + 1;
    var end := begin + 1;
    HeldCovers(Covering, begin, end, spans);
    HeldIsPart(Cleaning, begin, end, spans);
    var covering, cleaning := Total(Covering, begin, end, spans), Total(Cleaning, begin, end, spans);
    assert !Holds(spans[k], begin, end) && Part(Cleaning, begin, end, spans[k]) == 1;
    points := [Point(begin, Host(covering + cleaning, covering + cleaning, 0, None))];
    assert End(points, 0, begin) == end && Seconds(points, 0, begin) == 0;
  }

  /** For one, a span that started in the interval and ended long before is dropped, though all spans count it. */
  lemma UnorderedSpanIsDropped()
    ensures var points, spans := [Point(300, Host(1, 0, 0, None)), Point(420, Host(1, 0, 0, None))], [Span(400, 0)];
      SweepAt(points, 0, spans, Some(1), 420) != SampledAt(points, 0, spans, Some(1), 420)
  {
    var host, span := Host(1, 0, 0, None), Span(400, 0);
    var points := [Point(300, host), Point(420, host)];
    assert End(points, 0, 420) == 420 && Seconds(points, 0, 420) == 120;
    ReservedOfOneSlot(host, [span]);
    ReservedOfOneSlot(host, Held([span], 300, 420));
    TotalOfOne(Covering, 300, 420, span);
    TotalOfOne(Cleaning, 300, 420, span);
    TotalOfOne(Overlap, 300, 420, span);
    TotalOfOne(Starting, 300, 420, span);
  }

  /** Of one idle runner, what a starting job leaves reserved. */
  lemma ReservedOfOneSlot(host: Host, spans: seq<Span>)
    requires host == Host(1, 0, 0, None)
    ensures Total(Covering, 300, 420, spans) == 0 && Total(Cleaning, 300, 420, spans) == 0 && Total(Overlap, 300, 420, spans) == 0 ==>
      Interval(host, 300, 420, 120, spans, Some(1)).reserved == Max(0, 120 - Total(Starting, 300, 420, spans))
  {
  }

  lemma TotalOfOne(kind: Kind, begin: int, end: int, span: Span)
    ensures Total(kind, begin, end, [span]) == Part(kind, begin, end, span) && Total(kind, begin, end, []) == 0
    ensures Held([span], begin, end) == if Holds(span, begin, end) then [span] else []
  {
    assert [span][1..] == [];
  }

  // What a sample counts, second by second

  /** The jobs that run in the second that begins at t. */
  function JobsIn(spans: seq<Span>, t: int): nat
  {
    if spans == [] then 0 else (if spans[0].start <= t < spans[0].stop then 1 else 0) + JobsIn(spans[1..], t)
  }

  function JobTime(spans: seq<Span>, begin: int, end: int): nat
    decreases end - begin
  {
    if end <= begin then 0 else JobTime(spans, begin, end - 1) + JobsIn(spans, end - 1)
  }

  /** The jobs that started after `begin` and by t. */
  function StartedBy(spans: seq<Span>, begin: int, t: int): nat
  {
    if spans == [] then 0 else (if begin < spans[0].start <= t then 1 else 0) + StartedBy(spans[1..], begin, t)
  }

  function StartedTime(spans: seq<Span>, begin: int, end: int): nat
    decreases end - begin
  {
    if end <= begin then 0 else StartedTime(spans, begin, end - 1) + StartedBy(spans, begin, end - 1)
  }

  /** The jobs on at this time, ends included. */
  function JobsAt(spans: seq<Span>, t: int): nat
  {
    if spans == [] then 0 else (if spans[0].start <= t <= spans[0].stop then 1 else 0) + JobsAt(spans[1..], t)
  }

  /** The runners that a job or its cleanup explains at this time. */
  function ExplainedAt(spans: seq<Span>, t: int): nat
  {
    if spans == [] then 0
    else (if spans[0].start <= t <= spans[0].stop || 0 < t - spans[0].stop <= 60 then 1 else 0) + ExplainedAt(spans[1..], t)
  }

  lemma {:induction false} LastSecond(spans: seq<Span>, begin: int, end: int)
    requires begin <= end
    ensures Total(Overlap, begin, end + 1, spans) == Total(Overlap, begin, end, spans) + JobsIn(spans, end)
    ensures Total(Starting, begin, end + 1, spans) == Total(Starting, begin, end, spans) + StartedBy(spans, begin, end)
  {
    if spans != [] { LastSecond(spans[1..], begin, end); }
  }

  lemma {:induction false} NoTime(spans: seq<Span>, begin: int)
    ensures Total(Overlap, begin, begin, spans) == 0 && Total(Starting, begin, begin, spans) == 0
  {
    if spans != [] { NoTime(spans[1..], begin); }
  }

  lemma {:induction false} SecondsAdd(spans: seq<Span>, begin: int, end: int)
    requires begin <= end
    ensures Total(Overlap, begin, end, spans) == JobTime(spans, begin, end)
    ensures Total(Starting, begin, end, spans) == StartedTime(spans, begin, end)
    decreases end - begin
  {
    if begin == end {
      NoTime(spans, begin);
    } else {
      SecondsAdd(spans, begin, end - 1);
      LastSecond(spans, begin, end - 1);
    }
  }

  lemma {:induction false} RunnersAdd(spans: seq<Span>, begin: int, end: int)
    ensures Total(Covering, begin, end, spans) == JobsAt(spans, begin)
    ensures Total(Covering, begin, end, spans) + Total(Cleaning, begin, end, spans) == ExplainedAt(spans, begin)
  {
    if spans != [] { RunnersAdd(spans[1..], begin, end); }
  }

  /** The seconds a sample stands for: until the next one or now, and no more than two minutes. */
  predicate StandsFor(points: seq<Point>, i: nat, now: int, seconds: int)
    requires i < |points|
  {
    var later := (if i + 1 == |points| then now else points[i + 1].at) - points[i].at;
    seconds == if later > 120 then 120 else later
  }

  /** Running: the jobs of each second, or those on at the newest sample, and every second of the busy runners that neither a
      job nor a cleanup explains, up to the slots there are. */
  predicate CountsRunning(usage: Usage, host: Host, begun: bool, spans: seq<Span>, begin: int, slots: nat)
  {
    var unexplained := Max(0, host.slotsRunning - ExplainedAt(spans, begin));
    usage.running == Min(slots * usage.weight,
                         (if begun then JobTime(spans, begin, begin + usage.weight) else JobsAt(spans, begin)) + unexplained * usage.weight)
  }

  /** Idle: every second of the runners that are up and neither busy nor explained, less what starting jobs take of it, up to
      the slots that running leaves. The warm pool's runners come first, and what is left is reserved. */
  predicate CountsIdle(usage: Usage, host: Host, spans: seq<Span>, begin: int, slots: nat)
  {
    var up := Max(0, Min(host.slotsOccupied, slots) - Max(host.slotsRunning, ExplainedAt(spans, begin)));
    var idle := Max(0, up * usage.weight - StartedTime(spans, begin, begin + usage.weight));
    && usage.warm + usage.reserved == Min(idle, slots * usage.weight - usage.running)
    && usage.warm == Min(usage.warm + usage.reserved, host.warm * usage.weight)
  }

  lemma IntervalRuns(host: Host, begin: int, end: int, seconds: int, spans: seq<Span>, limit: Option<nat>)
    requires begin < end
    ensures CountsRunning(Interval(host, begin, end, seconds, spans, limit), host, seconds != 0, spans, begin, Cap(host, limit))
  {
    SecondsAdd(spans, begin, end);
    RunnersAdd(spans, begin, end);
  }

  lemma IntervalIdles(host: Host, begin: int, end: int, seconds: int, spans: seq<Span>, limit: Option<nat>)
    requires begin < end
    ensures CountsIdle(Interval(host, begin, end, seconds, spans, limit), host, spans, begin, Cap(host, limit))
  {
    SecondsAdd(spans, begin, end);
    RunnersAdd(spans, begin, end);
    TimesIsNatural(host.warm, end - begin);
  }

  /** What a sample counts of these spans, with a limit of its own or else the slots it saw taken. */
  lemma SampleCounts(points: seq<Point>, i: nat, spans: seq<Span>, limit: Option<nat>, now: int)
    requires i < |points| && Ascending(points, now)
    ensures var row, host := SampledAt(points, i, spans, limit, now), points[i].host;
      var slots := match limit case Some(n) => (if n > 0 then n else host.slotsOccupied) case None => host.slotsOccupied;
      && row.point == points[i] && StandsFor(points, i, now, row.seconds) && row.usage.weight == Max(1, row.seconds)
      && CountsRunning(row.usage, host, row.seconds > 0, spans, points[i].at, slots)
      && CountsIdle(row.usage, host, spans, points[i].at, slots)
  {
    var begin, end, seconds := points[i].at, End(points, i, now), Seconds(points, i, now);
    IntervalRuns(points[i].host, begin, end, seconds, spans, limit);
    IntervalIdles(points[i].host, begin, end, seconds, spans, limit);
  }

  /** For one, a minute of a job on the one runner there is counts as a minute of running. */
  lemma JobIsCounted()
    ensures var points := [Point(0, Host(1, 1, 0, None)), Point(60, Host(1, 1, 0, None))];
      SweepAt(points, 0, [Span(0, 60)], Some(1), 60).usage == Usage(60, 0, 0, 60)
  {
    var host, span := Host(1, 1, 0, None), Span(0, 60);
    TotalOfOne(Covering, 0, 60, span);
    TotalOfOne(Cleaning, 0, 60, span);
    TotalOfOne(Overlap, 0, 60, span);
    TotalOfOne(Starting, 0, 60, span);
    assert Accounted(host, 60, true, 1, 0, 60, 0, Some(1)) == Usage(60, 0, 0, 60);
  }

  // What an interval's slot-seconds add up to

  lemma TimesIsNatural(a: nat, b: nat)
    ensures a * b >= 0
  {
  }

  /** Running, warm and reserved are never negative and fit the slots for as long as the interval weighs. */
  lemma UsageFitsTheSlots(host: Host, begin: int, end: int, seconds: int, spans: seq<Span>, limit: Option<nat>)
    requires begin < end
    ensures var u := Interval(host, begin, end, seconds, spans, limit);
      && u.running >= 0 && u.warm >= 0 && u.reserved >= 0 && u.weight == end - begin
      && u.running + u.warm + u.reserved <= Cap(host, limit) * u.weight
  {
    var weight := end - begin;
    TimesIsNatural(Unspanned(host, begin, end, spans), weight);
    TimesIsNatural(Cap(host, limit), weight);
    TimesIsNatural(host.warm, weight);
  }

  lemma SampledFits(points: seq<Point>, i: nat, spans: seq<Span>, limit: Option<nat>, now: int)
    requires i < |points| && Ascending(points, now)
    ensures var row := SampledAt(points, i, spans, limit, now); var u := row.usage;
      && 0 <= row.seconds <= SAMPLE_SPAN_SECONDS && u.weight == (if row.seconds != 0 then row.seconds else 1)
      && u.running >= 0 && u.warm >= 0 && u.reserved >= 0
      && u.running + u.warm + u.reserved <= Cap(points[i].host, limit) * u.weight
  {
    UsageFitsTheSlots(points[i].host, points[i].at, End(points, i, now), Seconds(points, i, now), spans, limit);
  }

  /** A row whose slot-seconds fit this many slots. */
  predicate Fits(row: Sampled, slots: nat)
  {
    var u := row.usage;
    && row.seconds >= 0 && u.weight > 0 && (row.seconds != 0 ==> u.weight == row.seconds)
    && u.running >= 0 && u.warm >= 0 && u.reserved >= 0 && u.running + u.warm + u.reserved <= slots * u.weight
  }

  /** A row of this sample: its time, its weight, and slot-seconds that fit its slots. */
  predicate SamplesRow(row: Sampled, points: seq<Point>, i: nat, limit: Option<nat>, now: int)
    requires i < |points|
  {
    && row.point == points[i] && row.seconds == Seconds(points, i, now)
    && row.usage.weight == (if row.seconds != 0 then row.seconds else 1)
    && Fits(row, Cap(points[i].host, limit))
  }

  predicate Sampling(rows: seq<Sampled>, points: seq<Point>, limit: Option<nat>, now: int)
  {
    |rows| == |points| && forall i :: 0 <= i < |rows| ==> SamplesRow(rows[i], points, i, limit, now)
  }

  lemma SweptSamples(points: seq<Point>, spans: seq<Span>, limit: Option<nat>, now: int)
    requires Ascending(points, now)
    ensures Sampling(Swept(points, spans, limit, now), points, limit, now)
  {
    var rows := Swept(points, spans, limit, now);
    forall i | 0 <= i < |rows|
      ensures SamplesRow(rows[i], points, i, limit, now)
    {
      assert rows[i] == SweepAt(points, i, spans, limit, now);
      SampledFits(points, i, Held(spans, points[i].at, End(points, i, now)), limit, now);
    }
  }

  // No job counts for longer than it ran

  /** What one span adds to the intervals from sample i on. */
  function Contribution(points: seq<Point>, i: nat, span: Span, now: int): int
    requires i <= |points|
    decreases |points| - i
  {
    if i == |points| then 0
    else (if Seconds(points, i, now) != 0 then Part(Overlap, points[i].at, End(points, i, now), span) else 0)
         + Contribution(points, i + 1, span, now)
  }

  lemma {:induction false} SpanCountsAtMostItsLength(points: seq<Point>, i: nat, span: Span, now: int)
    requires i <= |points| && Ascending(points, now)
    ensures Contribution(points, i, span, now) <=
      if i < |points| then Max(0, span.stop - Max(span.start, points[i].at)) else 0
    decreases |points| - i
  {
    if i < |points| {
      SpanCountsAtMostItsLength(points, i + 1, span, now);
    }
  }

  function Lengths(spans: seq<Span>): int
  {
    if spans == [] then 0 else Max(0, spans[0].stop - spans[0].start) + Lengths(spans[1..])
  }

  /** The job seconds in the intervals from sample i on that have begun. */
  function JobSeconds(points: seq<Point>, i: nat, spans: seq<Span>, now: int): int
    requires i <= |points|
    decreases |points| - i
  {
    if i == |points| then 0
    else (if Seconds(points, i, now) != 0 then Total(Overlap, points[i].at, End(points, i, now), spans) else 0)
         + JobSeconds(points, i + 1, spans, now)
  }

  lemma {:induction false} JobSecondsOfOneMore(points: seq<Point>, i: nat, spans: seq<Span>, now: int)
    requires i <= |points| && spans != []
    ensures JobSeconds(points, i, spans, now) == Contribution(points, i, spans[0], now) + JobSeconds(points, i, spans[1..], now)
    decreases |points| - i
  {
    if i < |points| { JobSecondsOfOneMore(points, i + 1, spans, now); }
  }

  lemma {:induction false} NoSpansNoJobSeconds(points: seq<Point>, i: nat, now: int)
    requires i <= |points|
    ensures JobSeconds(points, i, [], now) == 0
    decreases |points| - i
  {
    if i < |points| { NoSpansNoJobSeconds(points, i + 1, now); }
  }

  lemma {:induction false} JobSecondsWithinLengths(points: seq<Point>, spans: seq<Span>, now: int)
    requires Ascending(points, now)
    ensures JobSeconds(points, 0, spans, now) <= Lengths(spans)
  {
    if spans == [] {
      NoSpansNoJobSeconds(points, 0, now);
    } else {
      JobSecondsOfOneMore(points, 0, spans, now);
      SpanCountsAtMostItsLength(points, 0, spans[0], now);
      JobSecondsWithinLengths(points, spans[1..], now);
    }
  }

  // One range of the page

  datatype Field = Running | Warm | Reserved | Weight

  function Value(field: Field, row: Sampled): int
  {
    match field
    case Running => row.usage.running
    case Warm => row.usage.warm
    case Reserved => row.usage.reserved
    case Weight => row.usage.weight
  }

  function Sum(field: Field, rows: seq<Sampled>): int
  {
    if rows == [] then 0 else Value(field, rows[0]) + Sum(field, rows[1..])
  }

  /** The rows whose interval has begun. */
  function Timed(rows: seq<Sampled>): (r: seq<Sampled>)
    ensures forall k :: 0 <= k < |r| ==> r[k] in rows && r[k].seconds != 0
  {
    if rows == [] then [] else if rows[0].seconds != 0 then [rows[0]] + Timed(rows[1..]) else Timed(rows[1..])
  }

  function Inside(points: seq<Point>, start: int): (r: seq<Point>)
    ensures forall k :: 0 <= k < |r| ==> r[k] in points && r[k].at >= start
  {
    if points == [] then [] else if points[0].at >= start then [points[0]] + Inside(points[1..], start) else Inside(points[1..], start)
  }

  /** A range's samples are exactly those since it began. */
  lemma {:induction false} InsideCounts(points: seq<Point>, start: int, point: Point)
    ensures multiset(Inside(points, start))[point] == if point.at >= start then multiset(points)[point] else 0
  {
    if points != [] {
      InsideCounts(points[1..], start, point);
      FirstApart(points);
    }
  }

  /** The running time of the runners that none of the spans held for a sample explains. */
  function UnspannedAt(points: seq<Point>, i: nat, spans: seq<Span>, now: int): int
    requires i < |points|
  {
    var begin, end := points[i].at, End(points, i, now);
    Unspanned(points[i].host, begin, end, Held(spans, begin, end)) * (end - begin)
  }

  function UnspannedFrom(points: seq<Point>, i: nat, spans: seq<Span>, now: int): int
    requires i <= |points|
    decreases |points| - i
  {
    if i == |points| then 0
    else (if Seconds(points, i, now) != 0 then UnspannedAt(points, i, spans, now) else 0) + UnspannedFrom(points, i + 1, spans, now)
  }

  /** Each row from the i-th sample on has its sample's seconds, and weighs that or one second. */
  ghost predicate Weighed(rows: seq<Sampled>, points: seq<Point>, i: nat, now: int)
  {
    && i <= |points| && |rows| == |points| - i
    && (forall k :: 0 <= k < |rows| ==> rows[k].seconds == Seconds(points, i + k, now))
    && (forall k :: 0 <= k < |rows| && rows[k].seconds != 0 ==> rows[k].usage.weight == rows[k].seconds)
  }

  /** Each row that has begun runs no more than its spans and its unspanned runners. */
  ghost predicate Explained(rows: seq<Sampled>, points: seq<Point>, i: nat, spans: seq<Span>, now: int)
  {
    && i <= |points| && |rows| == |points| - i
    && forall k :: 0 <= k < |rows| && rows[k].seconds != 0 ==> rows[k].usage.running <= Explanation(points, i + k, spans, now)
  }

  function Explanation(points: seq<Point>, i: nat, spans: seq<Span>, now: int): int
    requires i < |points|
  {
    Total(Overlap, points[i].at, End(points, i, now), spans) + UnspannedAt(points, i, spans, now)
  }

  lemma SamplingIsWeighed(rows: seq<Sampled>, points: seq<Point>, limit: Option<nat>, now: int)
    requires Sampling(rows, points, limit, now)
    ensures Weighed(rows, points, 0, now)
  {
    forall k | 0 <= k < |rows|
      ensures rows[k].seconds == Seconds(points, 0 + k, now)
      ensures rows[k].seconds != 0 ==> rows[k].usage.weight == rows[k].seconds
    {
      assert SamplesRow(rows[k], points, k, limit, now);
    }
  }

  /** No sample's slots are more than these. */
  predicate CapsWithin(points: seq<Point>, limit: Option<nat>, slots: nat)
  {
    forall p :: p in points ==> Cap(p.host, limit) <= slots
  }

  lemma SamplingFits(rows: seq<Sampled>, points: seq<Point>, limit: Option<nat>, now: int, slots: nat)
    requires Sampling(rows, points, limit, now) && CapsWithin(points, limit, slots)
    ensures AllFit(rows, slots)
  {
    forall k | 0 <= k < |rows|
      ensures Fits(rows[k], slots)
    {
      assert SamplesRow(rows[k], points, k, limit, now) && points[k] in points;
      TimesOrder(Cap(points[k].host, limit), slots, rows[k].usage.weight);
    }
  }

  lemma SweptIsExplained(points: seq<Point>, spans: seq<Span>, limit: Option<nat>, now: int)
    requires Ascending(points, now)
    ensures Explained(Swept(points, spans, limit, now), points, 0, spans, now)
  {
    var rows := Swept(points, spans, limit, now);
    forall i | 0 <= i < |rows| && rows[i].seconds != 0
      ensures rows[i].usage.running <= Explanation(points, i, spans, now)
    {
      assert rows[i] == SweepAt(points, i, spans, limit, now);
      HeldCovers(Overlap, points[i].at, End(points, i, now), spans);
    }
  }

  lemma {:induction false} RunningFrom(rows: seq<Sampled>, points: seq<Point>, i: nat, spans: seq<Span>, now: int)
    requires Weighed(rows, points, i, now) && Explained(rows, points, i, spans, now)
    ensures Sum(Running, Timed(rows)) <= JobSeconds(points, i, spans, now) + UnspannedFrom(points, i, spans, now)
  {
    if rows != [] {
      var row, rest := rows[0], rows[1..];
      assert Weighed(rest, points, i + 1, now) && Explained(rest, points, i + 1, spans, now);
      RunningFrom(rest, points, i + 1, spans, now);
      if row.seconds != 0 {
        assert ([row] + Timed(rest))[1..] == Timed(rest);
        assert row.usage.running <= Explanation(points, i, spans, now);
      }
    }
  }

  /** The total running time, less what runners no span covers add, is at most the summed span lengths. */
  lemma RunningWithinSpans(points: seq<Point>, spans: seq<Span>, limit: Option<nat>, now: int)
    requires Ascending(points, now)
    ensures Sum(Running, Timed(Swept(points, spans, limit, now))) - UnspannedFrom(points, 0, spans, now) <= Lengths(spans)
  {
    var rows := Swept(points, spans, limit, now);
    SweptSamples(points, spans, limit, now);
    SweptIsExplained(points, spans, limit, now);
    SamplingIsWeighed(rows, points, limit, now);
    RunningFrom(rows, points, 0, spans, now);
    JobSecondsWithinLengths(points, spans, now);
  }

  function Covered(rows: seq<Sampled>): int
  {
    if rows == [] then 0 else rows[0].seconds + Covered(rows[1..])
  }

  /** The covered time is the weight of the rows that count, and no more than the time since the first. */
  lemma {:induction false} CoveredIsWeight(rows: seq<Sampled>, points: seq<Point>, i: nat, now: int)
    requires Weighed(rows, points, i, now) && Ascending(points, now)
    ensures Covered(rows) == Sum(Weight, Timed(rows))
    ensures 0 <= Covered(rows) <= if i < |points| then now - points[i].at else 0
  {
    if rows != [] {
      var row, rest := rows[0], rows[1..];
      assert Weighed(rest, points, i + 1, now);
      CoveredIsWeight(rest, points, i + 1, now);
      assert row.seconds == Seconds(points, i, now);
      if row.seconds != 0 { assert ([row] + Timed(rest))[1..] == Timed(rest); }
    }
  }

  predicate AllFit(rows: seq<Sampled>, slots: nat) { forall k :: 0 <= k < |rows| ==> Fits(rows[k], slots) }

  lemma {:induction false} SumsFit(rows: seq<Sampled>, slots: nat)
    requires AllFit(rows, slots)
    ensures Sum(Running, rows) >= 0 && Sum(Warm, rows) >= 0 && Sum(Reserved, rows) >= 0 && Sum(Weight, rows) >= |rows|
    ensures Sum(Running, rows) + Sum(Warm, rows) + Sum(Reserved, rows) <= slots * Sum(Weight, rows)
  {
    if rows != [] {
      SumsFit(rows[1..], slots);
      Distribute(slots, rows[0].usage.weight, Sum(Weight, rows[1..]));
    }
  }

  lemma Distribute(a: int, b: int, c: int)
    ensures a * (b + c) == a * b + a * c
  {
  }

  // What is published

  /** The quotient as Python's round gives it: half goes to the even side. */
  function Round(num: nat, den: nat): nat
    requires den > 0
  {
    var q, r := num / den, num % den;
    if 2 * r < den || (2 * r == den && q % 2 == 0) then q else q + 1
  }

  lemma TimesOrder(a: int, b: int, c: int)
    requires c > 0
    ensures a <= b <==> a * c <= b * c
  {
    if a <= b {
      assert (b - a) * c >= 0;
    } else {
      assert (a - b) * c > 0;
    }
  }

  /** The nearest whole number, and of two the even one. */
  predicate IsRounded(r: nat, num: nat, den: nat)
  {
    && 2 * (r * den) <= 2 * num + den && 2 * num <= 2 * (r * den) + den
    && (2 * (r * den) == 2 * num + den || 2 * num == 2 * (r * den) + den ==> r % 2 == 0)
  }

  lemma RoundIsNearest(num: nat, den: nat)
    requires den > 0
    ensures IsRounded(Round(num, den), num, den)
  {
    var q, r := num / den, num % den;
    assert num == q * den + r;
    assert (q + 1) * den == q * den + den;
  }

  lemma RoundWithin(num: nat, den: nat, most: nat)
    requires den > 0 && num <= most * den
    ensures Round(num, den) <= most
  {
    var q, r := num / den, num % den;
    assert num == q * den + r;
    TimesOrder(q, most, den);
  }

  /** A bar: averages in hundredths of a slot, or no sample at all. */
  datatype Bucket = NoSample | Bucket(running: nat, warm: nat, reserved: nat, waiting: Option<nat>)

  function MostWaiting(rows: seq<Sampled>): Option<nat>
  {
    if rows == [] then None
    else
      var rest, here := MostWaiting(rows[1..]), rows[0].point.host.jobsWaiting;
      if here.None? then rest else if rest.None? || rest.value < here.value then here else rest
  }

  function Hundredths(total: int, den: int): nat
  {
    if total >= 0 && den > 0 then Round(100 * total, den) else 0
  }

  /** Averages over the rows that have begun, or over all of them when none has. */
  function BucketOf(rows: seq<Sampled>): Bucket
  {
    if rows == [] then NoSample
    else
      var timed := if Timed(rows) != [] then Timed(rows) else rows;
      var seconds := Sum(Weight, timed);
      Bucket(Hundredths(Sum(Running, timed), seconds), Hundredths(Sum(Warm, timed), seconds),
             Hundredths(Sum(Reserved, timed), seconds), MostWaiting(rows))
  }

  lemma {:induction false} MostWaitingIsMost(rows: seq<Sampled>)
    ensures IsMostWaiting(MostWaiting(rows), rows)
  {
    if rows != [] {
      MostWaitingIsMost(rows[1..]);
      assert forall k :: 1 <= k < |rows| ==> rows[k] == rows[1..][k - 1];
      var rest, here := MostWaiting(rows[1..]), rows[0].point.host.jobsWaiting;
      if MostWaiting(rows).Some? && MostWaiting(rows) != here {
        var k :| 0 <= k < |rows[1..]| && rows[1..][k].point.host.jobsWaiting == rest;
        assert rows[k + 1].point.host.jobsWaiting == MostWaiting(rows);
      }
    }
  }

  // What a bar and a range say of their rows

  /** The slot-seconds of the rows, only of those that have begun or of all. */
  function Totals(rows: seq<Sampled>, begunOnly: bool): Usage
  {
    if rows == [] then Usage(0, 0, 0, 0)
    else
      var rest, u := Totals(rows[1..], begunOnly), rows[0].usage;
      if begunOnly && rows[0].seconds == 0 then rest
      else Usage(u.running + rest.running, u.warm + rest.warm, u.reserved + rest.reserved, u.weight + rest.weight)
  }

  predicate SumsAre(rows: seq<Sampled>, u: Usage)
  {
    Sum(Running, rows) == u.running && Sum(Warm, rows) == u.warm && Sum(Reserved, rows) == u.reserved && Sum(Weight, rows) == u.weight
  }

  lemma {:induction false} SumsAreTotals(rows: seq<Sampled>)
    ensures SumsAre(rows, Totals(rows, false)) && SumsAre(Timed(rows), Totals(rows, true))
    ensures Timed(rows) != [] <==> AnyBegun(rows)
  {
    if rows != [] {
      SumsAreTotals(rows[1..]);
      assert forall k :: 1 <= k < |rows| ==> rows[k] == rows[1..][k - 1];
      if rows[0].seconds != 0 { assert ([rows[0]] + Timed(rows[1..]))[1..] == Timed(rows[1..]); }
    }
  }

  predicate AnyBegun(rows: seq<Sampled>) { exists k :: 0 <= k < |rows| && rows[k].seconds != 0 }

  predicate Averages(bucket: Bucket, u: Usage)
  {
    && bucket.Bucket? && u.weight > 0 && u.running >= 0 && u.warm >= 0 && u.reserved >= 0
    && IsRounded(bucket.running, 100 * u.running, u.weight) && IsRounded(bucket.warm, 100 * u.warm, u.weight)
    && IsRounded(bucket.reserved, 100 * u.reserved, u.weight)
  }

  /** The largest waiting count that any of the rows saw. */
  predicate IsMostWaiting(most: Option<nat>, rows: seq<Sampled>)
  {
    && (most.None? <==> forall k :: 0 <= k < |rows| ==> rows[k].point.host.jobsWaiting.None?)
    && (most.Some? ==> exists k :: 0 <= k < |rows| && rows[k].point.host.jobsWaiting == most)
    && (most.Some? ==> forall k :: 0 <= k < |rows| && rows[k].point.host.jobsWaiting.Some? ==>
          rows[k].point.host.jobsWaiting.value <= most.value)
  }

  /** A bar of rows that fit their slots: the averages, in hundredths of a slot, over the time of those that have begun, or of
      all when none has, and the largest waiting count any of them saw. */
  lemma BucketMeans(rows: seq<Sampled>, slots: nat)
    requires rows != [] && forall k :: 0 <= k < |rows| ==> Fits(rows[k], slots)
    ensures Averages(BucketOf(rows), Totals(rows, AnyBegun(rows))) && IsMostWaiting(BucketOf(rows).waiting, rows)
  {
    var timed := if Timed(rows) != [] then Timed(rows) else rows;
    SumsAreTotals(rows);
    MostWaitingIsMost(rows);
    TimedFits(rows, slots);
    SumsFit(timed, slots);
    RoundIsNearest(100 * Sum(Running, timed), Sum(Weight, timed));
    RoundIsNearest(100 * Sum(Warm, timed), Sum(Weight, timed));
    RoundIsNearest(100 * Sum(Reserved, timed), Sum(Weight, timed));
  }

  /** A range of rows that fit their slots: the covered time in hundredths of an hour, and of the rows that have begun the
      share of the limit that ran, in tenths of a percent, and the warm and the idle time in hundredths of an hour. Without
      time there is no share and no hours, and without a limit no share. */
  lemma RangeMeans(buckets: seq<Bucket>, rows: seq<Sampled>, limit: Option<nat>, slots: nat)
    requires forall k :: 0 <= k < |rows| ==> Fits(rows[k], slots)
    ensures var range, u := RangeOf(buckets, rows, limit), Totals(rows, true);
      && range.buckets == buckets && u.running >= 0 && u.warm >= 0 && u.reserved >= 0 && u.weight >= 0
      && IsRounded(range.coveredHours, 100 * u.weight, 3600)
      && (range.busyTenths.Some? <==> u.weight > 0 && limit.Some? && limit.value > 0)
      && (range.busyTenths.Some? ==> IsRounded(range.busyTenths.value, 1000 * u.running, u.weight * limit.value))
      && (range.warmHours.Some? <==> u.weight > 0) && (range.idleHours.Some? <==> u.weight > 0)
      && (u.weight > 0 ==>
            IsRounded(range.warmHours.value, 100 * u.warm, 3600) && IsRounded(range.idleHours.value, 100 * u.reserved, 3600))
  {
    SumsAreTotals(rows);
    TimedFits(rows, slots);
    SumsFit(Timed(rows), slots);
    CoveredIsWeighed(rows, slots);
    RoundIsNearest(100 * Covered(rows), 3600);
    if Covered(rows) > 0 {
      RoundIsNearest(100 * Sum(Warm, Timed(rows)), 3600);
      RoundIsNearest(100 * Sum(Reserved, Timed(rows)), 3600);
      if limit.Some? && limit.value > 0 {
        TimesPositive(Covered(rows), limit.value);
        RoundIsNearest(1000 * Sum(Running, Timed(rows)), Covered(rows) * limit.value);
      }
    }
  }

  lemma TimesPositive(a: nat, b: nat)
    requires a > 0 && b > 0
    ensures a * b > 0
  {
  }

  lemma {:induction false} CoveredIsWeighed(rows: seq<Sampled>, slots: nat)
    requires forall k :: 0 <= k < |rows| ==> Fits(rows[k], slots)
    ensures Covered(rows) == Sum(Weight, Timed(rows))
  {
    if rows != [] {
      CoveredIsWeighed(rows[1..], slots);
      if rows[0].seconds != 0 { assert ([rows[0]] + Timed(rows[1..]))[1..] == Timed(rows[1..]); }
    }
  }

  lemma {:induction false} InBucketCounts(rows: seq<Sampled>, start: int, step: nat, index: int, row: Sampled)
    requires step > 0
    ensures multiset(InBucket(rows, start, step, index))[row] == if (row.point.at - start) / step == index then multiset(rows)[row] else 0
    decreases |rows|
  {
    if rows != [] {
      InBucketCounts(rows[..|rows| - 1], start, step, index, row);
      LastApart(rows);
    }
  }

  /** A bar holds exactly the rows of its time. */
  lemma InBucketExactly(rows: seq<Sampled>, start: int, step: nat, index: int, row: Sampled)
    requires step > 0
    ensures multiset(InBucket(rows, start, step, index))[row] ==
      if start + index * step <= row.point.at < start + index * step + step then multiset(rows)[row] else 0
  {
    InBucketCounts(rows, start, step, index, row);
    QuotientIs(row.point.at - start, step, index);
  }

  lemma QuotientIs(from: int, step: nat, index: int)
    requires step > 0
    ensures from / step == index <==> index * step <= from < index * step + step
  {
    var q, r := from / step, from % step;
    assert from == q * step + r;
    if q < index { TimesOrder(q + 1, index, step); }
    if q > index { TimesOrder(index + 1, q, step); }
  }

  /** The rows of one bar, in order. */
  function InBucket(rows: seq<Sampled>, start: int, step: nat, index: int): (r: seq<Sampled>)
    requires step > 0
    ensures forall k :: 0 <= k < |r| ==> r[k] in rows
  {
    if rows == [] then []
    else
      var last, rest := rows[|rows| - 1], InBucket(rows[..|rows| - 1], start, step, index);
      if (last.point.at - start) / step == index then rest + [last] else rest
  }

  /** busyTenths is the percentage in tenths, and the hours are in hundredths. */
  datatype Range = Range(buckets: seq<Bucket>, coveredHours: nat, busyTenths: Option<nat>, warmHours: Option<nat>, idleHours: Option<nat>)

  function RangeStart(now: int, length: nat, step: nat): (start: int)
    requires step > 0
    ensures now < start + length
  {
    (now / step + 1) * step - length
  }

  /** The last bar is the one that time is in, and bars are aligned to the clock. */
  lemma RangeEndsWithNow(now: int, length: nat, step: nat)
    requires step > 0
    ensures var end := RangeStart(now, length, step) + length; end - step <= now < end && end % step == 0
  {
    MultipleOf(now / step + 1, step);
  }

  lemma MultipleOf(k: int, step: nat)
    requires step > 0
    ensures (k * step) % step == 0
  {
    var q, r := (k * step) / step, (k * step) % step;
    assert k * step == q * step + r;
    if q < k { TimesOrder(q + 1, k, step); }
    if q > k { TimesOrder(k + 1, q, step); }
  }

  function RangeOf(buckets: seq<Bucket>, rows: seq<Sampled>, limit: Option<nat>): Range
  {
    var covered, timed := Covered(rows), Timed(rows);
    var running := Sum(Running, timed);
    Range(buckets, Hundredths(covered, 3600),
          if covered > 0 && limit.Some? && limit.value > 0 && running >= 0 then Some(Round(1000 * running, covered * limit.value)) else None,
          if covered > 0 then Some(Hundredths(Sum(Warm, timed), 3600)) else None,
          if covered > 0 then Some(Hundredths(Sum(Reserved, timed), 3600)) else None)
  }

  function Bars(length: nat, step: nat, rows: seq<Sampled>, start: int): (r: seq<Bucket>)
    requires step > 0
    ensures |r| == length / step
    ensures forall index :: 0 <= index < |r| ==> r[index] == BucketOf(InBucket(rows, start, step, index))
  {
    seq(length / step, index requires 0 <= index < length / step => BucketOf(InBucket(rows, start, step, index)))
  }

  /** Every row lands in the dictionary entry of its bar, and nowhere else. */
  method Slots(rows: seq<Sampled>, start: int, step: nat) returns (slots: map<int, seq<Sampled>>)
    requires step > 0
    ensures forall index :: InBucket(rows, start, step, index) == if index in slots then slots[index] else []
  {
    slots := map[];
    for i := 0 to |rows|
      invariant forall index :: InBucket(rows[..i], start, step, index) == if index in slots then slots[index] else []
    {
      var index := (rows[i].point.at - start) / step;
      assert rows[..i + 1][..i] == rows[..i];
      slots := slots[index := (if index in slots then slots[index] else []) + [rows[i]]];
    }
    assert rows[..|rows|] == rows;
  }

  method FillBars(length: nat, step: nat, rows: seq<Sampled>, start: int) returns (buckets: seq<Bucket>)
    requires step > 0
    ensures buckets == Bars(length, step, rows, start)
  {
    var slots := Slots(rows, start, step);
    var count := length / step;
    buckets := seq(count, index requires 0 <= index < count => BucketOf(if index in slots then slots[index] else []));
  }

  /** A range's bars and totals, drawn from its swept samples. */
  function RangeDrawn(length: nat, step: nat, start: int, points: seq<Point>, spans: seq<Span>, limit: Option<nat>, now: int): Range
    requires step > 0
  {
    var rows := Swept(Inside(points, start), spans, limit, now);
    RangeOf(Bars(length, step, rows, start), rows, limit)
  }

  /** One range's bars and totals. The range starts `length` seconds before its last bar ends (RangeStart). */
  method RangeView(length: nat, step: nat, start: int, points: seq<Point>, spans: seq<Span>, limit: Option<nat>, now: int)
      returns (range: Range)
    requires step > 0 && Ascending(points, now)
    ensures range == RangeDrawn(length, step, start, points, spans, limit, now)
  {
    InsideKeepsOrder(points, start, now);
    var rows := Intervals(Inside(points, start), spans, limit, now);
    var buckets := FillBars(length, step, rows, start);
    range := RangeOf(buckets, rows, limit);
  }

  // What the reader accepts

  predicate ReadBucket(bucket: Bucket)
  {
    bucket.Bucket? ==>
      && bucket.running <= 100 * 10000 && bucket.warm <= 100 * 10000 && bucket.reserved <= 100 * 10000
      && (bucket.waiting.Some? ==> bucket.waiting.value <= 10000)
  }

  predicate ReadRange(range: Range, length: nat, hours: nat, step: nat)
    requires step > 0
  {
    && |range.buckets| == length / step && (forall b :: b in range.buckets ==> ReadBucket(b))
    && range.coveredHours <= 100 * (hours + 1)
    && (range.busyTenths.Some? ==> range.busyTenths.value <= 1000)
    && (range.warmHours.Some? ==> range.warmHours.value <= 100 * (64 * hours))
    && (range.idleHours.Some? ==> range.idleHours.value <= 100 * (64 * hours))
  }

  // Every published range is accepted

  lemma PutFirst(first: Point, rest: seq<Point>, now: int)
    requires Ascending(rest, now) && first.at <= now && forall p :: p in rest ==> first.at < p.at
    ensures Ascending([first] + rest, now)
  {
  }

  lemma TailAscends(points: seq<Point>, now: int)
    requires points != [] && Ascending(points, now)
    ensures Ascending(points[1..], now) && forall p :: p in points[1..] ==> points[0].at < p.at
  {
  }

  lemma {:induction false} InsideKeepsOrder(points: seq<Point>, start: int, now: int)
    requires Ascending(points, now)
    ensures Ascending(Inside(points, start), now)
  {
    if points != [] {
      TailAscends(points, now);
      InsideKeepsOrder(points[1..], start, now);
      var rest := Inside(points[1..], start);
      assert forall p :: p in rest ==> p in points[1..];
      PutFirst(points[0], rest, now);
    }
  }

  /** Every sample inside a range falls in one of its bars. */
  lemma SampleHasABucket(at: int, start: int, length: nat, step: nat)
    requires step > 0 && length % step == 0 && start <= at < start + length
    ensures 0 <= (at - start) / step < length / step
  {
    var from := at - start;
    var bars := length / step;
    assert length == bars * step;
    TimesOrder(bars, from / step, step);
  }

  lemma {:induction false} MostWaitingWithin(rows: seq<Sampled>, most: nat)
    requires WaitingWithin(rows, most)
    ensures MostWaiting(rows).Some? ==> MostWaiting(rows).value <= most
  {
    if rows != [] { MostWaitingWithin(rows[1..], most); }
  }

  lemma HundredthsWithin(total: int, den: int, slots: nat)
    requires den > 0 && 0 <= total <= slots * den
    ensures Hundredths(total, den) <= 100 * slots
  {
    assert 100 * total <= (100 * slots) * den;
    RoundWithin(100 * total, den, 100 * slots);
  }

  /** A bar whose waiting count is inside the reader's cap, or that has none. */
  predicate WaitingRead(bucket: Bucket)
  {
    bucket.Bucket? && bucket.waiting.Some? ==> bucket.waiting.value <= 10000
  }

  /** The reader accepts a bar of up to 64 slots exactly when it accepts its waiting count. */
  lemma BucketIsRead(rows: seq<Sampled>)
    requires AllFit(rows, 64)
    ensures ReadBucket(BucketOf(rows)) <==> WaitingRead(BucketOf(rows))
  {
    if rows != [] {
      var timed := if Timed(rows) != [] then Timed(rows) else rows;
      var seconds := Sum(Weight, timed);
      SumsFit(timed, 64);
      HundredthsWithin(Sum(Running, timed), seconds, 64);
      HundredthsWithin(Sum(Warm, timed), seconds, 64);
      HundredthsWithin(Sum(Reserved, timed), seconds, 64);
    }
  }

  predicate WaitingWithin(rows: seq<Sampled>, most: nat)
  {
    forall k :: 0 <= k < |rows| && rows[k].point.host.jobsWaiting.Some? ==> rows[k].point.host.jobsWaiting.value <= most
  }

  /** Every bar's waiting count is inside the reader's cap. */
  predicate BarsWaitingRead(buckets: seq<Bucket>) { forall b :: b in buckets ==> WaitingRead(b) }

  lemma BucketsAreRead(length: nat, step: nat, rows: seq<Sampled>, start: int)
    requires step > 0 && AllFit(rows, 64)
    ensures (forall b :: b in Bars(length, step, rows, start) ==> ReadBucket(b)) <==> BarsWaitingRead(Bars(length, step, rows, start))
    ensures WaitingWithin(rows, 10000) ==> BarsWaitingRead(Bars(length, step, rows, start))
  {
    forall b | b in Bars(length, step, rows, start)
      ensures ReadBucket(b) <==> WaitingRead(b)
      ensures WaitingWithin(rows, 10000) ==> WaitingRead(b)
    {
      var index :| 0 <= index < length / step && Bars(length, step, rows, start)[index] == b;
      var here := InBucket(rows, start, step, index);
      BucketIsRead(here);
      if WaitingWithin(rows, 10000) { MostWaitingWithin(here, 10000); }
    }
  }

  lemma TimedFits(rows: seq<Sampled>, slots: nat)
    requires AllFit(rows, slots)
    ensures AllFit(Timed(rows), slots)
  {
  }

  lemma BusyWithin(running: nat, covered: nat, limit: nat)
    requires covered > 0 && limit > 0 && running <= limit * covered
    ensures Round(1000 * running, covered * limit) <= 1000
  {
    assert covered * limit == limit * covered > 0;
    RoundWithin(1000 * running, covered * limit, 1000);
  }

  lemma HoursWithin(total: nat, covered: nat, limit: nat, hours: nat)
    requires total <= limit * covered && limit <= 64 && covered <= hours * 3600
    ensures Hundredths(total, 3600) <= 100 * (64 * hours)
  {
    if covered > 0 { TimesOrder(limit, 64, covered); }
    assert total <= 64 * covered <= (64 * hours) * 3600;
    HundredthsWithin(total, 3600, 64 * hours);
  }

  /** The busy share is at most 100 percent, and the warm and idle hours at most every slot for the whole range. */
  lemma TotalsAreRead(hours: nat, buckets: seq<Bucket>, rows: seq<Sampled>, limit: Option<nat>)
    requires AllFit(rows, 64) && (limit.Some? && limit.value > 0 ==> AllFit(rows, limit.value))
    requires Covered(rows) == Sum(Weight, Timed(rows)) && 0 <= Covered(rows) <= hours * 3600
    ensures var range := RangeOf(buckets, rows, limit);
      && range.coveredHours <= 100 * hours
      && (range.busyTenths.Some? ==> range.busyTenths.value <= 1000)
      && (range.warmHours.Some? ==> range.warmHours.value <= 100 * (64 * hours))
      && (range.idleHours.Some? ==> range.idleHours.value <= 100 * (64 * hours))
  {
    var covered, timed := Covered(rows), Timed(rows);
    TimedFits(rows, 64);
    SumsFit(timed, 64);
    HundredthsWithin(covered, 3600, hours);
    HoursWithin(Sum(Warm, timed), covered, 64, hours);
    HoursWithin(Sum(Reserved, timed), covered, 64, hours);
    if covered > 0 && limit.Some? && limit.value > 0 {
      TimedFits(rows, limit.value);
      SumsFit(timed, limit.value);
      BusyWithin(Sum(Running, timed), covered, limit.value);
    }
  }

  /** Every sample of a range falls in one of its bars. */
  lemma SamplesHaveBars(length: nat, step: nat, start: int, points: seq<Point>, now: int)
    requires step > 0 && length % step == 0 && Ascending(points, now) && start == RangeStart(now, length, step)
    ensures forall k :: 0 <= k < |Inside(points, start)| ==>
      && Inside(points, start)[k] in points
      && 0 <= (Inside(points, start)[k].at - start) / step < length / step
  {
    var inside := Inside(points, start);
    forall k | 0 <= k < |inside| ensures inside[k] in points && 0 <= (inside[k].at - start) / step < length / step {
      SampleHasABucket(inside[k].at, start, length, step);
    }
  }

  /** The samples of a range cover no more than its length. */
  lemma SamplesCoverTheRange(length: nat, start: int, points: seq<Point>, limit: Option<nat>, now: int, rows: seq<Sampled>)
    requires Ascending(points, now) && now < start + length && Sampling(rows, Inside(points, start), limit, now)
    ensures 0 <= Covered(rows) <= length && Covered(rows) == Sum(Weight, Timed(rows))
  {
    var inside := Inside(points, start);
    InsideKeepsOrder(points, start, now);
    SamplingIsWeighed(rows, inside, limit, now);
    CoveredIsWeight(rows, inside, 0, now);
  }

  /** With no more than 64 slots, the reader accepts a range the collector publishes exactly when it accepts the waiting
      counts of its bars, and it does when no sample's count is over the cap. */
  lemma PublishedRangeIsRead(length: nat, hours: nat, step: nat, start: int, points: seq<Point>, spans: seq<Span>,
                             limit: Option<nat>, now: int)
    requires step > 0 && length == hours * 3600 && length % step == 0 && start == RangeStart(now, length, step)
    requires CapsWithin(points, limit, 64) && Ascending(points, now)
    ensures var range := RangeDrawn(length, step, start, points, spans, limit, now);
      && (ReadRange(range, length, hours, step) <==> BarsWaitingRead(range.buckets))
      && (PointsWaitWithin(points, 10000) ==> BarsWaitingRead(range.buckets))
  {
    var inside := Inside(points, start);
    var rows := Swept(inside, spans, limit, now);
    InsideKeepsOrder(points, start, now);
    SweptSamples(inside, spans, limit, now);
    SamplesCoverTheRange(length, start, points, limit, now, rows);
    SamplingFits(rows, inside, limit, now, 64);
    if limit.Some? && limit.value > 0 { SamplingFits(rows, inside, limit, now, limit.value); }
    if PointsWaitWithin(points, 10000) { InsideWaitsWithin(rows, points, start, limit, now); }
    BucketsAreRead(length, step, rows, start);
    TotalsAreRead(hours, Bars(length, step, rows, start), rows, limit);
  }

  predicate PointsWaitWithin(points: seq<Point>, most: nat)
  {
    forall p :: p in points && p.host.jobsWaiting.Some? ==> p.host.jobsWaiting.value <= most
  }

  lemma InsideWaitsWithin(rows: seq<Sampled>, points: seq<Point>, start: int, limit: Option<nat>, now: int)
    requires Sampling(rows, Inside(points, start), limit, now) && PointsWaitWithin(points, 10000)
    ensures WaitingWithin(rows, 10000)
  {
    forall k | 0 <= k < |rows|
      ensures rows[k].point in points
    {
      assert SamplesRow(rows[k], Inside(points, start), k, limit, now);
    }
  }

  // The whole published history

  const MAX_WAITS := 20000
  const MAX_WAIT_SECONDS := 604800

  /** One job's wait, as the collector keeps it. */
  datatype Wait = Wait(runner: string, kind: string, started: int, finished: Option<int>, wait: nat, routing: Option<nat>)

  /** One span a row of these kinds, open until now for a runner that still holds a slot and nothing for another. */
  function JobSpans(rows: seq<Wait>, occupied: set<string>, kinds: set<string>, now: int): (r: seq<Span>)
    ensures (forall k :: 0 <= k < |rows| ==> rows[k].started <= (if rows[k].finished.Some? then rows[k].finished.value else now))
            ==> Ordered(r)
  {
    if rows == [] then []
    else
      var row, rest := rows[0], JobSpans(rows[1..], occupied, kinds, now);
      if row.kind !in kinds || (row.finished.None? && row.runner !in occupied) then rest
      else [Span(row.started, if row.finished.Some? then row.finished.value else now)] + rest
  }

  /** What a section says of its waits. The mean routing is in tenths of a second. */
  datatype Summary = Summary(jobs: nat, p50: nat, p95: nat, routingTenths: Option<nat>)

  function InsertWait(x: nat, s: seq<nat>): (r: seq<nat>)
    ensures |r| == |s| + 1 && forall k :: 0 <= k < |r| ==> r[k] == x || r[k] in s
  {
    if s == [] || x <= s[0] then [x] + s else [s[0]] + InsertWait(x, s[1..])
  }

  function SortedWaits(rows: seq<Wait>): (r: seq<nat>)
    ensures |r| == |rows| && forall x :: x in r ==> exists k :: 0 <= k < |rows| && rows[k].wait == x
  {
    if rows == [] then []
    else
      var rest := SortedWaits(rows[1..]);
      assert forall x :: x in rest ==> exists k :: 0 <= k < |rows| && rows[k].wait == x by {
        assert forall k :: 0 <= k < |rows[1..]| ==> rows[1..][k] == rows[k + 1];
      }
      InsertWait(rows[0].wait, rest)
  }

  function Percentile(sorted: seq<nat>, percent: nat): (r: nat)
    requires sorted != [] && percent <= 100
    ensures r in sorted
  {
    var rank := (percent * |sorted| + 99) / 100;
    assert percent * |sorted| <= 100 * |sorted|;
    sorted[Max(0, rank - 1)]
  }

  function Routings(rows: seq<Wait>): (r: seq<nat>)
    ensures forall x :: x in r ==> exists row :: row in rows && row.routing == Some(x)
  {
    if rows == [] then []
    else if rows[0].routing.Some? then [rows[0].routing.value] + Routings(rows[1..])
    else Routings(rows[1..])
  }

  function SumOf(s: seq<nat>): nat { if s == [] then 0 else s[0] + SumOf(s[1..]) }

  function WaitSummary(rows: seq<Wait>): Option<Summary>
  {
    if rows == [] then None
    else
      var values, split := SortedWaits(rows), Routings(rows);
      Some(Summary(|rows|, Percentile(values, 50), Percentile(values, 95),
                   if split == [] then None else Some(Round(10 * SumOf(split), |split|))))
  }

  // What a wait summary and the spans say of the rows

  function CountWaits(rows: seq<Wait>, wait: nat): nat
  {
    if rows == [] then 0 else (if rows[0].wait == wait then 1 else 0) + CountWaits(rows[1..], wait)
  }

  predicate Ascends(s: seq<nat>) { forall i, j :: 0 <= i < j < |s| ==> s[i] <= s[j] }

  lemma {:induction false} InsertWaitAscends(x: nat, s: seq<nat>)
    requires Ascends(s)
    ensures Ascends(InsertWait(x, s))
  {
    if s != [] && x > s[0] {
      InsertWaitAscends(x, s[1..]);
      var rest := InsertWait(x, s[1..]);
      assert forall k :: 0 <= k < |rest| ==> s[0] <= rest[k];
    }
  }

  lemma {:induction false} InsertWaitCounts(x: nat, s: seq<nat>, wait: nat)
    ensures multiset(InsertWait(x, s))[wait] == multiset(s)[wait] + if x == wait then 1 else 0
  {
    if s != [] && x > s[0] {
      InsertWaitCounts(x, s[1..], wait);
      FirstApart(s);
    }
  }

  /** The waits of the rows, each as often as a row has it, shortest first. */
  lemma {:induction false} SortedWaitsAre(rows: seq<Wait>, wait: nat)
    ensures Ascends(SortedWaits(rows)) && multiset(SortedWaits(rows))[wait] == CountWaits(rows, wait)
  {
    if rows != [] {
      SortedWaitsAre(rows[1..], wait);
      InsertWaitAscends(rows[0].wait, SortedWaits(rows[1..]));
      InsertWaitCounts(rows[0].wait, SortedWaits(rows[1..]), wait);
    }
  }

  lemma RankMeans(p: nat, n: nat)
    requires p <= 100 * n && n > 0
    ensures var k := Max(0, (p + 99) / 100 - 1); k < n && p <= 100 * (k + 1) && (k > 0 ==> 100 * k < p)
  {
  }

  /** The nearest rank: the first of the sorted values that at least this percentage of them do not exceed by rank. */
  lemma PercentileMeans(sorted: seq<nat>, percent: nat) returns (k: nat)
    requires sorted != [] && percent <= 100
    ensures k < |sorted| && Percentile(sorted, percent) == sorted[k]
    ensures percent * |sorted| <= 100 * (k + 1) && (k > 0 ==> 100 * k < percent * |sorted|)
  {
    TimesOrder(percent, 100, |sorted|);
    RankMeans(percent * |sorted|, |sorted|);
    k := Max(0, (percent * |sorted| + 99) / 100 - 1);
  }

  /** The routing times that are known: how many there are, and their sum. */
  function KnownRoutings(rows: seq<Wait>): (nat, nat)
  {
    if rows == [] then (0, 0)
    else
      var rest := KnownRoutings(rows[1..]);
      match rows[0].routing
      case Some(n) => (rest.0 + 1, rest.1 + n)
      case None => rest
  }

  lemma {:induction false} RoutingsAreKnown(rows: seq<Wait>)
    ensures |Routings(rows)| == KnownRoutings(rows).0 && SumOf(Routings(rows)) == KnownRoutings(rows).1
  {
    if rows != [] {
      RoutingsAreKnown(rows[1..]);
      if rows[0].routing.Some? { assert ([rows[0].routing.value] + Routings(rows[1..]))[1..] == Routings(rows[1..]); }
    }
  }

  /** A summary counts its rows, takes the median and the 95th percentile of their waits, and the mean of the routing times
      that are known, in tenths of a second, if any is. */
  lemma WaitSummaryMeans(rows: seq<Wait>)
    ensures WaitSummary(rows).None? <==> rows == []
    ensures rows != [] ==>
      var summary, known := WaitSummary(rows).value, KnownRoutings(rows);
      && summary.jobs == |rows|
      && summary.p50 == Percentile(SortedWaits(rows), 50) && summary.p95 == Percentile(SortedWaits(rows), 95)
      && (summary.routingTenths.Some? <==> known.0 > 0)
      && (known.0 > 0 ==> IsRounded(summary.routingTenths.value, 10 * known.1, known.0))
  {
    RoutingsAreKnown(rows);
    if KnownRoutings(rows).0 > 0 { RoundIsNearest(10 * SumOf(Routings(rows)), |Routings(rows)|); }
  }

  /** How many rows of these kinds give this span: from the start of the job to its end, or to now while its runner still holds
      a slot. */
  function CountSpans(rows: seq<Wait>, occupied: set<string>, kinds: set<string>, now: int, span: Span): nat
  {
    if rows == [] then 0
    else
      var ends := match rows[0].finished case Some(at) => Some(at) case None => if rows[0].runner in occupied then Some(now) else None;
      (if rows[0].kind in kinds && rows[0].started == span.start && ends == Some(span.stop) then 1 else 0)
      + CountSpans(rows[1..], occupied, kinds, now, span)
  }

  lemma {:induction false} JobSpansCount(rows: seq<Wait>, occupied: set<string>, kinds: set<string>, now: int, span: Span)
    ensures multiset(JobSpans(rows, occupied, kinds, now))[span] == CountSpans(rows, occupied, kinds, now, span)
  {
    if rows != [] { JobSpansCount(rows[1..], occupied, kinds, now, span); }
  }

  /** The runners that hold a slot are those that a record names. */
  lemma OccupiedMeans(lane: Lane, runner: string)
    ensures runner in Occupied(lane) <==> runner != "" && exists record :: record in lane.records && record.runner == runner
  {
  }

  lemma {:induction false} SinceCounts(rows: seq<Wait>, from: int, row: Wait)
    ensures multiset(Since(rows, from))[row] == if row.started >= from then multiset(rows)[row] else 0
  {
    if rows != [] {
      SinceCounts(rows[1..], from, row);
      FirstApart(rows);
    }
  }

  predicate ReadWait(summary: Summary)
  {
    && summary.jobs <= 20000 && summary.p50 <= 604800 && summary.p95 <= 604800
    && (summary.routingTenths.Some? ==> summary.routingTenths.value <= 6048000)
  }

  lemma {:induction false} SumOfWithin(s: seq<nat>, most: nat)
    requires forall k :: 0 <= k < |s| ==> s[k] <= most
    ensures SumOf(s) <= most * |s|
  {
    if s != [] {
      SumOfWithin(s[1..], most);
      Distribute(most, 1, |s[1..]|);
      assert |s| == 1 + |s[1..]|;
    }
  }

  predicate Capped(row: Wait)
  {
    row.wait <= MAX_WAIT_SECONDS && (row.routing.Some? ==> row.routing.value <= MAX_WAIT_SECONDS)
  }

  lemma WaitSummaryIsRead(rows: seq<Wait>)
    requires |rows| <= MAX_WAITS
    requires forall row :: row in rows ==> Capped(row)
    ensures WaitSummary(rows).Some? ==> ReadWait(WaitSummary(rows).value)
  {
    if rows != [] {
      var values, split := SortedWaits(rows), Routings(rows);
      forall x | x in values ensures x <= MAX_WAIT_SECONDS {
        var k :| 0 <= k < |rows| && rows[k].wait == x;
        assert rows[k] in rows;
      }
      if split != [] {
        assert forall k :: 0 <= k < |split| ==> split[k] in split;
        SumOfWithin(split, MAX_WAIT_SECONDS);
        RoundWithin(10 * SumOf(split), |split|, 10 * MAX_WAIT_SECONDS);
      }
    }
  }

  /** (length, hours, bar seconds) of the three ranges. */
  const RANGES: seq<(nat, nat, nat)> := [(3600, 1, 120), (86400, 24, 1800), (604800, 168, 10800)]

  const KINDS := {"ci", "qae", "wait"}

  /** What the listener's scale sets add up to, and the slots of the warm pool and of a pool of its own for QAE. */
  datatype Queue = Queue(waiting: nat, warm: nat, warmSlots: set<(string, int)>, qaeSlots: nat)

  /** A slot the host says is taken, by which kind of runner, and whether a job is recorded on it. */
  datatype Record = Record(runner: string, kind: string, busy: bool)

  /** What one refresh knows of the lane. `lastQae` is the QAE pool of the last published history, 0 without one. */
  datatype Lane = Lane(limit: Option<nat>, records: seq<Record>, ok: bool, queue: Option<Queue>, lastQae: nat)

  function QaeSlots(lane: Lane): nat
  {
    if lane.queue.Some? then lane.queue.value.qaeSlots else lane.lastQae
  }

  function SharedKinds(lane: Lane): set<string>
  {
    if QaeSlots(lane) > 0 then {"ci"} else {"ci", "qae"}
  }

  function Occupied(lane: Lane): set<string>
  {
    set r | r in lane.records && r.runner != "" :: r.runner
  }

  datatype Section = Section(range: Range, wait: Option<Summary>)

  datatype History = History(
    limit: Option<nat>, waitingNow: Option<nat>, warm: Option<nat>, warmSlots: set<(string, int)>, qaeSlots: nat,
    started: map<string, int>, sections: seq<Section>)

  predicate ReadSection(section: Section, length: nat, hours: nat, step: nat)
  {
    step > 0 && ReadRange(section.range, length, hours, step) && (section.wait.Some? ==> ReadWait(section.wait.value))
  }

  predicate ReadHistory(h: History)
  {
    && (h.limit.Some? ==> h.limit.value <= 64) && (h.waitingNow.Some? ==> h.waitingNow.value <= 10000)
    && (h.warm.Some? ==> h.warm.value <= 64) && |h.warmSlots| <= 64 && Named(h.warmSlots)
    && h.qaeSlots <= 64 && |h.started| <= 256
    && ReadSections(h.sections)
  }

  /** Slots of the kinds there are, numbered as the reader's pattern numbers them. */
  predicate Named(slots: set<(string, int)>) { forall s :: s in slots ==> s.0 in KINDS && 1 <= s.1 <= 99 }

  predicate ReadSections(sections: seq<Section>)
  {
    |sections| == |RANGES| && forall k :: 0 <= k < |RANGES| ==> ReadSection(sections[k], RANGES[k].0, RANGES[k].1, RANGES[k].2)
  }

  predicate AtMost(count: Option<nat>, most: nat) { count.None? || count.value <= most }

  /** A section within bounds, its shares in hundredths of a slot and its hours in hundredths of an hour: so many bars, none of
      over ten thousand slots or waiting jobs, covered hours up to one more than the range has, up to 100 percent busy, and
      waits of up to a week. */
  predicate InBounds(section: Section, bars: nat, hours: nat)
  {
    && |section.range.buckets| == bars
    && (forall b :: 0 <= b < bars && section.range.buckets[b].Bucket? ==>
          var bar := section.range.buckets[b];
          bar.running <= 1000000 && bar.warm <= 1000000 && bar.reserved <= 1000000 && AtMost(bar.waiting, 10000))
    && section.range.coveredHours <= 100 * hours + 100 && AtMost(section.range.busyTenths, 1000)
    && AtMost(section.range.warmHours, 6400 * hours) && AtMost(section.range.idleHours, 6400 * hours)
    && (section.wait.Some? ==>
          var wait := section.wait.value;
          wait.jobs <= 20000 && wait.p50 <= 604800 && wait.p95 <= 604800 && AtMost(wait.routingTenths, 6048000))
  }

  /** The reader accepts exactly what is within bounds everywhere. */
  lemma ReadHistoryMeans(h: History)
    ensures ReadHistory(h) <==>
      && AtMost(h.limit, 64) && AtMost(h.waitingNow, 10000) && AtMost(h.warm, 64) && h.qaeSlots <= 64
      && |h.warmSlots| <= 64
      && (forall slot :: slot in h.warmSlots ==> (slot.0 == "ci" || slot.0 == "qae" || slot.0 == "wait") && 0 < slot.1 < 100)
      && |h.started| <= 256
      && |h.sections| == 3 && InBounds(h.sections[0], 30, 1) && InBounds(h.sections[1], 48, 24) && InBounds(h.sections[2], 56, 168)
  {
    if |h.sections| == 3 {
      assert RANGES[0] == (3600, 1, 120) && RANGES[1] == (86400, 24, 1800) && RANGES[2] == (604800, 168, 10800);
      SectionIsInBounds(h.sections[0], 3600, 1, 120);
      SectionIsInBounds(h.sections[1], 86400, 24, 1800);
      SectionIsInBounds(h.sections[2], 604800, 168, 10800);
    }
  }

  lemma SectionIsInBounds(section: Section, length: nat, hours: nat, step: nat)
    requires step > 0
    ensures ReadSection(section, length, hours, step) <==> InBounds(section, length / step, hours)
  {
    var buckets := section.range.buckets;
    if forall b :: b in buckets ==> ReadBucket(b) {
      forall b | 0 <= b < |buckets|
        ensures ReadBucket(buckets[b])
      {
        assert buckets[b] in buckets;
      }
    }
  }

  function Since(rows: seq<Wait>, from: int): (r: seq<Wait>)
    ensures |r| <= |rows| && forall row :: row in r ==> row in rows
  {
    if rows == [] then [] else if rows[0].started >= from then [rows[0]] + Since(rows[1..], from) else Since(rows[1..], from)
  }

  /** When a runner's job started, as a dictionary of the rows keeps it. */
  function StartOf(rows: seq<Wait>, runner: string): (r: Option<int>)
    ensures r.Some? <==> exists k :: 0 <= k < |rows| && rows[k].runner == runner
    decreases |rows|
  {
    if rows == [] then None
    else if rows[|rows| - 1].runner == runner then Some(rows[|rows| - 1].started)
    else StartOf(rows[..|rows| - 1], runner)
  }

  /** The job starts of the runners that hold a slot. */
  function Started(rows: seq<Wait>, occupied: set<string>): map<string, int>
  {
    map runner | runner in occupied && StartOf(rows, runner).Some? :: StartOf(rows, runner).value
  }

  function SectionOf(length: nat, step: nat, points: seq<Point>, rows: seq<Wait>, lane: Lane, now: int): Section
    requires step > 0
  {
    var spans := JobSpans(rows, Occupied(lane), SharedKinds(lane), now);
    Section(RangeDrawn(length, step, RangeStart(now, length, step), points, spans, lane.limit, now),
            WaitSummary(Since(rows, now - length)))
  }

  /** What one refresh publishes, of its samples, its waits and the lane. */
  function HistoryOf(points: seq<Point>, rows: seq<Wait>, lane: Lane, now: int): History
  {
    var current := lane.ok && lane.queue.Some?;
    History(lane.limit,
            if current then Some(lane.queue.value.waiting) else None,
            if lane.queue.Some? then Some(lane.queue.value.warm) else None,
            if current then lane.queue.value.warmSlots else {},
            QaeSlots(lane), Started(rows, Occupied(lane)),
            seq(|RANGES|, k requires 0 <= k < |RANGES| => SectionOf(RANGES[k].0, RANGES[k].2, points, rows, lane, now)))
  }

  /** Three ranges: the last hour in 30 bars, the last day in 48, and the last week in 56. */
  lemma ThreeRanges(points: seq<Point>, rows: seq<Wait>, lane: Lane, now: int)
    ensures var sections := HistoryOf(points, rows, lane, now).sections;
      && |sections| == 3
      && sections[0] == SectionOf(3600, 120, points, rows, lane, now) && |sections[0].range.buckets| == 30
      && sections[1] == SectionOf(24 * 3600, 1800, points, rows, lane, now) && |sections[1].range.buckets| == 48
      && sections[2] == SectionOf(7 * 24 * 3600, 3 * 3600, points, rows, lane, now) && |sections[2].range.buckets| == 56
  {
  }

  method PublishSection(length: nat, step: nat, points: seq<Point>, rows: seq<Wait>, lane: Lane, now: int)
      returns (section: Section)
    requires step > 0 && Ascending(points, now)
    ensures section == SectionOf(length, step, points, rows, lane, now)
  {
    var spans := JobSpans(rows, Occupied(lane), SharedKinds(lane), now);
    var range := RangeView(length, step, RangeStart(now, length, step), points, spans, lane.limit, now);
    section := Section(range, WaitSummary(Since(rows, now - length)));
  }

  method PublishHistory(points: seq<Point>, rows: seq<Wait>, lane: Lane, now: int) returns (h: History)
    requires Ascending(points, now)
    ensures h == HistoryOf(points, rows, lane, now)
  {
    var sections := [];
    for k := 0 to |RANGES|
      invariant |sections| == k
      invariant forall j :: 0 <= j < k ==> sections[j] == SectionOf(RANGES[j].0, RANGES[j].2, points, rows, lane, now)
    {
      var section := PublishSection(RANGES[k].0, RANGES[k].2, points, rows, lane, now);
      sections := sections + [section];
    }
    var waitingNow, warm, warmSlots := None, None, {};
    if lane.queue.Some? {
      warm := Some(lane.queue.value.warm);
      if lane.ok { waitingNow, warmSlots := Some(lane.queue.value.waiting), lane.queue.value.warmSlots; }
    }
    h := History(lane.limit, waitingNow, warm, warmSlots, QaeSlots(lane), Started(rows, Occupied(lane)), sections);
    SectionsAre(sections, points, rows, lane, now);
  }

  lemma SectionsAre(sections: seq<Section>, points: seq<Point>, rows: seq<Wait>, lane: Lane, now: int)
    requires |sections| == |RANGES|
    requires forall j :: 0 <= j < |RANGES| ==> sections[j] == SectionOf(RANGES[j].0, RANGES[j].2, points, rows, lane, now)
    ensures sections == HistoryOf(points, rows, lane, now).sections
  {
  }

  // When the reader accepts it

  /** What the lane says is inside the reader's caps. */
  predicate LaneInsideTheCaps(lane: Lane, rows: seq<Wait>)
  {
    && (lane.limit.Some? ==> lane.limit.value <= 64)
    && (lane.ok && lane.queue.Some? ==> lane.queue.value.waiting <= 10000 && |lane.queue.value.warmSlots| <= 64)
    && (lane.queue.Some? ==> lane.queue.value.warm <= 64)
    && QaeSlots(lane) <= 64 && |Started(rows, Occupied(lane))| <= 256
  }

  /** Every bar of every range. */
  predicate AllWaitingRead(sections: seq<Section>)
  {
    forall k :: 0 <= k < |sections| ==> BarsWaitingRead(sections[k].range.buckets)
  }

  /** Every range is a whole number of hours and of bars. */
  lemma RangesAreWhole(k: nat)
    requires k < |RANGES|
    ensures RANGES[k].2 > 0 && RANGES[k].0 == RANGES[k].1 * 3600 && RANGES[k].0 % RANGES[k].2 == 0
  {
  }

  /** The reader accepts a section exactly when it accepts its waiting counts, and it does when no sample's count is over. */
  predicate ReadExactly(section: Section, points: seq<Point>, length: nat, hours: nat, step: nat)
  {
    && (ReadSection(section, length, hours, step) <==> BarsWaitingRead(section.range.buckets))
    && (PointsWaitWithin(points, 10000) ==> BarsWaitingRead(section.range.buckets))
  }

  lemma ReadSectionOf(range: Range, wait: Option<Summary>, points: seq<Point>, length: nat, hours: nat, step: nat)
    requires step > 0 && (wait.Some? ==> ReadWait(wait.value))
    requires ReadRange(range, length, hours, step) <==> BarsWaitingRead(range.buckets)
    requires PointsWaitWithin(points, 10000) ==> BarsWaitingRead(range.buckets)
    ensures ReadExactly(Section(range, wait), points, length, hours, step)
  {
  }

  lemma SectionReadExactly(length: nat, hours: nat, step: nat, points: seq<Point>, rows: seq<Wait>, lane: Lane, now: int)
    requires step > 0 && length == hours * 3600 && length % step == 0
    requires Ascending(points, now) && CapsWithin(points, lane.limit, 64)
    requires |rows| <= MAX_WAITS && forall row :: row in rows ==> Capped(row)
    ensures ReadExactly(SectionOf(length, step, points, rows, lane, now), points, length, hours, step)
  {
    var start, spans := RangeStart(now, length, step), JobSpans(rows, Occupied(lane), SharedKinds(lane), now);
    PublishedRangeIsRead(length, hours, step, start, points, spans, lane.limit, now);
    WaitSummaryIsRead(Since(rows, now - length));
    ReadSectionOf(RangeDrawn(length, step, start, points, spans, lane.limit, now), WaitSummary(Since(rows, now - length)), points,
                  length, hours, step);
  }

  lemma SectionIsReadExactly(k: nat, points: seq<Point>, rows: seq<Wait>, lane: Lane, now: int)
    requires k < |RANGES| && Ascending(points, now) && CapsWithin(points, lane.limit, 64)
    requires |rows| <= MAX_WAITS && forall row :: row in rows ==> Capped(row)
    ensures RANGES[k].2 > 0
    ensures ReadExactly(SectionOf(RANGES[k].0, RANGES[k].2, points, rows, lane, now), points, RANGES[k].0, RANGES[k].1, RANGES[k].2)
  {
    RangesAreWhole(k);
    SectionReadExactly(RANGES[k].0, RANGES[k].1, RANGES[k].2, points, rows, lane, now);
  }

  /** With no more than 64 slots, the reader accepts what history() publishes exactly when what the lane says is inside its
      caps and so is every bar's waiting count, which it is when every sample's is. */
  lemma HistoryIsReadExactly(points: seq<Point>, rows: seq<Wait>, lane: Lane, now: int)
    requires Ascending(points, now) && CapsWithin(points, lane.limit, 64)
    requires |rows| <= MAX_WAITS && forall row :: row in rows ==> Capped(row)
    requires lane.queue.Some? ==> Named(lane.queue.value.warmSlots)
    ensures var h := HistoryOf(points, rows, lane, now);
      && (ReadHistory(h) <==> LaneInsideTheCaps(lane, rows) && AllWaitingRead(h.sections))
      && (PointsWaitWithin(points, 10000) ==> AllWaitingRead(h.sections))
  {
    var h := HistoryOf(points, rows, lane, now);
    forall k | 0 <= k < |RANGES|
      ensures ReadExactly(h.sections[k], points, RANGES[k].0, RANGES[k].1, RANGES[k].2)
    {
      SectionIsReadExactly(k, points, rows, lane, now);
    }
  }
}
