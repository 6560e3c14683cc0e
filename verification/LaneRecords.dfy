/** What a lane's history is drawn from (dashboard/lane_history.py): the waits and the samples one refresh keeps, and
    the history it publishes from them. */
module LaneRecords {
  import opened Common
  import opened LaneHistory

  const HISTORY_SECONDS := 604800
  const MAX_SAMPLES := 20160

  // Waits

  /** A row that earlier refreshes kept, whose text fields are sound or not, or a job the listener names. */
  datatype Entry =
    | Kept(sound: bool, row: Wait)
    | Listed(sound: bool, runner: string, kind: string, queued: Option<int>, routed: Option<int>, taken: Option<int>,
             finished: Option<int>)

  /** Seconds from one time to a later one. */
  function Elapsed(start: Option<int>, end: Option<int>): Option<nat>
  {
    if start.Some? && end.Some? && end.value >= start.value then Some(end.value - start.value) else None
  }

  function CleanWait(sound: bool, row: Wait): Option<Wait>
  {
    if !sound || !InOrder(row) || !Capped(row) then None else Some(row)
  }

  function ProjectJob(e: Entry): Option<Wait>
    requires e.Listed?
  {
    var wait, routing := Elapsed(e.routed, e.taken), Elapsed(e.queued, e.routed);
    if !e.sound || wait.None? || wait.value > MAX_WAIT_SECONDS || (e.finished.Some? && e.finished.value < e.taken.value) then None
    else Some(Wait(e.runner, e.kind, e.taken.value, e.finished, wait.value,
                   if routing.Some? && routing.value <= MAX_WAIT_SECONDS then routing else None))
  }

  function Clean(e: Entry): Option<Wait>
  {
    match e
    case Kept(sound, row) => CleanWait(sound, row)
    case Listed(_, _, _, _, _, _, _) => ProjectJob(e)
  }

  predicate InOrder(row: Wait) { row.finished.Some? ==> row.started <= row.finished.value }

  /** What is taken from either source: a kept row as it is, or the job the listener names, from its runner's assignment, with
      its two waits. A record with text that is not sound, times out of order or a wait of more than seven days is dropped, and
      so is a routing of more. */
  lemma CleanMeans(e: Entry)
    ensures match e
      case Kept(sound, row) =>
        var ordered := match row.finished case None => true case Some(at) => row.started <= at;
        var capped := row.wait <= 604800 && match row.routing case None => true case Some(n) => n <= 604800;
        Clean(e) == if sound && ordered && capped then Some(row) else None
      case Listed(sound, runner, kind, queued, routed, taken, finished) =>
        var good := sound && routed.Some? && taken.Some? && 0 <= taken.value - routed.value <= 604800
          && match finished case None => true case Some(at) => taken.value <= at;
        if !good then Clean(e).None?
        else
          && Clean(e).Some?
          && Clean(e).value == Wait(runner, kind, taken.value, finished, taken.value - routed.value, Clean(e).value.routing)
          && Clean(e).value.routing ==
             if queued.Some? && 0 <= routed.value - queued.value <= 604800 then Some(routed.value - queued.value) else None
  {
  }

  lemma CleanIsSound(e: Entry)
    ensures Clean(e).Some? ==> InOrder(Clean(e).value) && Capped(Clean(e).value)
  {
  }

  /** A newer record of a runner's job takes its place, and with no finish of its own takes the earlier one's. */
  function Newest(earlier: Option<Wait>, row: Wait): Wait
  {
    if earlier.Some? && earlier.value.finished.Some? && row.finished.None? then row.(finished := earlier.value.finished) else row
  }

  /** The finish taken came before the newer record's start. */
  predicate Misplaced(earlier: Option<Wait>, row: Wait)
  {
    earlier.Some? && earlier.value.finished.Some? && row.finished.None? && earlier.value.finished.value < row.started
  }

  /** A kept record ends before it starts exactly when it took a finish that came before its start. */
  lemma NewestIsInOrder(earlier: Option<Wait>, row: Wait)
    requires InOrder(row)
    ensures InOrder(Newest(earlier, row)) <==> !Misplaced(earlier, row)
  {
  }

  method Keep(unique: map<string, Wait>, row: Wait) returns (kept: map<string, Wait>)
    ensures kept == unique[row.runner := Newest(if row.runner in unique then Some(unique[row.runner]) else None, row)]
  {
    var finished := row.finished;
    if row.runner in unique {
      var earlier := unique[row.runner];
      if earlier.finished.Some? && finished.None? { finished := earlier.finished; }
    }
    kept := unique[row.runner := row.(finished := finished)];
  }

  /** Some entry takes a finish that came before its start, of what those before it left for its runner. */
  ghost predicate SomeMisplaced(entries: seq<Entry>, since: int)
  {
    exists i :: 0 <= i < |entries| && Takes(entries[i], since)
      && Misplaced(Last(entries[..i], since, Clean(entries[i]).value.runner), Clean(entries[i]).value)
  }

  predicate Takes(e: Entry, since: int) { Clean(e).Some? && Clean(e).value.started >= since }

  /** The record a runner is left with. */
  function Last(entries: seq<Entry>, since: int, runner: string): (r: Option<Wait>)
    ensures r.Some? ==> r.value.runner == runner && r.value.started >= since && Capped(r.value)
    decreases |entries|
  {
    if entries == [] then None
    else
      var last, before := entries[|entries| - 1], Last(entries[..|entries| - 1], since, runner);
      CleanIsSound(last);
      if Takes(last, since) && Clean(last).value.runner == runner then Some(Newest(before, Clean(last).value)) else before
  }

  /** With nothing misplaced, every record left is in order. */
  lemma {:induction false} LastIsInOrder(entries: seq<Entry>, since: int, runner: string)
    requires !SomeMisplaced(entries, since)
    ensures Last(entries, since, runner).Some? ==> InOrder(Last(entries, since, runner).value)
    decreases |entries|
  {
    if entries != [] {
      var n := |entries| - 1;
      var last := entries[n];
      assert !SomeMisplaced(entries[..n], since) by {
        assert forall i :: 0 <= i < n ==> entries[..n][i] == entries[i] && entries[..n][..i] == entries[..i];
      }
      LastIsInOrder(entries[..n], since, runner);
      CleanIsSound(last);
      if Takes(last, since) && Clean(last).value.runner == runner {
        assert !Misplaced(Last(entries[..n], since, runner), Clean(last).value);
        NewestIsInOrder(Last(entries[..n], since, runner), Clean(last).value);
      }
    }
  }

  lemma LastOfOneMore(entries: seq<Entry>, i: nat, since: int, runner: string)
    requires i < |entries|
    ensures Last(entries[..i + 1], since, runner) ==
      if Takes(entries[i], since) && Clean(entries[i]).value.runner == runner
      then Some(Newest(Last(entries[..i], since, runner), Clean(entries[i]).value)) else Last(entries[..i], since, runner)
  {
    assert entries[..i + 1][..i] == entries[..i];
  }

  /** What the dictionary holds for a runner. */
  function At(unique: map<string, Wait>, runner: string): Option<Wait>
  {
    if runner in unique then Some(unique[runner]) else None
  }

  method Unique(entries: seq<Entry>, since: int) returns (unique: map<string, Wait>)
    ensures forall runner :: At(unique, runner) == Last(entries, since, runner)
    ensures forall runner :: runner in unique ==> unique[runner].runner == runner
  {
    unique := map[];
    for i := 0 to |entries|
      invariant forall runner :: At(unique, runner) == Last(entries[..i], since, runner)
    {
      var clean := Clean(entries[i]);
      ghost var was := unique;
      if clean.Some? && clean.value.started >= since {
        unique := Keep(unique, clean.value);
      }
      forall runner
        ensures At(unique, runner) == Last(entries[..i + 1], since, runner)
      {
        LastOfOneMore(entries, i, since, runner);
        assert At(was, runner) == Last(entries[..i], since, runner);
      }
    }
    Ends(entries);
    forall runner | runner in unique
      ensures unique[runner].runner == runner
    {
      assert At(unique, runner) == Last(entries, since, runner);
    }
  }

  /** Earlier start first, and of one start the runner that comes first as text. */
  predicate Sooner(a: Wait, b: Wait, order: string -> int)
  {
    a.started < b.started || (a.started == b.started && order(a.runner) <= order(b.runner))
  }

  function Placed(row: Wait, rows: seq<Wait>, order: string -> int): (r: seq<Wait>)
    ensures |r| == |rows| + 1 && forall other :: other in r <==> other == row || other in rows
  {
    if rows == [] || Sooner(row, rows[0], order) then [row] + rows else [rows[0]] + Placed(row, rows[1..], order)
  }

  /** By start, and of one start by runner. */
  predicate ByStarted(rows: seq<Wait>, order: string -> int)
  {
    forall i, j :: 0 <= i < j < |rows| ==>
      rows[i].started < rows[j].started || (rows[i].started == rows[j].started && order(rows[i].runner) <= order(rows[j].runner))
  }

  /** One row a runner. */
  predicate OneEach(rows: seq<Wait>) { forall i, j :: 0 <= i < j < |rows| ==> rows[i].runner != rows[j].runner }

  lemma {:induction false} PlacedKeepsOrder(row: Wait, rows: seq<Wait>, order: string -> int)
    requires ByStarted(rows, order)
    ensures ByStarted(Placed(row, rows, order), order)
  {
    if rows != [] && !Sooner(row, rows[0], order) {
      PlacedKeepsOrder(row, rows[1..], order);
      var rest := Placed(row, rows[1..], order);
      assert forall k :: 0 <= k < |rest| ==> rest[k] in rest;
    }
  }

  lemma {:induction false} PlacedKeepsOneEach(row: Wait, rows: seq<Wait>, order: string -> int)
    requires OneEach(rows) && forall other :: other in rows ==> other.runner != row.runner
    ensures OneEach(Placed(row, rows, order))
  {
    if rows != [] && !Sooner(row, rows[0], order) {
      PlacedKeepsOneEach(row, rows[1..], order);
      var rest := Placed(row, rows[1..], order);
      assert rows[0] in rows && forall k :: 0 <= k < |rest| ==> rest[k] in rest;
    }
  }

  /** The last MAX_WAITS of rows by start: what is dropped started no later than what is kept. */
  lemma DroppedIsEarlier(rows: seq<Wait>, most: nat, dropped: Wait, order: string -> int)
    requires ByStarted(rows, order) && |rows| > most && dropped in rows && dropped !in rows[|rows| - most..]
    ensures forall row :: row in rows[|rows| - most..] ==> dropped.started <= row.started
  {
    var i :| 0 <= i < |rows| && rows[i] == dropped;
    var kept := rows[|rows| - most..];
    assert forall k :: 0 <= k < most ==> kept[k] == rows[|rows| - most + k];
    forall row | row in kept
      ensures dropped.started <= row.started
    {
      var k :| 0 <= k < most && kept[k] == row;
      assert rows[|rows| - most + k] == row;
    }
  }

  /** Every row is what its runner is left with. */
  ghost predicate AreLast(rows: seq<Wait>, entries: seq<Entry>, since: int)
  {
    forall row :: row in rows ==> Last(entries, since, row.runner) == Some(row)
  }

  /** What a runner is left with is there, or started no later than a full list of others. */
  ghost predicate NoneMissing(rows: seq<Wait>, entries: seq<Entry>, since: int)
  {
    forall runner :: Last(entries, since, runner).Some? ==>
      var row := Last(entries, since, runner).value;
      row in rows || (|rows| == 20000 && forall other :: other in rows ==> row.started <= other.started)
  }

  /** The newest records of those the runners are left with: one a runner, by start, and no more than MAX_WAITS. */
  method Waits(previous: seq<Entry>, listed: seq<Entry>, now: int, order: string -> int) returns (rows: seq<Wait>)
    ensures |rows| <= 20000 && ByStarted(rows, order) && OneEach(rows)
    ensures AreLast(rows, previous + listed, now - 604800)
    ensures NoneMissing(rows, previous + listed, now - 604800)
  {
    var since := now - HISTORY_SECONDS;
    var unique := Unique(previous + listed, since);
    var all := InOrderOfStart(unique, order);
    rows := all;
    if |all| > MAX_WAITS {
      rows := all[|all| - MAX_WAITS..];
      forall dropped | dropped in all && dropped !in rows
        ensures forall row :: row in rows ==> dropped.started <= row.started
      {
        DroppedIsEarlier(all, MAX_WAITS, dropped, order);
      }
    }
    forall row | row in rows
      ensures Last(previous + listed, since, row.runner) == Some(row)
    {
      assert row in all && At(unique, row.runner) == Some(row);
    }
    forall runner | Last(previous + listed, since, runner).Some?
      ensures Last(previous + listed, since, runner).value in all
    {
      assert At(unique, runner) == Last(previous + listed, since, runner);
    }
  }

  method InOrderOfStart(unique: map<string, Wait>, order: string -> int) returns (rows: seq<Wait>)
    requires forall runner :: runner in unique ==> unique[runner].runner == runner
    ensures ByStarted(rows, order) && OneEach(rows)
    ensures forall row :: row in rows <==> row.runner in unique && unique[row.runner] == row
  {
    rows := [];
    var left := unique.Keys;
    while left != {}
      invariant left <= unique.Keys && ByStarted(rows, order) && OneEach(rows)
      invariant forall row :: row in rows <==> row.runner in unique && row.runner !in left && unique[row.runner] == row
      decreases left
    {
      var runner :| runner in left;
      PlacedKeepsOrder(unique[runner], rows, order);
      PlacedKeepsOneEach(unique[runner], rows, order);
      rows := Placed(unique[runner], rows, order);
      left := left - {runner};
    }
  }

  /** The spans of the kept waits are in order when no refresh misplaced a finish and no kept job started after now, and
      the sweep then gives every sample what all of them give it. */
  lemma WaitsGiveOrderedSpans(rows: seq<Wait>, entries: seq<Entry>, since: int, occupied: set<string>, kinds: set<string>, now: int)
    requires AreLast(rows, entries, since)
    requires !SomeMisplaced(entries, since) && forall row :: row in rows && row.finished.None? ==> row.started <= now
    ensures Ordered(JobSpans(rows, occupied, kinds, now)) && SweptWhole(JobSpans(rows, occupied, kinds, now))
  {
    forall k | 0 <= k < |rows|
      ensures rows[k].started <= (if rows[k].finished.Some? then rows[k].finished.value else now)
    {
      assert rows[k] in rows;
      LastIsInOrder(entries, since, rows[k].runner);
    }
    SweptWholeExactly(JobSpans(rows, occupied, kinds, now));
  }

  /** The row gives a span, which ends within this many seconds of its start. */
  predicate EndsWithin(row: Wait, occupied: set<string>, kinds: set<string>, now: int, slack: nat)
  {
    row.kind in kinds && (row.finished.Some? || row.runner in occupied) ==>
      row.started <= (if row.finished.Some? then row.finished.value else now) + slack
  }

  predicate OrderedWithin(spans: seq<Span>, slack: nat)
  {
    forall k :: 0 <= k < |spans| ==> spans[k].start <= spans[k].stop + slack
  }

  lemma {:induction false} SpansExactly(rows: seq<Wait>, occupied: set<string>, kinds: set<string>, now: int, slack: nat)
    ensures OrderedWithin(JobSpans(rows, occupied, kinds, now), slack) <==>
      forall k :: 0 <= k < |rows| ==> EndsWithin(rows[k], occupied, kinds, now, slack)
  {
    if rows != [] {
      var row, rest := rows[0], JobSpans(rows[1..], occupied, kinds, now);
      SpansExactly(rows[1..], occupied, kinds, now, slack);
      assert forall k :: 0 <= k < |rows[1..]| ==> rows[1..][k] == rows[k + 1];
      FirstOrdered(Span(row.started, if row.finished.Some? then row.finished.value else now), rest, slack);
    }
  }

  lemma FirstOrdered(span: Span, rest: seq<Span>, slack: nat)
    ensures OrderedWithin([span] + rest, slack) <==> span.start <= span.stop + slack && OrderedWithin(rest, slack)
  {
    var all := [span] + rest;
    assert all[0] == span && forall k :: 0 <= k < |rest| ==> rest[k] == all[k + 1];
    assert forall k :: 1 <= k < |all| ==> all[k] == rest[k - 1];
  }

  /** Exactly when they are: no row that counts ends before it starts, or holds a slot and starts after now. */
  lemma SpansAreOrderedExactly(rows: seq<Wait>, occupied: set<string>, kinds: set<string>, now: int)
    ensures Ordered(JobSpans(rows, occupied, kinds, now)) <==>
      forall k :: 0 <= k < |rows| && rows[k].kind in kinds ==>
        InOrder(rows[k]) && (rows[k].finished.None? && rows[k].runner in occupied ==> rows[k].started <= now)
  {
    SpansExactly(rows, occupied, kinds, now, 0);
    assert OrderedWithin(JobSpans(rows, occupied, kinds, now), 0) <==> Ordered(JobSpans(rows, occupied, kinds, now));
    assert forall k :: 0 <= k < |rows| ==> (EndsWithin(rows[k], occupied, kinds, now, 0) <==>
      (rows[k].kind in kinds ==>
        InOrder(rows[k]) && (rows[k].finished.None? && rows[k].runner in occupied ==> rows[k].started <= now)));
  }

  /** Whatever the samples, the sweep over the kept jobs gives each what all of them give it exactly when no row that
      counts ends more than a second before it starts, or holds a slot and starts more than a second after now. */
  lemma JobsAreSweptWholeExactly(rows: seq<Wait>, occupied: set<string>, kinds: set<string>, now: int)
    ensures SweptWhole(JobSpans(rows, occupied, kinds, now)) <==>
      forall k :: 0 <= k < |rows| ==> EndsWithin(rows[k], occupied, kinds, now, 1)
  {
    SpansExactly(rows, occupied, kinds, now, 1);
    SweptWholeExactly(JobSpans(rows, occupied, kinds, now));
    assert OrderedWithin(JobSpans(rows, occupied, kinds, now), 1) <==> Timely(JobSpans(rows, occupied, kinds, now));
  }

  // Samples

  /** What a sample says of the lane, some of it only when its collector said it. */
  datatype Metrics = Metrics(occupied: nat, running: Option<nat>, waiting: Option<nat>, warm: Option<nat>)

  datatype Sample = Sample(at: int, metrics: Metrics)

  /** A sample as earlier refreshes kept it, whose time and other numbers are sound or not. */
  datatype Raw = Raw(sound: bool, sample: Sample)

  predicate CountRead(count: Option<nat>) { count.Some? ==> count.value <= 10000 }

  /** A kept sample that is read back: sound, of the last seven days, and with no count over 10000. */
  predicate SampleRead(raw: Raw, since: int)
  {
    && raw.sound && raw.sample.at >= since
    && CountRead(raw.sample.metrics.running) && CountRead(raw.sample.metrics.waiting) && CountRead(raw.sample.metrics.warm)
  }

  lemma SampleReadMeans(raw: Raw, since: int)
    ensures SampleRead(raw, since) <==>
      && raw.sound && since <= raw.sample.at
      && forall count :: count in [raw.sample.metrics.running, raw.sample.metrics.waiting, raw.sample.metrics.warm] ==>
           count.None? || count.value < 10001
  {
    var counts := [raw.sample.metrics.running, raw.sample.metrics.waiting, raw.sample.metrics.warm];
    assert counts[0] in counts && counts[1] in counts && counts[2] in counts;
  }

  function Cleaned(raws: seq<Raw>, since: int): (r: seq<Sample>)
    ensures forall sample :: sample in r <==> exists raw :: raw in raws && SampleRead(raw, since) && raw.sample == sample
    decreases |raws|
  {
    if raws == [] then []
    else
      var last, before := raws[|raws| - 1], Cleaned(raws[..|raws| - 1], since);
      LastApart(raws);
      if SampleRead(last, since) then before + [last.sample] else before
  }

  method CleanSamples(raws: seq<Raw>, since: int) returns (kept: seq<Sample>)
    ensures kept == Cleaned(raws, since)
  {
    kept := [];
    for i := 0 to |raws|
      invariant kept == Cleaned(raws[..i], since)
    {
      assert raws[..i + 1][..i] == raws[..i];
      if SampleRead(raws[i], since) { kept := kept + [raws[i].sample]; }
    }
    Ends(raws);
  }

  function Slotted(sample: Sample, rows: seq<Sample>): (r: seq<Sample>)
    ensures forall other :: other in r <==> other == sample || other in rows
  {
    if rows == [] || sample.at < rows[0].at then [sample] + rows else [rows[0]] + Slotted(sample, rows[1..])
  }

  predicate Rising(rows: seq<Sample>) { forall i, j :: 0 <= i < j < |rows| ==> rows[i].at < rows[j].at }

  lemma {:induction false} SlottedRises(sample: Sample, rows: seq<Sample>)
    requires Rising(rows) && forall other :: other in rows ==> other.at != sample.at
    ensures Rising(Slotted(sample, rows))
  {
    if rows != [] && sample.at >= rows[0].at {
      assert rows[0] in rows;
      SlottedRises(sample, rows[1..]);
      var rest := Slotted(sample, rows[1..]);
      assert forall k :: 0 <= k < |rest| ==> rest[k] in rest;
    }
  }

  /** The last sample of a time. */
  function LastAt(rows: seq<Sample>, at: int): (r: Option<Sample>)
    ensures r.Some? ==> r.value in rows && r.value.at == at
    decreases |rows|
  {
    if rows == [] then None
    else if rows[|rows| - 1].at == at then Some(rows[|rows| - 1])
    else LastAt(rows[..|rows| - 1], at)
  }

  lemma LastAtOfOneMore(rows: seq<Sample>, i: nat, at: int)
    requires i < |rows|
    ensures LastAt(rows[..i + 1], at) == if rows[i].at == at then Some(rows[i]) else LastAt(rows[..i], at)
  {
    assert rows[..i + 1][..i] == rows[..i];
  }

  /** The dictionary of samples by time: the last of each. */
  method ByTime(rows: seq<Sample>) returns (unique: map<int, Sample>)
    ensures forall at :: LastAt(rows, at) == if at in unique then Some(unique[at]) else None
  {
    unique := map[];
    for i := 0 to |rows|
      invariant forall at :: LastAt(rows[..i], at) == if at in unique then Some(unique[at]) else None
    {
      forall at { LastAtOfOneMore(rows, i, at); }
      unique := unique[rows[i].at := rows[i]];
    }
    Ends(rows);
  }

  method Any<T>(s: set<T>) returns (x: T)
    requires s != {}
    ensures x in s
  {
    x :| x in s;
  }

  method InOrderOfTime(unique: map<int, Sample>) returns (kept: seq<Sample>)
    requires forall at :: at in unique ==> unique[at].at == at
    ensures Rising(kept)
    ensures forall sample :: sample in kept <==> sample.at in unique && unique[sample.at] == sample
  {
    kept := [];
    var left := unique.Keys;
    while left != {}
      invariant left <= unique.Keys && Rising(kept)
      invariant forall sample :: sample in kept <==> sample.at in unique && sample.at !in left && unique[sample.at] == sample
      decreases left
    {
      var at := Any(left);
      SlottedRises(unique[at], kept);
      kept := Slotted(unique[at], kept);
      left := left - {at};
    }
  }

  lemma DroppedIsOlder(rows: seq<Sample>, most: nat, dropped: Sample)
    requires Rising(rows) && |rows| > most && dropped in rows && dropped !in rows[|rows| - most..]
    ensures forall row :: row in rows[|rows| - most..] ==> dropped.at < row.at
  {
    var i :| 0 <= i < |rows| && rows[i] == dropped;
    var kept := rows[|rows| - most..];
    assert forall k :: 0 <= k < most ==> kept[k] == rows[|rows| - most + k];
    forall row | row in kept
      ensures dropped.at < row.at
    {
      var k :| 0 <= k < most && kept[k] == row;
      assert rows[|rows| - most + k] == row;
    }
  }

  /** Each is the last sample of its time, and a time without one is older than a full list of others. */
  ghost predicate AreLastOfTheirTime(kept: seq<Sample>, rows: seq<Sample>)
  {
    && (forall sample :: sample in kept ==> LastAt(rows, sample.at) == Some(sample))
    && (forall at :: LastAt(rows, at).Some? ==>
          || LastAt(rows, at).value in kept
          || (|kept| == 20160 && forall other :: other in kept ==> at < other.at))
  }

  lemma NewestOfTheirTime(all: seq<Sample>, kept: seq<Sample>, rows: seq<Sample>)
    requires Rising(all) && kept == (if |all| > MAX_SAMPLES then all[|all| - MAX_SAMPLES..] else all)
    requires forall sample :: sample in all ==> LastAt(rows, sample.at) == Some(sample)
    requires forall at :: LastAt(rows, at).Some? ==> LastAt(rows, at).value in all
    ensures Rising(kept) && |kept| <= MAX_SAMPLES && AreLastOfTheirTime(kept, rows)
  {
    if |all| > MAX_SAMPLES {
      forall dropped | dropped in all && dropped !in kept
        ensures forall row :: row in kept ==> dropped.at < row.at
      {
        DroppedIsOlder(all, MAX_SAMPLES, dropped);
      }
    }
  }

  /** The kept samples that read back and this refresh's: the last one of each time, by time, the newest MAX_SAMPLES. */
  method Samples(previous: seq<Raw>, taken: Option<Sample>, now: int) returns (kept: seq<Sample>)
    ensures Rising(kept) && |kept| <= 20160
    ensures AreLastOfTheirTime(kept, Cleaned(previous, now - 604800) + Present(taken))
  {
    var rows := CleanSamples(previous, now - HISTORY_SECONDS);
    rows := rows + Present(taken);
    var unique := ByTime(rows);
    forall at | at in unique
      ensures unique[at].at == at
    {
      assert LastAt(rows, at) == Some(unique[at]);
    }
    var all := InOrderOfTime(unique);
    kept := if |all| > MAX_SAMPLES then all[|all| - MAX_SAMPLES..] else all;
    NewestOfTheirTime(all, kept, rows);
  }

  function Present(taken: Option<Sample>): seq<Sample>
  {
    if taken.Some? then [taken.value] else []
  }

  /** The samples that say how many slots ran a job. */
  function Usable(samples: seq<Sample>): (r: seq<Point>)
    ensures forall point :: point in r ==>
      exists sample :: sample in samples && sample.at == point.at && IsOf(point.host, sample.metrics)
  {
    if samples == [] then []
    else if samples[0].metrics.running.Some? then [Point(samples[0].at, HostOf(samples[0].metrics))] + Usable(samples[1..])
    else Usable(samples[1..])
  }

  function HostOf(m: Metrics): Host
    requires m.running.Some?
  {
    Host(m.occupied, m.running.value, if m.warm.Some? then m.warm.value else 0, m.waiting)
  }

  /** The host a sample saw. One that did not say how many runners the warm pool keeps kept none. */
  predicate IsOf(host: Host, m: Metrics)
  {
    && host.slotsOccupied == m.occupied && Some(host.slotsRunning) == m.running && host.jobsWaiting == m.waiting
    && (m.warm == Some(host.warm) || (m.warm.None? && host.warm == 0))
  }

  lemma {:induction false} UsableAscends(samples: seq<Sample>, now: int)
    requires Rising(samples) && forall sample :: sample in samples ==> sample.at <= now
    ensures Ascending(Usable(samples), now)
  {
    if samples != [] {
      UsableAscends(samples[1..], now);
      if samples[0].metrics.running.Some? {
        forall point | point in Usable(samples[1..])
          ensures samples[0].at < point.at
        {
          var sample :| sample in samples[1..] && sample.at == point.at;
        }
        PutFirst(Point(samples[0].at, HostOf(samples[0].metrics)), Usable(samples[1..]), now);
      }
    }
  }

  // The queue

  /** A scale set as the listener sends it, whose fields are of the right types or not. */
  datatype SetRow = SetRow(sound: bool, kind: string, jobs: int, running: int, minRunners: int, instances: seq<int>)

  datatype RawQueue = RawQueue(sound: bool, sets: seq<SetRow>, qae: int)

  predicate Counted(x: int) { 0 <= x <= 10000 }

  predicate SetRead(row: SetRow)
  {
    && row.sound && row.kind in KINDS && Counted(row.jobs) && Counted(row.running) && Counted(row.minRunners)
    && |row.instances| <= 64 && forall n :: n in row.instances ==> 1 <= n <= 64
  }

  /** A set is read when its fields are sound, it is of a known kind, its three counts are up to ten thousand, and it names up
      to 64 instances, each from 1 to 64. */
  lemma SetReadMeans(row: SetRow)
    ensures SetRead(row) <==>
      && row.sound && (row.kind == "ci" || row.kind == "qae" || row.kind == "wait")
      && -1 < row.jobs < 10001 && -1 < row.running < 10001 && -1 < row.minRunners < 10001
      && |row.instances| < 65 && forall k :: 0 <= k < |row.instances| ==> 0 < row.instances[k] < 65
  {
    if forall n :: n in row.instances ==> 1 <= n <= 64 {
      forall k | 0 <= k < |row.instances|
        ensures 0 < row.instances[k] < 65
      {
        assert row.instances[k] in row.instances;
      }
    }
  }

  function Waiting(sets: seq<SetRow>): nat
  {
    if sets == [] then 0 else Waiting(sets[..|sets| - 1]) + Max(0, sets[|sets| - 1].jobs - sets[|sets| - 1].running)
  }

  function WarmRunners(sets: seq<SetRow>): nat
  {
    if sets == [] then 0 else WarmRunners(sets[..|sets| - 1]) + Max(0, sets[|sets| - 1].minRunners)
  }

  function WarmSlots(sets: seq<SetRow>): (r: set<(string, int)>)
    ensures forall kind, n :: (kind, n) in r <==> exists row :: row in sets && row.kind == kind && n in row.instances
  {
    set row: SetRow, n: int | row in sets && n in row.instances :: (row.kind, n)
  }

  /** The first 64 sets added up, or nothing when one of them or the QAE pool cannot be read. */
  function Projected(raw: RawQueue): (r: Option<Queue>)
  {
    var sets := raw.sets[..Min(64, |raw.sets|)];
    if !raw.sound || !(0 <= raw.qae <= 64) || !(forall row :: row in sets ==> SetRead(row)) then None
    else Some(Queue(Waiting(sets), WarmRunners(sets), WarmSlots(sets), raw.qae))
  }

  method AddUp(sets: seq<SetRow>) returns (sound: bool, waiting: nat, warm: nat, slots: set<(string, int)>)
    ensures sound <==> forall row :: row in sets ==> SetRead(row)
    ensures sound ==> waiting == Waiting(sets) && warm == WarmRunners(sets) && slots == WarmSlots(sets)
  {
    sound, waiting, warm, slots := true, 0, 0, {};
    for i := 0 to |sets|
      invariant sound && waiting == Waiting(sets[..i]) && warm == WarmRunners(sets[..i]) && slots == WarmSlots(sets[..i])
      invariant forall k :: 0 <= k < i ==> SetRead(sets[k])
    {
      if !SetRead(sets[i]) {
        assert sets[i] in sets;
        sound := false;
        return;
      }
      assert sets[..i + 1][..i] == sets[..i];
      SlotsOfOneMore(sets, i);
      waiting := waiting + Max(0, sets[i].jobs - sets[i].running);
      warm := warm + sets[i].minRunners;
      slots := slots + (set n | n in sets[i].instances :: (sets[i].kind, n));
    }
    Ends(sets);
  }

  lemma SlotsOfOneMore(sets: seq<SetRow>, i: nat)
    requires i < |sets|
    ensures WarmSlots(sets[..i + 1]) == WarmSlots(sets[..i]) + set n | n in sets[i].instances :: (sets[i].kind, n)
  {
    SplitAt(sets, i);
  }

  method ProjectQueue(raw: RawQueue) returns (queue: Option<Queue>)
    ensures queue == Projected(raw)
  {
    queue := None;
    if raw.sound {
      var sound, waiting, warm, slots := AddUp(raw.sets[..Min(64, |raw.sets|)]);
      if sound && 0 <= raw.qae <= 64 { queue := Some(Queue(waiting, warm, slots, raw.qae)); }
    }
  }

  lemma ProjectedIsNamed(raw: RawQueue)
    ensures Projected(raw).Some? ==> Named(Projected(raw).value.warmSlots)
  {
  }

  /** Two sets of 33 runners each are read, and what is published with their sum is not. */
  lemma SumsAreRefused(points: seq<Point>, rows: seq<Wait>, lane: Lane, now: int)
    requires lane.queue == Projected(RawQueue(true, [SetRow(true, "ci", 0, 0, 33, []), SetRow(true, "qae", 0, 0, 33, [])], 0))
    ensures lane.queue.Some? && !ReadHistory(HistoryOf(points, rows, lane, now))
  {
    var first, second := SetRow(true, "ci", 0, 0, 33, []), SetRow(true, "qae", 0, 0, 33, []);
    var sets := [first, second];
    assert sets[..2] == sets && sets[..1] == [first] && [first][..0] == [];
    assert WarmRunners([first]) == 33 && WarmRunners(sets) == 66;
  }

  // One refresh

  /** What the host answered, if it did: its limit, the taken slots and the listener's queue. */
  datatype Answer = Answer(ok: bool, limit: Option<nat>, records: seq<Record>, queue: Option<RawQueue>)

  function LaneOf(answer: Answer, lastQae: nat): Lane
  {
    Lane(answer.limit, answer.records, answer.ok,
         if answer.ok && answer.queue.Some? then Projected(answer.queue.value) else None, lastQae)
  }

  function SharedRows(records: seq<Record>, kinds: set<string>): seq<Record>
  {
    if records == [] then []
    else if records[0].kind in kinds then [records[0]] + SharedRows(records[1..], kinds)
    else SharedRows(records[1..], kinds)
  }

  function BusyCount(records: seq<Record>): nat
  {
    if records == [] then 0 else (if records[0].busy then 1 else 0) + BusyCount(records[1..])
  }

  /** This refresh's sample, when the host answered. */
  function Taken(lane: Lane, now: int): Option<Sample>
  {
    var shared := SharedRows(lane.records, SharedKinds(lane));
    if !lane.ok then None
    else Some(Sample(now, Metrics(|shared|, Some(BusyCount(shared)),
                                  if lane.queue.Some? then Some(lane.queue.value.waiting) else None,
                                  if lane.queue.Some? then Some(lane.queue.value.warm) else None)))
  }

  /** How many of the records are of these kinds, and how many of those have a job. */
  function RecordsOf(records: seq<Record>, kinds: set<string>, busyOnly: bool): nat
  {
    if records == [] then 0
    else RecordsOf(records[1..], kinds, busyOnly) + if records[0].kind in kinds && (records[0].busy || !busyOnly) then 1 else 0
  }

  lemma {:induction false} SharedRowsCount(records: seq<Record>, kinds: set<string>)
    ensures |SharedRows(records, kinds)| == RecordsOf(records, kinds, false)
    ensures BusyCount(SharedRows(records, kinds)) == RecordsOf(records, kinds, true)
  {
    if records != [] {
      SharedRowsCount(records[1..], kinds);
      assert ([records[0]] + SharedRows(records[1..], kinds))[1..] == SharedRows(records[1..], kinds);
    }
  }

  /** A refresh whose host answered takes a sample: the taken slots of the runner pool, those with a job, and the queue's counts
      if there is a queue. The pool is CI's alone while QAE has slots of its own. */
  lemma TakenMeans(lane: Lane, now: int)
    ensures Taken(lane, now).Some? <==> lane.ok
    ensures lane.ok ==>
      var kinds := if (match lane.queue case Some(q) => q.qaeSlots case None => lane.lastQae) > 0 then {"ci"} else {"ci", "qae"};
      Taken(lane, now) == Some(Sample(now, Metrics(RecordsOf(lane.records, kinds, false), Some(RecordsOf(lane.records, kinds, true)),
        match lane.queue { case Some(q) => Some(q.waiting) case None => None },
        match lane.queue { case Some(q) => Some(q.warm) case None => None })))
  {
    SharedRowsCount(lane.records, SharedKinds(lane));
  }

  /** A limit, or no sample that saw more than 64 slots taken. */
  predicate Bounded(limit: Option<nat>, samples: seq<Sample>)
  {
    (limit.Some? && limit.value > 0) || forall sample :: sample in samples ==> sample.metrics.occupied <= 64
  }

  /** Whatever the listener sent and earlier refreshes kept, finishes out of order included, the reader accepts what a
      refresh publishes exactly when what it says of the lane is inside the reader's caps. */
  method Capture(previous: seq<Raw>, kept: seq<Entry>, listed: seq<Entry>, answer: Answer, lastQae: nat, now: int,
                 order: string -> int)
      returns (samples: seq<Sample>, rows: seq<Wait>, h: History)
    requires forall raw :: raw in previous && raw.sound ==> raw.sample.at <= now
    ensures Rising(samples) && ByStarted(rows, order) && OneEach(rows)
    ensures AreLastOfTheirTime(samples, Cleaned(previous, now - HISTORY_SECONDS) + Present(Taken(LaneOf(answer, lastQae), now)))
    ensures AreLast(rows, kept + (if answer.ok then listed else []), now - HISTORY_SECONDS)
    ensures h == HistoryOf(Usable(samples), rows, LaneOf(answer, lastQae), now)
    ensures Bounded(answer.limit, samples) ==> (ReadHistory(h) <==> LaneInsideTheCaps(LaneOf(answer, lastQae), rows))
  {
    var queue := None;
    if answer.ok && answer.queue.Some? { queue := ProjectQueue(answer.queue.value); }
    var lane := Lane(answer.limit, answer.records, answer.ok, queue, lastQae);
    samples := Samples(previous, Taken(lane, now), now);
    rows := Waits(kept, if answer.ok then listed else [], now, order);
    SamplesAreOf(samples, previous, lane, now);
    UsableAscends(samples, now);
    h := PublishHistory(Usable(samples), rows, lane, now);
    if Bounded(answer.limit, samples) {
      CapturedIsReadExactly(samples, previous, rows, kept + (if answer.ok then listed else []), answer, lastQae, now);
    }
  }

  /** A sample that is kept is this refresh's, or one that read back. */
  lemma SamplesAreOf(samples: seq<Sample>, previous: seq<Raw>, lane: Lane, now: int)
    requires AreLastOfTheirTime(samples, Cleaned(previous, now - HISTORY_SECONDS) + Present(Taken(lane, now)))
    requires forall raw :: raw in previous && raw.sound ==> raw.sample.at <= now
    ensures forall sample :: sample in samples ==>
      sample.at <= now && (Some(sample) == Taken(lane, now) || CountRead(sample.metrics.waiting))
  {
    var rows := Cleaned(previous, now - HISTORY_SECONDS) + Present(Taken(lane, now));
    forall sample | sample in samples
      ensures sample.at <= now && (Some(sample) == Taken(lane, now) || CountRead(sample.metrics.waiting))
    {
      assert LastAt(rows, sample.at) == Some(sample) && sample in rows;
    }
  }

  lemma CapturedIsReadExactly(samples: seq<Sample>, previous: seq<Raw>, rows: seq<Wait>, entries: seq<Entry>, answer: Answer,
                              lastQae: nat, now: int)
    requires AreLastOfTheirTime(samples, Cleaned(previous, now - HISTORY_SECONDS) + Present(Taken(LaneOf(answer, lastQae), now)))
    requires forall raw :: raw in previous && raw.sound ==> raw.sample.at <= now
    requires Rising(samples) && |rows| <= MAX_WAITS && AreLast(rows, entries, now - HISTORY_SECONDS) && Bounded(answer.limit, samples)
    ensures ReadHistory(HistoryOf(Usable(samples), rows, LaneOf(answer, lastQae), now))
      <==> LaneInsideTheCaps(LaneOf(answer, lastQae), rows)
  {
    var lane, points := LaneOf(answer, lastQae), Usable(samples);
    if answer.limit.None? || answer.limit.value <= 64 {
      SamplesAreOf(samples, previous, lane, now);
      UsableAscends(samples, now);
      UsableIsBounded(samples, answer.limit);
      if answer.ok && answer.queue.Some? { ProjectedIsNamed(answer.queue.value); }
      forall row | row in rows
        ensures Capped(row)
      {
        assert Last(entries, now - HISTORY_SECONDS, row.runner) == Some(row);
      }
      HistoryIsReadExactly(points, rows, lane, now);
      if LaneInsideTheCaps(lane, rows) { UsableWaitsWithin(samples, lane, now); }
    }
  }

  lemma UsableIsBounded(samples: seq<Sample>, limit: Option<nat>)
    requires Bounded(limit, samples) && (limit.Some? ==> limit.value <= 64)
    ensures CapsWithin(Usable(samples), limit, 64)
  {
    forall point | point in Usable(samples)
      ensures Cap(point.host, limit) <= 64
    {
      var sample :| sample in samples && sample.at == point.at && IsOf(point.host, sample.metrics);
    }
  }

  lemma UsableWaitsWithin(samples: seq<Sample>, lane: Lane, now: int)
    requires lane.ok && lane.queue.Some? ==> lane.queue.value.waiting <= 10000
    requires forall sample :: sample in samples ==> Some(sample) == Taken(lane, now) || CountRead(sample.metrics.waiting)
    ensures PointsWaitWithin(Usable(samples), 10000)
  {
    forall point | point in Usable(samples) && point.host.jobsWaiting.Some?
      ensures point.host.jobsWaiting.value <= 10000
    {
      var sample :| sample in samples && sample.at == point.at && IsOf(point.host, sample.metrics);
    }
  }

  /** A finished record, and a later start of the same runner that has no finish of its own. */
  lemma FinishMisplaced()
    ensures var first, second := Wait("r", "ci", 0, Some(10), 0, None), Wait("r", "ci", 20, None, 0, None);
      InOrder(first) && InOrder(second) && !InOrder(Newest(Some(first), second))
  {
  }
}
