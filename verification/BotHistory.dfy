/** A bot role's recent results (dashboard/github_bots.py, dashboard/bot_runs.py). A workflow's runs are
    read newest first and the scan stops early. The history still reports the five newest results a scan
    of every run would have found. Times are seconds. */
module BotHistory {
  import opened Common

  const HISTORY_RUN_LIMIT := 50
  const HOUR := 3600

  datatype Row = Row(jobId: int, completedAt: int)

  datatype Job = Job(id: int, name: string, completed: bool, completedAt: Option<int>, ran: bool)

  datatype Run = Run(updatedAt: Option<int>, createdAt: int, jobs: seq<Job>)

  function TimeKey(run: Run): int { if run.updatedAt.Some? then run.updatedAt.value else run.createdAt }

  // Newest first

  function Insert(x: int, s: seq<int>): (r: seq<int>)
    ensures |r| == |s| + 1
    ensures forall k :: 0 <= k < |r| ==> r[k] == x || r[k] in s
  {
    if s == [] || x >= s[0] then [x] + s else [s[0]] + Insert(x, s[1..])
  }

  function Sorted(times: seq<int>): seq<int>
  {
    if times == [] then [] else Insert(times[0], Sorted(times[1..]))
  }

  function InsertRow(row: Row, s: seq<Row>): seq<Row>
  {
    if s == [] || row.completedAt >= s[0].completedAt then [row] + s else [s[0]] + InsertRow(row, s[1..])
  }

  function SortedRows(rows: seq<Row>): seq<Row>
  {
    if rows == [] then [] else InsertRow(rows[0], SortedRows(rows[1..]))
  }

  function Five<T>(s: seq<T>): (r: seq<T>)
  {
    if |s| <= 5 then s else s[..5]
  }

  function Within(rows: seq<Row>, from: int, now: int): seq<Row>
  {
    if rows == [] then []
    else if from <= rows[0].completedAt <= now then [rows[0]] + Within(rows[1..], from, now)
    else Within(rows[1..], from, now)
  }

  /** The five newest rows completed in the last `hours`. */
  function RecentRuns(rows: seq<Row>, now: int, hours: int): seq<Row>
  {
    Five(SortedRows(Within(rows, now - hours * HOUR, now)))
  }

  function Times(rows: seq<Row>): (r: seq<int>)
    ensures |r| == |rows|
    ensures forall i :: 0 <= i < |r| ==> r[i] == rows[i].completedAt
  {
    seq(|rows|, i requires 0 <= i < |rows| => rows[i].completedAt)
  }

  function InWindow(times: seq<int>, from: int, now: int): seq<int>
  {
    if times == [] then []
    else if from <= times[0] <= now then [times[0]] + InWindow(times[1..], from, now)
    else InWindow(times[1..], from, now)
  }

  function RecentTimes(times: seq<int>, now: int, hours: int): seq<int>
  {
    Five(Sorted(InWindow(times, now - hours * 3600, now)))
  }

  lemma TimesTail(s: seq<Row>)
    requires s != []
    ensures Times(s)[0] == s[0].completedAt && Times(s)[1..] == Times(s[1..])
  {
  }

  lemma TimesHead(row: Row, s: seq<Row>)
    ensures Times([row] + s) == [row.completedAt] + Times(s)
  {
  }

  lemma {:induction false} InsertRowTimes(row: Row, s: seq<Row>)
    ensures Times(InsertRow(row, s)) == Insert(row.completedAt, Times(s))
  {
    if s != [] { TimesTail(s); }
    if s != [] && row.completedAt < s[0].completedAt {
      InsertRowTimes(row, s[1..]);
      TimesHead(s[0], InsertRow(row, s[1..]));
    } else {
      TimesHead(row, s);
    }
  }

  lemma {:induction false} SortedRowsTimes(rows: seq<Row>)
    ensures Times(SortedRows(rows)) == Sorted(Times(rows))
  {
    if rows != [] {
      TimesTail(rows);
      SortedRowsTimes(rows[1..]);
      InsertRowTimes(rows[0], SortedRows(rows[1..]));
    }
  }

  lemma {:induction false} WithinTimes(rows: seq<Row>, from: int, now: int)
    ensures Times(Within(rows, from, now)) == InWindow(Times(rows), from, now)
  {
    if rows != [] {
      TimesTail(rows);
      WithinTimes(rows[1..], from, now);
      TimesHead(rows[0], Within(rows[1..], from, now));
    }
  }

  lemma RecentRunsTimes(rows: seq<Row>, now: int, hours: int)
    ensures Times(RecentRuns(rows, now, hours)) == RecentTimes(Times(rows), now, hours)
  {
    WithinTimes(rows, now - hours * HOUR, now);
    SortedRowsTimes(Within(rows, now - hours * HOUR, now));
  }

  // What adding a result changes

  predicate Descending(s: seq<int>) { forall i, j :: 0 <= i < j < |s| ==> s[i] >= s[j] }

  lemma {:induction false} InsertKeepsOrder(x: int, s: seq<int>)
    requires Descending(s)
    ensures Descending(Insert(x, s))
  {
    if s != [] && x < s[0] {
      InsertKeepsOrder(x, s[1..]);
      var rest := Insert(x, s[1..]);
      assert forall k :: 0 <= k < |rest| ==> rest[k] <= s[0];
    }
  }

  lemma {:induction false} SortedIsDescending(times: seq<int>)
    ensures Descending(Sorted(times)) && |Sorted(times)| == |times|
  {
    if times != [] {
      SortedIsDescending(times[1..]);
      InsertKeepsOrder(times[0], Sorted(times[1..]));
    }
  }

  lemma InsertOver(x: int, first: int, rest: seq<int>)
    ensures Insert(x, [first] + rest) == if x < first then [first] + Insert(x, rest) else [x] + ([first] + rest)
  {
    assert ([first] + rest)[1..] == rest;
  }

  lemma BothInFront(x: int, y: int, s: seq<int>)
    requires s == [] || (x >= s[0] && y >= s[0])
    ensures Insert(x, Insert(y, s)) == Insert(y, Insert(x, s))
  {
    InsertOver(x, y, s);
    InsertOver(y, x, s);
  }

  lemma OneInFront(x: int, y: int, first: int, rest: seq<int>)
    requires x < first <= y
    ensures Insert(x, Insert(y, [first] + rest)) == Insert(y, Insert(x, [first] + rest))
  {
    InsertOver(x, first, rest);
    InsertOver(y, first, rest);
    InsertOver(x, y, [first] + rest);
    InsertOver(y, first, Insert(x, rest));
  }

  lemma NoneInFront(x: int, y: int, first: int, rest: seq<int>)
    requires x < first && y < first && Insert(x, Insert(y, rest)) == Insert(y, Insert(x, rest))
    ensures Insert(x, Insert(y, [first] + rest)) == Insert(y, Insert(x, [first] + rest))
  {
    InsertOver(x, first, rest);
    InsertOver(y, first, rest);
    InsertOver(x, first, Insert(y, rest));
    InsertOver(y, first, Insert(x, rest));
  }

  lemma {:induction false} InsertsCommute(x: int, y: int, s: seq<int>)
    requires Descending(s)
    ensures Insert(x, Insert(y, s)) == Insert(y, Insert(x, s))
  {
    if s == [] || (x >= s[0] && y >= s[0]) {
      BothInFront(x, y, s);
    } else {
      var first, rest := s[0], s[1..];
      assert s == [first] + rest;
      if x < first && y < first {
        InsertsCommute(x, y, rest);
        NoneInFront(x, y, first, rest);
      } else if x < first {
        OneInFront(x, y, first, rest);
      } else {
        OneInFront(y, x, first, rest);
      }
    }
  }

  lemma {:induction false} SortedWithOneMore(a: seq<int>, x: int, b: seq<int>)
    ensures Sorted(a + [x] + b) == Insert(x, Sorted(a + b))
  {
    if a == [] {
      assert a + [x] + b == [x] + b && ([x] + b)[1..] == b && a + b == b;
    } else {
      assert (a + [x] + b)[1..] == a[1..] + [x] + b && (a + b)[1..] == a[1..] + b;
      SortedWithOneMore(a[1..], x, b);
      SortedIsDescending(a[1..] + b);
      InsertsCommute(a[0], x, Sorted(a[1..] + b));
    }
  }

  lemma {:induction false} InWindowConcat(a: seq<int>, b: seq<int>, from: int, now: int)
    ensures InWindow(a + b, from, now) == InWindow(a, from, now) + InWindow(b, from, now)
  {
    if a == [] {
      assert a + b == b;
    } else {
      assert (a + b)[1..] == a[1..] + b;
      InWindowConcat(a[1..], b, from, now);
    }
  }

  /** A result outside the window changes nothing, and one inside it is one more to sort. */
  lemma OneMoreInWindow(a: seq<int>, x: int, b: seq<int>, from: int, now: int)
    ensures Sorted(InWindow(a + [x] + b, from, now)) ==
      if from <= x <= now then Insert(x, Sorted(InWindow(a + b, from, now))) else Sorted(InWindow(a + b, from, now))
  {
    InWindowConcat(a + [x], b, from, now);
    InWindowConcat(a, [x], from, now);
    InWindowConcat(a, b, from, now);
    assert InWindow([x], from, now) == if from <= x <= now then [x] else [];
    if from <= x <= now {
      SortedWithOneMore(InWindow(a, from, now), x, InWindow(b, from, now));
    } else {
      assert InWindow(a, from, now) + [] == InWindow(a, from, now);
    }
  }

  lemma {:induction false} InsertBelow(x: int, s: seq<int>, n: nat)
    requires Descending(s) && 0 < n <= |s| && x <= s[n - 1]
    ensures Insert(x, s)[..n] == s[..n]
  {
    if x < s[0] {
      if n > 1 {
        InsertBelow(x, s[1..], n - 1);
        assert Insert(x, s)[..n] == [s[0]] + Insert(x, s[1..])[..n - 1];
      }
    } else {
      assert forall i :: 0 <= i < n ==> s[i] == x;
    }
  }

  lemma {:induction false} InsertRaises(x: int, s: seq<int>, n: nat)
    requires Descending(s) && n < |s|
    ensures |Insert(x, s)| == |s| + 1 && Insert(x, s)[n] >= s[n]
  {
    InsertKeepsOrder(x, s);
    if x < s[0] {
      if n > 0 { InsertRaises(x, s[1..], n - 1); }
    }
  }

  /** A result no newer than the fifth leaves the five newest as they are. */
  lemma AddNoNewerThanFifth(a: seq<int>, x: int, b: seq<int>, now: int, hours: int)
    requires var five := RecentTimes(a + b, now, hours); |five| == 5 && x <= five[4]
    ensures RecentTimes(a + [x] + b, now, hours) == RecentTimes(a + b, now, hours)
  {
    var from := now - hours * HOUR;
    var s := Sorted(InWindow(a + b, from, now));
    OneMoreInWindow(a, x, b, from, now);
    SortedIsDescending(InWindow(a + b, from, now));
    FiveOfOneMore(x, from <= x <= now, s, Sorted(InWindow(a + [x] + b, from, now)));
  }

  lemma FiveOfOneMore(x: int, inside: bool, s: seq<int>, t: seq<int>)
    requires Descending(s) && |Five(s)| == 5 && x <= Five(s)[4] && t == if inside then Insert(x, s) else s
    ensures Five(t) == Five(s)
  {
    if inside {
      InsertBelow(x, s, 5);
      assert t[..5] == s[..5];
    }
  }

  /** Any further result leaves five of them, and a fifth no older. */
  lemma AddRaisesFifth(a: seq<int>, x: int, b: seq<int>, now: int, hours: int)
    requires |RecentTimes(a + b, now, hours)| == 5
    ensures |RecentTimes(a + [x] + b, now, hours)| == 5
    ensures RecentTimes(a + [x] + b, now, hours)[4] >= RecentTimes(a + b, now, hours)[4]
  {
    var from := now - hours * HOUR;
    OneMoreInWindow(a, x, b, from, now);
    SortedIsDescending(InWindow(a + b, from, now));
    FifthOfOneMore(x, from <= x <= now, Sorted(InWindow(a + b, from, now)), Sorted(InWindow(a + [x] + b, from, now)));
  }

  lemma FifthOfOneMore(x: int, inside: bool, s: seq<int>, t: seq<int>)
    requires Descending(s) && |Five(s)| == 5 && t == if inside then Insert(x, s) else s
    ensures |Five(t)| == 5 && Five(t)[4] >= Five(s)[4]
  {
    if inside { InsertRaises(x, s, 4); }
  }

  lemma {:induction false} AddManyNoNewer(a: seq<int>, more: seq<int>, b: seq<int>, now: int, hours: int)
    requires more != [] ==> |RecentTimes(a + b, now, hours)| == 5
    requires forall k :: 0 <= k < |more| ==> more[k] <= RecentTimes(a + b, now, hours)[4]
    ensures RecentTimes(a + more + b, now, hours) == RecentTimes(a + b, now, hours)
    decreases |more|
  {
    if more == [] {
      assert a + more + b == a + b;
    } else {
      AddNoNewerThanFifth(a, more[0], b, now, hours);
      AddManyNoNewer(a + [more[0]], more[1..], b, now, hours);
      assert a + [more[0]] + more[1..] + b == a + more + b;
    }
  }

  lemma {:induction false} AddManyRaisesFifth(a: seq<int>, more: seq<int>, b: seq<int>, now: int, hours: int)
    requires |RecentTimes(a + b, now, hours)| == 5
    ensures |RecentTimes(a + more + b, now, hours)| == 5
    ensures RecentTimes(a + more + b, now, hours)[4] >= RecentTimes(a + b, now, hours)[4]
    decreases |more|
  {
    if more == [] {
      assert a + more + b == a + b;
    } else {
      AddRaisesFifth(a, more[0], b, now, hours);
      AddManyRaisesFifth(a + [more[0]], more[1..], b, now, hours);
      assert a + [more[0]] + more[1..] + b == a + more + b;
    }
  }

  /** The five newest of a part are no newer than the five newest of the whole. */
  lemma FifthOfPart(a: seq<int>, part: seq<int>, b: seq<int>, now: int, hours: int)
    requires |RecentTimes(part, now, hours)| == 5
    ensures |RecentTimes(a + part + b, now, hours)| == 5
    ensures RecentTimes(a + part + b, now, hours)[4] >= RecentTimes(part, now, hours)[4]
  {
    assert [] + part == part && [] + a + part == a + part;
    AddManyRaisesFifth([], a, part, now, hours);
    assert a + part + [] == a + part && a + part + b + [] == a + part + b;
    AddManyRaisesFifth(a + part, b, [], now, hours);
  }

  // The two windows

  function AtLeast(s: seq<int>, from: int): seq<int>
  {
    if s == [] then [] else if s[0] >= from then [s[0]] + AtLeast(s[1..], from) else AtLeast(s[1..], from)
  }

  lemma {:induction false} AtLeastNone(s: seq<int>, from: int)
    requires forall k :: 0 <= k < |s| ==> s[k] < from
    ensures AtLeast(s, from) == []
  {
    if s != [] { AtLeastNone(s[1..], from); }
  }

  lemma {:induction false} AtLeastOfDescending(s: seq<int>, from: int)
    requires Descending(s)
    ensures |AtLeast(s, from)| <= |s| && AtLeast(s, from) == s[..|AtLeast(s, from)|]
    ensures forall i :: 0 <= i < |s| ==> (s[i] >= from <==> i < |AtLeast(s, from)|)
  {
    if s != [] {
      if s[0] < from {
        AtLeastNone(s, from);
      } else {
        AtLeastOfDescending(s[1..], from);
        assert s[..|AtLeast(s, from)|] == [s[0]] + s[1..][..|AtLeast(s[1..], from)|];
      }
    }
  }

  lemma {:induction false} InsertAtLeast(x: int, s: seq<int>, from: int)
    requires Descending(s)
    ensures AtLeast(Insert(x, s), from) == if x >= from then Insert(x, AtLeast(s, from)) else AtLeast(s, from)
  {
    if s != [] && x < s[0] {
      InsertAtLeast(x, s[1..], from);
      assert Insert(x, s)[1..] == Insert(x, s[1..]);
      if x >= from { assert ([s[0]] + AtLeast(s[1..], from))[1..] == AtLeast(s[1..], from); }
    } else {
      assert ([x] + s)[1..] == s;
      AtLeastOfDescending(s, from);
    }
  }

  lemma {:induction false} NarrowWindow(times: seq<int>, wide: int, narrow: int, now: int)
    requires wide <= narrow
    ensures Sorted(InWindow(times, narrow, now)) == AtLeast(Sorted(InWindow(times, wide, now)), narrow)
  {
    if times != [] {
      NarrowWindow(times[1..], wide, narrow, now);
      SortedIsDescending(InWindow(times[1..], wide, now));
      var s := Sorted(InWindow(times[1..], wide, now));
      if wide <= times[0] <= now {
        InsertAtLeast(times[0], Sorted(InWindow(times[1..], wide, now)), narrow);
        assert ([times[0]] + InWindow(times[1..], wide, now))[1..] == InWindow(times[1..], wide, now);
      }
      if narrow <= times[0] <= now {
        assert ([times[0]] + InWindow(times[1..], narrow, now))[1..] == InWindow(times[1..], narrow, now);
      }
    }
  }

  lemma FiveAtLeast(s: seq<int>, from: int)
    requires Descending(s)
    ensures Five(AtLeast(s, from)) == AtLeast(Five(s), from)
  {
    AtLeastOfDescending(s, from);
    AtLeastOfDescending(Five(s), from);
    var m, k := |AtLeast(s, from)|, |AtLeast(Five(s), from)|;
    assert k < |Five(s)| ==> s[k] < from;
    assert k > 0 ==> s[k - 1] >= from;
    assert k == Min(m, 5);
  }

  /** The two-hour list is exactly the part of the seven-day list inside two hours. */
  lemma TwoHoursOfSevenDays(times: seq<int>, now: int)
    ensures RecentTimes(times, now, 2) == AtLeast(RecentTimes(times, now, 168), now - 7200)
  {
    var wide, narrow := now - 168 * HOUR, now - 2 * HOUR;
    var s := Sorted(InWindow(times, wide, now));
    NarrowWindow(times, wide, narrow, now);
    SortedIsDescending(InWindow(times, wide, now));
    FiveAtLeast(s, narrow);
  }

  // Order does not matter

  /** The five newest depend on which completion times there are, not on their order. */
  lemma {:induction false} PermutedTimes(a: seq<int>, b: seq<int>, from: int, now: int)
    requires multiset(a) == multiset(b)
    ensures Sorted(InWindow(a, from, now)) == Sorted(InWindow(b, from, now))
    decreases |a|
  {
    SameSize(a, b);
    if a != [] {
      var i := TakeOne(a, b);
      PermutedTimes(a[1..], b[..i] + b[i + 1..], from, now);
      OneMoreInWindow(b[..i], b[i], b[i + 1..], from, now);
      FirstInWindow(a, from, now);
    }
  }

  lemma FirstInWindow(a: seq<int>, from: int, now: int)
    requires a != []
    ensures Sorted(InWindow(a, from, now)) ==
      if from <= a[0] <= now then Insert(a[0], Sorted(InWindow(a[1..], from, now))) else Sorted(InWindow(a[1..], from, now))
  {
    OneMoreInWindow([], a[0], a[1..], from, now);
    assert [] + [a[0]] + a[1..] == a && [] + a[1..] == a[1..];
  }

  /** The place in b of the first element of a. */
  lemma TakeOne<T>(a: seq<T>, b: seq<T>) returns (i: nat)
    requires multiset(a) == multiset(b) && a != []
    ensures i < |b| && b[i] == a[0] && b[..i] + [b[i]] + b[i + 1..] == b
    ensures multiset(a[1..]) == multiset(b[..i] + b[i + 1..])
  {
    assert a[0] in multiset(a);
    assert a[0] in multiset(b);
    i :| 0 <= i < |b| && b[i] == a[0];
    TakenOut(b, i);
    TakenOut(a, 0);
    PutBack(b, i);
  }

  lemma PutBack<T>(s: seq<T>, i: nat)
    requires i < |s|
    ensures s[..i] + [s[i]] + s[i + 1..] == s
  {
  }

  lemma SameSize<T>(a: seq<T>, b: seq<T>)
    requires multiset(a) == multiset(b)
    ensures |a| == |b|
  {
    assert |multiset(a)| == |a| && |multiset(b)| == |b|;
  }

  lemma TakenOut<T>(s: seq<T>, i: nat)
    requires i < |s|
    ensures multiset(s[..i] + s[i + 1..]) == multiset(s) - multiset{s[i]}
    ensures i == 0 ==> s[..i] + s[i + 1..] == s[1..]
  {
    PutBack(s, i);
  }

  /** Further results no newer than the fifth leave the five newest as they are, wherever they stand. */
  lemma AddsNoNewer(base: seq<int>, more: seq<int>, all: seq<int>, now: int, hours: int)
    requires multiset(all) == multiset(base) + multiset(more)
    requires more != [] ==> |RecentTimes(base, now, hours)| == 5
    requires forall k :: 0 <= k < |more| ==> more[k] <= RecentTimes(base, now, hours)[4]
    ensures RecentTimes(all, now, hours) == RecentTimes(base, now, hours)
  {
    PermutedTimes(all, base + more, now - hours * HOUR, now);
    assert base + [] == base && base + more + [] == base + more;
    AddManyNoNewer(base, more, [], now, hours);
  }

  // The early stop

  /** The rows a run's jobs give a role. `names` says whether the role names a job. */
  function RunRows(names: string -> bool, jobs: seq<Job>): seq<Row>
  {
    if jobs == [] then []
    else
      var job := jobs[0];
      (if job.completed && job.completedAt.Some? && job.ran && names(job.name) then [Row(job.id, job.completedAt.value)] else [])
      + RunRows(names, jobs[1..])
  }

  /** The job ended with a result, at a known time, and the role names it. */
  predicate Counts(names: string -> bool, job: Job)
  {
    job.completed && job.completedAt.Some? && job.ran && names(job.name)
  }

  function CountJobs(names: string -> bool, jobs: seq<Job>, row: Row): nat
  {
    if jobs == [] then 0
    else (if Counts(names, jobs[0]) && row == Row(jobs[0].id, jobs[0].completedAt.value) then 1 else 0) + CountJobs(names, jobs[1..], row)
  }

  /** A row is there as often as a job that counts has its id and its time. */
  lemma {:induction false} RunRowsCount(names: string -> bool, jobs: seq<Job>, row: Row)
    ensures multiset(RunRows(names, jobs))[row] == CountJobs(names, jobs, row)
  {
    if jobs != [] { RunRowsCount(names, jobs[1..], row); }
  }

  function AllRows(names: string -> bool, runs: seq<Run>): seq<Row>
  {
    if runs == [] then [] else AllRows(names, runs[..|runs| - 1]) + RunRows(names, runs[|runs| - 1].jobs)
  }

  /** No later run can change any of these roles' five newest results. */
  predicate HistoryDone(rows: seq<seq<Row>>, run: Run, now: int)
  {
    && run.updatedAt.Some? && run.updatedAt.value < now - 2 * HOUR
    && forall r :: 0 <= r < |rows| ==>
         var recent := RecentRuns(rows[r], now, 168);
         |recent| >= 5 && run.updatedAt.value <= recent[|recent| - 1].completedAt
  }

  /** Nothing later can matter exactly when the run was last updated more than two hours ago, and each role has five results
      of the last seven days none of which is older than that. */
  lemma HistoryDoneMeans(rows: seq<seq<Row>>, run: Run, now: int)
    ensures HistoryDone(rows, run, now) <==>
      && run.updatedAt.Some? && run.updatedAt.value + 7200 < now
      && forall r :: 0 <= r < |rows| ==>
           var five := RecentTimes(Times(rows[r]), now, 168);
           |five| == 5 && five[4] >= run.updatedAt.value
  {
    forall r | 0 <= r < |rows|
      ensures Times(RecentRuns(rows[r], now, 168)) == RecentTimes(Times(rows[r]), now, 168)
    {
      RecentRunsTimes(rows[r], now, 168);
    }
  }

  function RoleRows(roles: seq<string -> bool>, runs: seq<Run>): (r: seq<seq<Row>>)
    ensures |r| == |roles| && forall i :: 0 <= i < |roles| ==> r[i] == AllRows(roles[i], runs)
  {
    seq(|roles|, i requires 0 <= i < |roles| => AllRows(roles[i], runs))
  }

  /** Why a scan read only the first n runs: it read all, the limit ended it, or no later run could matter. */
  predicate StoppedAt(roles: seq<string -> bool>, runs: seq<Run>, n: nat, now: int, floor: Option<int>)
    requires n <= |runs|
  {
    || (n == |runs| && floor.None?)
    || (n == 50 && n < |runs| && floor == Some(TimeKey(runs[n])))
    || (n < |runs| && floor.None?
        && HistoryDone(RoleRows(roles, runs[..n]), runs[n], now))
  }

  /** The scan of one workflow for the roles that share it, one list of rows a role. */
  method CompletedBotJobs(roles: seq<string -> bool>, runs: seq<Run>, now: int)
      returns (rows: seq<seq<Row>>, floor: Option<int>)
    ensures |rows| == |roles|
    ensures exists n :: && 0 <= n <= |runs| && StoppedAt(roles, runs, n, now, floor)
                        && forall r :: 0 <= r < |roles| ==> rows[r] == AllRows(roles[r], runs[..n])
  {
    rows := seq(|roles|, r => []);
    for index := 0 to |runs|
      invariant |rows| == |roles|
      invariant forall r :: 0 <= r < |roles| ==> rows[r] == AllRows(roles[r], runs[..index])
    {
      var run := runs[index];
      assert rows == RoleRows(roles, runs[..index]);
      if HistoryDone(rows, run, now) {
        return rows, None;
      }
      if index == HISTORY_RUN_LIMIT {
        return rows, Some(TimeKey(run));
      }
      assert runs[..index + 1][..index] == runs[..index];
      rows := seq(|roles|, r requires 0 <= r < |roles| && r < |rows| => rows[r] + RunRows(roles[r], run.jobs));
    }
    assert runs[..|runs|] == runs;
    floor := None;
  }

  // One role's history over every repository and workflow

  /** A workflow's scan as one of the roles sharing it sees it: `read` runs of its listing were read. */
  datatype Scan = Scan(roles: seq<string -> bool>, mine: nat, runs: seq<Run>, read: nat, floor: Option<int>, ok: bool)

  ghost predicate ValidScan(scan: Scan, now: int)
  {
    && scan.mine < |scan.roles| && scan.read <= |scan.runs|
    && StoppedAt(scan.roles, scan.runs, scan.read, now, scan.floor)
    && (forall i, j :: 0 <= i < j < |scan.runs| ==> TimeKey(scan.runs[i]) >= TimeKey(scan.runs[j]))
    && (forall i :: 0 <= i < |scan.runs| ==> InTime(scan.runs[i]))
  }

  /** A scan that stopped for want of anything newer skipped no run of the last two hours. */
  lemma RecentIsRead(scan: Scan, i: nat, now: int)
    requires ValidScan(scan, now) && scan.floor.None? && i < |scan.runs| && TimeKey(scan.runs[i]) >= now - 7200
    ensures i < scan.read
  {
    if scan.read < |scan.runs| { assert TimeKey(scan.runs[scan.read]) < now - 7200; }
  }

  /** A job completes no later than its run was last updated. */
  predicate InTime(run: Run)
  {
    forall j :: 0 <= j < |run.jobs| && run.jobs[j].completedAt.Some? ==> run.jobs[j].completedAt.value <= TimeKey(run)
  }

  function ReadRows(scan: Scan): seq<Row>
  {
    if scan.mine < |scan.roles| && scan.read <= |scan.runs| then AllRows(scan.roles[scan.mine], scan.runs[..scan.read]) else []
  }

  function EveryRow(scan: Scan): seq<Row>
  {
    if scan.mine < |scan.roles| then AllRows(scan.roles[scan.mine], scan.runs) else []
  }

  function ScanRows(scan: Scan, every: bool): seq<Row> { if every then EveryRow(scan) else ReadRows(scan) }

  function RowsOf(scans: seq<Scan>, every: bool): seq<Row>
  {
    if scans == [] then []
    else ScanRows(scans[0], every) + RowsOf(scans[1..], every)
  }

  /** The coverage the page states: every scan ended without an error, and the fifth result is no older
      than any run a scan cut short skipped. `extra` are the jobs read on open pull requests. */
  predicate HistoryComplete(scans: seq<Scan>, extra: seq<Row>, now: int)
  {
    var history := RecentRuns(RowsOf(scans, false) + extra, now, 168);
    forall i :: 0 <= i < |scans| ==>
      && scans[i].ok
      && (scans[i].floor.Some? ==> |history| >= 5 && history[|history| - 1].completedAt >= scans[i].floor.value)
  }

  /** A history is complete exactly when every scan ended well, and for each cut short there are five results of the last seven
      days none of which is older than its first skipped run. */
  lemma HistoryCompleteMeans(scans: seq<Scan>, extra: seq<Row>, now: int)
    ensures HistoryComplete(scans, extra, now) <==>
      var five := RecentTimes(Times(RowsOf(scans, false) + extra), now, 168);
      forall i :: 0 <= i < |scans| ==> scans[i].ok && (scans[i].floor.Some? ==> |five| == 5 && scans[i].floor.value <= five[4])
  {
    RecentRunsTimes(RowsOf(scans, false) + extra, now, 168);
  }

  lemma TimesConcat(a: seq<Row>, b: seq<Row>)
    ensures Times(a + b) == Times(a) + Times(b)
  {
  }

  lemma {:induction false} RowsOfConcat(a: seq<Scan>, b: seq<Scan>, every: bool)
    ensures RowsOf(a + b, every) == RowsOf(a, every) + RowsOf(b, every)
  {
    if a == [] {
      assert a + b == b;
    } else {
      RowsOfConcat(a[1..], b, every);
      assert (a + b)[0] == a[0] && (a + b)[1..] == a[1..] + b;
      Grouped(ScanRows(a[0], every), RowsOf(a[1..], every), RowsOf(b, every));
    }
  }

  lemma RowsOfOne(scan: Scan, rest: seq<Scan>, every: bool)
    ensures RowsOf([scan] + rest, every) == ScanRows(scan, every) + RowsOf(rest, every)
    ensures RowsOf([scan], every) == ScanRows(scan, every)
  {
    assert ([scan] + rest)[1..] == rest;
    assert [scan][1..] == [];
  }

  lemma {:induction false} RunRowsInTime(names: string -> bool, jobs: seq<Job>, bound: int)
    requires forall j :: 0 <= j < |jobs| && jobs[j].completedAt.Some? ==> jobs[j].completedAt.value <= bound
    ensures forall k :: 0 <= k < |RunRows(names, jobs)| ==> RunRows(names, jobs)[k].completedAt <= bound
  {
    if jobs != [] { RunRowsInTime(names, jobs[1..], bound); }
  }

  /** What a scan skipped completed no later than the first run it skipped was updated. */
  lemma {:induction false} SkippedRows(names: string -> bool, runs: seq<Run>, n: nat, bound: int) returns (skipped: seq<Row>)
    requires n <= |runs|
    requires forall i :: n <= i < |runs| ==> InTime(runs[i]) && TimeKey(runs[i]) <= bound
    ensures AllRows(names, runs) == AllRows(names, runs[..n]) + skipped
    ensures forall k :: 0 <= k < |skipped| ==> skipped[k].completedAt <= bound
    ensures n == |runs| ==> skipped == []
  {
    if n == |runs| {
      assert runs[..n] == runs;
      skipped := [];
    } else {
      var last := runs[|runs| - 1];
      var rest := SkippedRows(names, runs[..|runs| - 1], n, bound);
      assert runs[..|runs| - 1][..n] == runs[..n];
      RunRowsInTime(names, last.jobs, bound);
      skipped := rest + RunRows(names, last.jobs);
    }
  }

  /** A scan that skipped runs belongs to a role with five results, none of them older than what it skipped. */
  lemma SkippedIsNoNewer(scans: seq<Scan>, i: nat, extra: seq<Row>, now: int)
    requires i < |scans| && HistoryComplete(scans, extra, now) && forall k :: 0 <= k < |scans| ==> ValidScan(scans[k], now)
    requires scans[i].read < |scans[i].runs|
    ensures var five := RecentTimes(Times(RowsOf(scans, false) + extra), now, 168);
      |five| == 5 && TimeKey(scans[i].runs[scans[i].read]) <= five[4]
  {
    var scan := scans[i];
    var all := RowsOf(scans, false) + extra;
    RecentRunsTimes(all, now, 168);
    if scan.floor.None? {
      var rows := RoleRows(scan.roles, scan.runs[..scan.read]);
      assert HistoryDone(rows, scan.runs[scan.read], now) && rows[scan.mine] == ReadRows(scan);
      RecentRunsTimes(ReadRows(scan), now, 168);
      var before, after := RowsOf(scans[..i], false), RowsOf(scans[i + 1..], false) + extra;
      SplitAround(scans, i, extra);
      TimesConcat(before + ReadRows(scan), after);
      TimesConcat(before, ReadRows(scan));
      FifthOfPart(Times(before), Times(ReadRows(scan)), Times(after), now, 168);
    }
  }

  lemma SplitAround(scans: seq<Scan>, i: nat, extra: seq<Row>)
    requires i < |scans|
    ensures RowsOf(scans, false) + extra ==
            RowsOf(scans[..i], false) + ReadRows(scans[i]) + (RowsOf(scans[i + 1..], false) + extra)
  {
    SplitAt(scans, i);
    RowsOfConcat(scans[..i], [scans[i]] + scans[i + 1..], false);
    RowsOfOne(scans[i], scans[i + 1..], false);
    Regroup(RowsOf(scans[..i], false), ReadRows(scans[i]), RowsOf(scans[i + 1..], false), extra);
  }

  /** Every run of the first i scans, and what the others read. */
  function Mixed(scans: seq<Scan>, i: nat, extra: seq<Row>): seq<Row>
    requires i <= |scans|
  {
    RowsOf(scans[..i], true) + RowsOf(scans[i..], false) + extra
  }

  /** A scan that skipped runs skipped none newer than the fifth of these five. */
  ghost predicate Bounded(scan: Scan, five: seq<int>)
  {
    && scan.mine < |scan.roles| && scan.read <= |scan.runs|
    && (scan.read < |scan.runs| ==> |five| == 5)
    && forall i :: scan.read <= i < |scan.runs| ==> InTime(scan.runs[i]) && TimeKey(scan.runs[i]) <= five[4]
  }

  lemma ValidIsBounded(scan: Scan, five: seq<int>, now: int)
    requires ValidScan(scan, now)
    requires scan.read < |scan.runs| ==> |five| == 5 && TimeKey(scan.runs[scan.read]) <= five[4]
    ensures Bounded(scan, five)
  {
  }

  ghost predicate AllBounded(scans: seq<Scan>, five: seq<int>)
  {
    forall k :: 0 <= k < |scans| ==> Bounded(scans[k], five)
  }

  lemma CompleteIsBounded(scans: seq<Scan>, extra: seq<Row>, now: int) returns (five: seq<int>)
    requires HistoryComplete(scans, extra, now) && forall k :: 0 <= k < |scans| ==> ValidScan(scans[k], now)
    ensures five == RecentTimes(Times(RowsOf(scans, false) + extra), now, 168) && AllBounded(scans, five)
  {
    five := RecentTimes(Times(RowsOf(scans, false) + extra), now, 168);
    forall k | 0 <= k < |scans|
      ensures Bounded(scans[k], five)
    {
      if scans[k].read < |scans[k].runs| { SkippedIsNoNewer(scans, k, extra, now); }
      ValidIsBounded(scans[k], five, now);
    }
  }

  predicate NoneNewer(rows: seq<Row>, five: seq<int>)
  {
    (rows != [] ==> |five| == 5) && forall k :: 0 <= k < |rows| ==> rows[k].completedAt <= five[4]
  }

  lemma SkippedOfOne(scan: Scan, five: seq<int>) returns (skipped: seq<Row>)
    requires Bounded(scan, five)
    ensures EveryRow(scan) == ReadRows(scan) + skipped && NoneNewer(skipped, five)
  {
    skipped := SkippedRows(scan.roles[scan.mine], scan.runs, scan.read, if scan.read < |scan.runs| then five[4] else 0);
  }

  /** All rows are what was read and these. */
  predicate Completes(every: seq<Row>, read: seq<Row>, skipped: seq<Row>)
  {
    && multiset(Times(every)) == multiset(Times(read)) + multiset(Times(skipped))
    && (forall row :: row in every ==> row in read || row in skipped)
    && (forall row :: row in read ==> row in every)
  }

  lemma CompletesMore(every: seq<Row>, read: seq<Row>, skipped: seq<Row>, here: seq<Row>, more: seq<Row>)
    requires Completes(every, read, skipped)
    ensures Completes(every + (here + more), read + here, skipped + more)
  {
    TimesConcat(every, here + more);
    TimesConcat(here, more);
    TimesConcat(read, here);
    TimesConcat(skipped, more);
  }

  lemma NoneNewerJoin(a: seq<Row>, b: seq<Row>, five: seq<int>)
    requires NoneNewer(a, five) && NoneNewer(b, five)
    ensures NoneNewer(a + b, five)
  {
  }

  /** What scans skipped is no newer than the fifth. */
  lemma {:induction false} SkippedOf(scans: seq<Scan>, five: seq<int>) returns (skipped: seq<Row>)
    requires AllBounded(scans, five)
    ensures Completes(RowsOf(scans, true), RowsOf(scans, false), skipped) && NoneNewer(skipped, five)
  {
    if scans == [] {
      skipped := [];
    } else {
      var rest, last := scans[..|scans| - 1], scans[|scans| - 1];
      var before := SkippedOf(rest, five);
      var here := SkippedOfOne(last, five);
      skipped := before + here;
      LastApart(scans);
      RowsOfLast(rest, last, true);
      RowsOfLast(rest, last, false);
      CompletesMore(RowsOf(rest, true), RowsOf(rest, false), before, ReadRows(last), here);
      NoneNewerJoin(before, here, five);
    }
  }

  lemma RowsOfLast(scans: seq<Scan>, last: Scan, every: bool)
    ensures RowsOf(scans + [last], every) == RowsOf(scans, every) + ScanRows(last, every)
  {
    RowsOfConcat(scans, [last], every);
    RowsOfOne(last, [], every);
  }

  /** The first i scans may as well have read every run. */
  lemma ReadingOnChangesNothing(scans: seq<Scan>, i: nat, extra: seq<Row>, now: int)
    requires i <= |scans| && HistoryComplete(scans, extra, now) && forall k :: 0 <= k < |scans| ==> ValidScan(scans[k], now)
    ensures RecentTimes(Times(Mixed(scans, i, extra)), now, 168) == RecentTimes(Times(RowsOf(scans, false) + extra), now, 168)
  {
    var five := CompleteIsBounded(scans, extra, now);
    BoundedAddsNothing(scans, i, extra, five, now);
  }

  lemma BoundedAddsNothing(scans: seq<Scan>, i: nat, extra: seq<Row>, five: seq<int>, now: int)
    requires i <= |scans| && AllBounded(scans, five) && five == RecentTimes(Times(RowsOf(scans, false) + extra), now, 168)
    ensures RecentTimes(Times(Mixed(scans, i, extra)), now, 168) == five
  {
    var skipped := SkippedOf(scans[..i], five);
    MixedTimes(scans, i, extra, skipped);
    AddsNoNewer(Times(RowsOf(scans, false) + extra), Times(skipped), Times(Mixed(scans, i, extra)), now, 168);
  }

  lemma MixedTimes(scans: seq<Scan>, i: nat, extra: seq<Row>, skipped: seq<Row>)
    requires i <= |scans|
    requires Completes(RowsOf(scans[..i], true), RowsOf(scans[..i], false), skipped)
    ensures multiset(Times(Mixed(scans, i, extra))) == multiset(Times(RowsOf(scans, false) + extra)) + multiset(Times(skipped))
  {
    Halves(scans, i);
    RowsOfConcat(scans[..i], scans[i..], false);
    TimesOfThree(RowsOf(scans[..i], true), RowsOf(scans[i..], false), extra);
    TimesOfThree(RowsOf(scans[..i], false), RowsOf(scans[i..], false), extra);
  }

  lemma TimesOfThree(a: seq<Row>, b: seq<Row>, c: seq<Row>)
    ensures multiset(Times(a + b + c)) == multiset(Times(a)) + multiset(Times(b)) + multiset(Times(c))
  {
    TimesConcat(a + b, c);
    TimesConcat(a, b);
  }

  lemma TimesOneMore(row: Row, s: seq<Row>)
    ensures multiset(Times([row] + s)) == multiset{row.completedAt} + multiset(Times(s))
  {
    TimesHead(row, s);
  }

  // The jobs read on open pull requests

  function Ids(rows: seq<Row>): (r: set<int>)
    ensures forall id :: id in r <==> exists k :: 0 <= k < |rows| && rows[k].jobId == id
  {
    set row | row in rows :: row.jobId
  }

  /** The jobs a role takes from the open pull requests, each once and none that was seen. */
  function Taken(pulls: seq<Row>, seen: set<int>): seq<Row>
  {
    if pulls == [] then []
    else if pulls[0].jobId in seen then Taken(pulls[1..], seen)
    else [pulls[0]] + Taken(pulls[1..], seen + {pulls[0].jobId})
  }

  /** No two of these are one job. */
  predicate DistinctJobs(rows: seq<Row>)
  {
    forall i, j :: 0 <= i < j < |rows| ==> rows[i].jobId != rows[j].jobId
  }

  lemma TimesShift(row: Row, all: seq<Row>, kept: seq<Row>, dropped: seq<Row>)
    requires multiset(Times(all)) == multiset(Times(kept)) + multiset(Times(dropped))
    ensures multiset(Times([row] + all)) == multiset(Times(kept)) + multiset(Times([row] + dropped))
    ensures multiset(Times([row] + all)) == multiset(Times([row] + kept)) + multiset(Times(dropped))
  {
    TimesOneMore(row, all);
    TimesOneMore(row, kept);
    TimesOneMore(row, dropped);
  }

  lemma OneMoreJob(row: Row, rows: seq<Row>)
    requires DistinctJobs(rows) && forall other :: other in rows ==> other.jobId != row.jobId
    ensures DistinctJobs([row] + rows)
  {
    assert forall j :: 0 <= j < |rows| ==> rows[j] in rows;
  }

  /** What is taken no more when more was seen. */
  lemma {:induction false} TakenLess(pulls: seq<Row>, seen: set<int>, more: set<int>) returns (dropped: seq<Row>)
    requires seen <= more
    ensures multiset(Times(Taken(pulls, seen))) == multiset(Times(Taken(pulls, more))) + multiset(Times(dropped))
    ensures DistinctJobs(dropped)
    ensures forall row :: row in dropped ==> row in pulls && row.jobId in more && row.jobId !in seen
  {
    if pulls == [] {
      dropped := [];
    } else {
      var pull, id := pulls[0], pulls[0].jobId;
      if id in seen {
        dropped := TakenLess(pulls[1..], seen, more);
      } else if id in more {
        var rest := TakenLess(pulls[1..], seen + {id}, more);
        dropped := [pull] + rest;
        TimesShift(pull, Taken(pulls[1..], seen + {id}), Taken(pulls[1..], more), rest);
        OneMoreJob(pull, rest);
      } else {
        dropped := TakenLess(pulls[1..], seen + {id}, more + {id});
        TimesShift(pull, Taken(pulls[1..], seen + {id}), Taken(pulls[1..], more + {id}), dropped);
      }
    }
  }

  /** Rows that each stand once more among others can be taken out of them. */
  lemma {:induction false} WithoutTwins(rows: seq<Row>, twins: seq<Row>) returns (left: seq<int>)
    requires DistinctJobs(twins) && forall twin :: twin in twins ==> twin in rows
    ensures multiset(Times(rows)) == multiset(Times(twins)) + multiset(left)
    decreases |twins|
  {
    if twins == [] {
      left := Times(rows);
    } else {
      var i := FirstTwin(rows, twins);
      left := WithoutTwins(rows[..i] + rows[i + 1..], twins[1..]);
      TimesWithTwin(rows, i, twins, left);
    }
  }

  lemma TimesWithTwin(rows: seq<Row>, i: nat, twins: seq<Row>, left: seq<int>)
    requires i < |rows| && twins != [] && rows[i] == twins[0]
    requires multiset(Times(rows[..i] + rows[i + 1..])) == multiset(Times(twins[1..])) + multiset(left)
    ensures multiset(Times(rows)) == multiset(Times(twins)) + multiset(left)
  {
    TimesWithout(rows, i);
    FirstApart(twins);
    TimesOneMore(twins[0], twins[1..]);
  }

  lemma FirstTwin(rows: seq<Row>, twins: seq<Row>) returns (i: nat)
    requires twins != [] && DistinctJobs(twins) && forall twin :: twin in twins ==> twin in rows
    ensures i < |rows| && rows[i] == twins[0]
    ensures DistinctJobs(twins[1..]) && forall twin :: twin in twins[1..] ==> twin in rows[..i] + rows[i + 1..]
  {
    assert twins[0] in twins;
    i :| 0 <= i < |rows| && rows[i] == twins[0];
    forall twin | twin in twins[1..]
      ensures twin in rows[..i] + rows[i + 1..]
    {
      StillThere(rows, i, twins, twin);
    }
  }

  lemma StillThere(rows: seq<Row>, i: nat, twins: seq<Row>, twin: Row)
    requires i < |rows| && twins != [] && rows[i] == twins[0] && DistinctJobs(twins) && twin in twins[1..] && twin in rows
    ensures twin in rows[..i] + rows[i + 1..]
  {
    var k :| 0 <= k < |rows| && rows[k] == twin;
    var j :| 0 <= j < |twins[1..]| && twins[1..][j] == twin;
    assert twins[j + 1] == twin && twin.jobId != rows[i].jobId;
    if k < i { assert (rows[..i] + rows[i + 1..])[k] == twin; } else { assert (rows[..i] + rows[i + 1..])[k - 1] == twin; }
  }

  lemma TimesWithout(rows: seq<Row>, i: nat)
    requires i < |rows|
    ensures multiset(Times(rows)) == multiset{rows[i].completedAt} + multiset(Times(rows[..i] + rows[i + 1..]))
  {
    PutBack(rows, i);
    TimesOfThree(rows[..i], [rows[i]], rows[i + 1..]);
    TimesConcat(rows[..i], rows[i + 1..]);
    assert Times([rows[i]]) == [rows[i].completedAt];
  }

  /** A role's rows once its scans have ended: what they read or hold, and what the open pull requests add.
      `others` are the jobs seen in other rows. */
  function RoleHistory(scans: seq<Scan>, every: bool, pulls: seq<Row>, others: set<int>): seq<Row>
  {
    RowsOf(scans, every) + Taken(pulls, Ids(RowsOf(scans, every)) + others)
  }

  /** Open pull requests and scans read the same jobs: one job has one completion time, and a job that a scan shows to
      another role and a pull request to this one is shown to this one by that scan. */
  ghost predicate OneJobOnce(scans: seq<Scan>, pulls: seq<Row>, others: set<int>, othersAll: set<int>)
  {
    && others <= othersAll
    && (forall row, pull :: row in RowsOf(scans, true) && pull in pulls && row.jobId == pull.jobId ==>
          row.completedAt == pull.completedAt)
    && (forall pull :: pull in pulls && pull.jobId in othersAll ==> pull.jobId in others + Ids(RowsOf(scans, true)))
  }

  /** Whatever the full scans would have shown of the jobs taken from open pull requests, the five newest stay. */
  lemma TakenChangesNothing(scans: seq<Scan>, pulls: seq<Row>, others: set<int>, othersAll: set<int>, now: int)
    requires forall k :: 0 <= k < |scans| ==> ValidScan(scans[k], now)
    requires HistoryComplete(scans, Taken(pulls, Ids(RowsOf(scans, false)) + others), now)
    requires OneJobOnce(scans, pulls, others, othersAll)
    ensures RecentTimes(Times(RoleHistory(scans, true, pulls, othersAll)), now, 168) ==
            RecentTimes(Times(RoleHistory(scans, false, pulls, others)), now, 168)
  {
    var five := CompleteIsBounded(scans, Taken(pulls, Ids(RowsOf(scans, false)) + others), now);
    BoundedTakesNothing(scans, pulls, others, othersAll, five, now);
  }

  lemma BoundedTakesNothing(scans: seq<Scan>, pulls: seq<Row>, others: set<int>, othersAll: set<int>, five: seq<int>, now: int)
    requires AllBounded(scans, five) && OneJobOnce(scans, pulls, others, othersAll)
    requires five == RecentTimes(Times(RoleHistory(scans, false, pulls, others)), now, 168)
    ensures RecentTimes(Times(RoleHistory(scans, true, pulls, othersAll)), now, 168) == five
  {
    var skipped := SkippedOf(scans, five);
    var left := Exchanged(RowsOf(scans, false), RowsOf(scans, true), skipped, pulls, others, othersAll);
    NoneNewerLeft(skipped, left, five);
    AddsNoNewer(Times(RoleHistory(scans, false, pulls, others)), left, Times(RoleHistory(scans, true, pulls, othersAll)), now, 168);
  }

  lemma NoneNewerLeft(skipped: seq<Row>, left: seq<int>, five: seq<int>)
    requires NoneNewer(skipped, five) && multiset(left) <= multiset(Times(skipped))
    ensures forall k :: 0 <= k < |left| ==> |five| == 5 && left[k] <= five[4]
    ensures left != [] ==> |five| == 5
  {
    forall k | 0 <= k < |left|
      ensures |five| == 5 && left[k] <= five[4]
    {
      assert left[k] in multiset(left);
      assert left[k] in multiset(Times(skipped));
      var j :| 0 <= j < |skipped| && Times(skipped)[j] == left[k];
    }
  }

  /** What the full scans show besides: what was skipped, but for the jobs that then are not taken. */
  lemma Exchanged(read: seq<Row>, every: seq<Row>, skipped: seq<Row>, pulls: seq<Row>, others: set<int>, othersAll: set<int>)
      returns (left: seq<int>)
    requires Completes(every, read, skipped) && others <= othersAll
    requires forall row, pull :: row in every && pull in pulls && row.jobId == pull.jobId ==> row.completedAt == pull.completedAt
    requires forall pull :: pull in pulls && pull.jobId in othersAll ==> pull.jobId in others + Ids(every)
    ensures multiset(Times(every + Taken(pulls, Ids(every) + othersAll))) ==
            multiset(Times(read + Taken(pulls, Ids(read) + others))) + multiset(left)
    ensures multiset(left) <= multiset(Times(skipped))
  {
    MoreIds(read, every);
    var dropped := TakenLess(pulls, Ids(read) + others, Ids(every) + othersAll);
    forall row | row in dropped
      ensures row in skipped
    {
      DroppedIsSkipped(read, every, skipped, pulls, row);
    }
    left := WithoutTwins(skipped, dropped);
    TimesExchanged(read, every, Taken(pulls, Ids(read) + others), Taken(pulls, Ids(every) + othersAll), skipped, dropped, left);
  }

  lemma MoreIds(some: seq<Row>, all: seq<Row>)
    requires forall row :: row in some ==> row in all
    ensures Ids(some) <= Ids(all)
  {
    forall id | id in Ids(some)
      ensures id in Ids(all)
    {
      var k :| 0 <= k < |some| && some[k].jobId == id;
      assert some[k] in some;
    }
  }

  lemma TimesExchanged(read: seq<Row>, every: seq<Row>, extra: seq<Row>, fewer: seq<Row>, skipped: seq<Row>, dropped: seq<Row>,
                       left: seq<int>)
    requires multiset(Times(every)) == multiset(Times(read)) + multiset(Times(skipped))
    requires multiset(Times(extra)) == multiset(Times(fewer)) + multiset(Times(dropped))
    requires multiset(Times(skipped)) == multiset(Times(dropped)) + multiset(left)
    ensures multiset(Times(every + fewer)) == multiset(Times(read + extra)) + multiset(left)
  {
    TimesConcat(read, extra);
    TimesConcat(every, fewer);
  }

  lemma DroppedIsSkipped(read: seq<Row>, every: seq<Row>, skipped: seq<Row>, pulls: seq<Row>, pull: Row)
    requires pull in pulls && pull.jobId in Ids(every) && pull.jobId !in Ids(read)
    requires forall row :: row in every && row.jobId == pull.jobId ==> row.completedAt == pull.completedAt
    requires forall row :: row in every ==> row in read || row in skipped
    ensures pull in skipped
  {
    var k :| 0 <= k < |every| && every[k].jobId == pull.jobId;
    assert every[k] in every && every[k] == pull;
    assert forall i :: 0 <= i < |read| ==> read[i].jobId in Ids(read);
  }

  /** A history stated complete shows the completion times a scan of every run would show, over seven days
      and over two hours, and the two-hour list is the part of the seven-day list inside two hours. */
  lemma CompleteHistoryIsWhole(scans: seq<Scan>, pulls: seq<Row>, others: set<int>, othersAll: set<int>, now: int)
    requires forall k :: 0 <= k < |scans| ==> ValidScan(scans[k], now)
    requires HistoryComplete(scans, Taken(pulls, Ids(RowsOf(scans, false)) + others), now)
    requires OneJobOnce(scans, pulls, others, othersAll)
    ensures var read, every := RoleHistory(scans, false, pulls, others), RoleHistory(scans, true, pulls, othersAll);
      && Times(RecentRuns(read, now, 168)) == Times(RecentRuns(every, now, 168))
      && Times(RecentRuns(read, now, 2)) == Times(RecentRuns(every, now, 2))
      && Times(RecentRuns(read, now, 2)) == AtLeast(Times(RecentRuns(read, now, 168)), now - 7200)
  {
    var read, every := RoleHistory(scans, false, pulls, others), RoleHistory(scans, true, pulls, othersAll);
    TakenChangesNothing(scans, pulls, others, othersAll, now);
    RecentRunsTimes(read, now, 168);
    RecentRunsTimes(every, now, 168);
    RecentRunsTimes(read, now, 2);
    RecentRunsTimes(every, now, 2);
    TwoHoursOfSevenDays(Times(read), now);
    TwoHoursOfSevenDays(Times(every), now);
  }
}
