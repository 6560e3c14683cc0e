/** Pull requests as a reading holds them, and when one may be shown as merge-ready
    (dashboard/head_state.py). A check reading is green only until a beat, a carried row, a stored
    detail or its own age takes the green away. */
module HeadState {
  import opened Common

  const FRESH_SECONDS := 180

  /** A head the cheap pass found: its repository, number, commit and overall check state. */
  datatype Head = Head(repository: string, number: int, sha: string, rollup: Option<string>)

  /** `mergeReady` is None when the row does not carry the field at all. */
  datatype Pull = Pull(
    number: int, headSha: Option<string>, mergeReady: Option<bool>, stale: bool,
    checksAt: Option<int>, checksAge: Option<int>, rollup: Option<string>, rollupKnown: bool,
    previousPush: Option<bool>)

  /** `restored` is the mark a restart leaves on a row it handed over. */
  datatype Row = Row(
    repository: string, restored: bool, stale: bool, unavailable: bool,
    sampledAt: Option<int>, pulls: seq<Pull>)

  datatype Reading = Reading(
    restored: bool, stale: bool, sampledAt: Option<int>, headsAt: Option<int>, rows: seq<Row>)

  predicate Green(pull: Pull) { pull.mergeReady == Some(true) }

  predicate NoGreen(row: Row) { forall p :: p in row.pulls ==> !Green(p) }

  /** Repository names are compared without case. They are ASCII. */
  function Fold(name: string): string
  {
    seq(|name|, i requires 0 <= i < |name| => FoldChar(name[i]))
  }

  function FoldChar(c: char): char { if 'A' <= c <= 'Z' then c - 'A' + 'a' else c }

  /** Two names fold to the same exactly when they differ at most in the case of their ASCII letters. */
  lemma FoldIgnoresCase(a: string, b: string)
    ensures Fold(a) == Fold(b) <==>
      |a| == |b| && forall i :: 0 <= i < |a| ==> a[i] == b[i] || OneLetter(a[i], b[i]) || OneLetter(b[i], a[i])
  {
    assert |a| == |Fold(a)| && |b| == |Fold(b)|;
    forall i | 0 <= i < |a| == |b|
      ensures Fold(a)[i] == Fold(b)[i] <==> a[i] == b[i] || OneLetter(a[i], b[i]) || OneLetter(b[i], a[i])
    {
      SameLetter(a[i], b[i]);
    }
  }

  /** The same letter, upper case and lower. */
  predicate OneLetter(upper: char, lower: char) { 'A' <= upper <= 'Z' && lower as int == upper as int + 32 }

  lemma SameLetter(a: char, b: char)
    ensures FoldChar(a) == FoldChar(b) <==> a == b || OneLetter(a, b) || OneLetter(b, a)
  {
    assert FoldChar(a) as int == a as int + if 'A' <= a <= 'Z' then 32 else 0;
    assert FoldChar(b) as int == b as int + if 'A' <= b <= 'Z' then 32 else 0;
  }

  function FindHead(heads: seq<Head>, repository: string, number: int): (r: Option<Head>)
    ensures r.Some? ==> r.value in heads && Fold(r.value.repository) == Fold(repository) && r.value.number == number
    ensures r.Some? <==> CountHeads(heads, repository, number) > 0
  {
    if heads == [] then None
    else if Fold(heads[0].repository) == Fold(repository) && heads[0].number == number then Some(heads[0])
    else FindHead(heads[1..], repository, number)
  }

  /** How many of the heads are of this pull request. A list read from the network names each once. */
  function CountHeads(heads: seq<Head>, repository: string, number: int): nat
  {
    if heads == [] then 0
    else (if Fold(heads[0].repository) == Fold(repository) && heads[0].number == number then 1 else 0)
         + CountHeads(heads[1..], repository, number)
  }

  // What detail was built from, and what a newer head says

  predicate SameHead(stored: Pull, head: Option<Head>)
  {
    head.Some? && stored.rollupKnown && stored.headSha == Some(head.value.sha) && stored.rollup == head.value.rollup
  }

  predicate HeadDiffers(pull: Pull, head: Option<Head>)
  {
    && head.Some?
    && ((pull.headSha.Some? && pull.headSha.value != head.value.sha)
        || (pull.rollupKnown && pull.rollup != head.value.rollup))
  }

  /** What a pass just detailed is kept by the head it was built from and by no other, and a head whose
      checks did not succeed leaves nothing green. */
  function RememberPull(pull: Pull, head: Option<Head>, at: int): (r: Pull)
    ensures r.checksAt == Some(at) && !r.stale && r.number == pull.number && r.headSha == pull.headSha && r.checksAge.None?
    ensures Green(r) <==> (Green(pull)
      && (head.Some? && pull.headSha == Some(head.value.sha) ==> head.value.rollup in {None, Some("SUCCESS")}))
    ensures r.mergeReady == if head.Some? && pull.headSha == Some(head.value.sha) && head.value.rollup !in {None, Some("SUCCESS")}
                            then Some(false) else pull.mergeReady
    ensures head.Some? && pull.headSha == Some(head.value.sha) ==>
      SameHead(r, head) && forall later :: HeadDiffers(r, Some(later)) <==> !SameHead(r, Some(later))
  {
    var known := head.Some? && pull.headSha == Some(head.value.sha);
    var rollup := if known then head.value.rollup else None;
    var refused := known && rollup != None && rollup != Some("SUCCESS");
    pull.(mergeReady := if refused then Some(false) else pull.mergeReady,
          checksAt := Some(at), stale := false, checksAge := None, rollup := rollup, rollupKnown := known)
  }

  function Withheld(pull: Pull, now: int): Pull
  {
    pull.(mergeReady := Some(false), stale := true,
          checksAge := if pull.checksAt.Some? then Some(Max(0, now - pull.checksAt.value)) else pull.checksAge)
  }

  function Behind(pull: Pull, head: Head, now: int): Pull
  {
    Withheld(pull, now).(previousPush := Some(pull.headSha.Some? && pull.headSha.value != head.sha))
  }

  /** The commit this row was detailed at is not the one the head names. */
  predicate Moved(pull: Pull, head: Option<Head>)
  {
    head.Some? && pull.headSha.Some? && pull.headSha.value != head.value.sha
  }

  /** The commit is the same, and its overall check state is not. */
  predicate Rechecked(pull: Pull, head: Option<Head>)
  {
    head.Some? && !Moved(pull, head) && pull.rollupKnown && pull.rollup != head.value.rollup
  }

  /** Old detail shown again: the same pull request, commit and check time, no longer current, as old as its checks are, and
      saying whether a newer push or a newer check state waits. */
  predicate Aged(pull: Pull, r: Pull, head: Option<Head>, now: int)
  {
    && r.number == pull.number && r.headSha == pull.headSha && r.checksAt == pull.checksAt
    && r.stale && r.mergeReady == Some(false)
    && r.checksAge == (if pull.checksAt.Some? then Some(if now < pull.checksAt.value then 0 else now - pull.checksAt.value) else pull.checksAge)
    && r.previousPush == (if Moved(pull, head) then Some(true) else if Rechecked(pull, head) then Some(false) else pull.previousPush)
  }

  function ShowStored(stored: Pull, head: Option<Head>, now: int): (r: Pull)
    ensures !Green(r) && Aged(stored, r, head, now)
  {
    if HeadDiffers(stored, head) then Behind(stored, head.value, now) else Withheld(stored, now)
  }

  // A beat

  /** A row that was never detailed, or that says nothing a beat could contradict, stays as it is. Any other is aged. */
  predicate Reconciled(pull: Pull, r: Pull, head: Option<Head>, now: int)
  {
    var bare := pull.mergeReady.None? && pull.checksAt.None?;
    var silent := pull.mergeReady != Some(true) && pull.checksAt.None? && !pull.stale && !Moved(pull, head) && !Rechecked(pull, head);
    if bare || silent then r == pull else Aged(pull, r, head, now)
  }

  function ReconcilePull(pull: Pull, head: Option<Head>, now: int): (r: Pull)
    ensures !Green(r) && Reconciled(pull, r, head, now)
  {
    if pull.mergeReady == None && pull.checksAt == None then pull
    else if HeadDiffers(pull, head) then Behind(pull, head.value, now)
    else if Green(pull) || pull.checksAt.Some? || pull.stale then Withheld(pull, now)
    else pull
  }

  /** The row's pull requests still open, each reconciled with its head. */
  function OpenPulls(pulls: seq<Pull>, heads: seq<Head>, repository: string, now: int): (r: seq<Pull>)
    ensures forall p :: p in r ==> !Green(p)
  {
    if pulls == [] then []
    else
      var head := FindHead(heads, repository, pulls[0].number);
      (if head.Some? then [ReconcilePull(pulls[0], head, now)] else [])
      + OpenPulls(pulls[1..], heads, repository, now)
  }

  function ReconciledPulls(pulls: seq<Pull>, heads: seq<Head>, repository: string, now: int): (r: seq<Pull>)
    ensures forall p :: p in r ==> !Green(p)
  {
    seq(|pulls|, i requires 0 <= i < |pulls| => ReconcilePull(pulls[i], FindHead(heads, repository, pulls[i].number), now))
  }

  function UnseenPull(head: Head): Pull
  {
    Pull(head.number, Some(head.sha), Some(false), false, None, None, None, false, None)
  }

  predicate Listed(rows: seq<Row>, head: Head)
  {
    exists row :: row in rows && Fold(row.repository) == Fold(head.repository)
      && exists p :: p in row.pulls && p.number == head.number
  }

  /** A pull request no row holds joins its repository's row, or a new stale row. */
  function AddUnseenTo(rows: seq<Row>, head: Head): seq<Row>
  {
    if rows == [] then [Row(head.repository, false, true, false, None, [UnseenPull(head)])]
    else if Fold(rows[0].repository) == Fold(head.repository) then
      [rows[0].(pulls := rows[0].pulls + [UnseenPull(head)])] + rows[1..]
    else [rows[0]] + AddUnseenTo(rows[1..], head)
  }

  function AddUnseen(rows: seq<Row>, unseen: seq<Head>): seq<Row>
    decreases |unseen|
  {
    if unseen == [] then rows else AddUnseen(AddUnseenTo(rows, unseen[0]), unseen[1..])
  }

  function OpenRows(rows: seq<Row>, heads: seq<Head>, now: int): (r: seq<Row>)
  {
    seq(|rows|, i requires 0 <= i < |rows| => rows[i].(pulls := OpenPulls(rows[i].pulls, heads, rows[i].repository, now)))
  }

  function Unseen(rows: seq<Row>, heads: seq<Head>): (r: seq<Head>)
  {
    if heads == [] then []
    else (if Listed(rows, heads[0]) then [] else [heads[0]]) + Unseen(rows, heads[1..])
  }

  /** A complete head list drops what is closed and adds what is new. A cut one only reconciles. */
  function BeatRows(rows: seq<Row>, heads: seq<Head>, now: int, complete: bool): seq<Row>
  {
    if complete then AddUnseen(OpenRows(rows, heads, now), Unseen(rows, heads))
    else
      seq(|rows|, i requires 0 <= i < |rows| =>
        rows[i].(pulls := ReconciledPulls(rows[i].pulls, heads, rows[i].repository, now)))
  }

  function ApplyHeadReading(github: Reading, heads: seq<Head>, now: int, complete: bool): Reading
  {
    github.(rows := BeatRows(github.rows, heads, now, complete), headsAt := Some(now))
  }

  lemma {:induction false} AddUnseenToNeverGreen(rows: seq<Row>, head: Head, marked: bool)
    requires forall row :: row in rows ==> NoGreen(row) && (row.restored ==> marked)
    ensures forall row :: row in AddUnseenTo(rows, head) ==> NoGreen(row) && (row.restored ==> marked)
  {
    if rows != [] && Fold(rows[0].repository) != Fold(head.repository) {
      AddUnseenToNeverGreen(rows[1..], head, marked);
    }
  }

  lemma {:induction false} AddUnseenNeverGreen(rows: seq<Row>, unseen: seq<Head>, marked: bool)
    requires forall row :: row in rows ==> NoGreen(row) && (row.restored ==> marked)
    ensures forall row :: row in AddUnseen(rows, unseen) ==> NoGreen(row) && (row.restored ==> marked)
    decreases |unseen|
  {
    if unseen != [] {
      AddUnseenToNeverGreen(rows, unseen[0], marked);
      AddUnseenNeverGreen(AddUnseenTo(rows, unseen[0]), unseen[1..], marked);
    }
  }

  /** Nothing a beat returns is green, and it marks no row as handed over by a restart. */
  lemma BeatNeverGreen(github: Reading, heads: seq<Head>, now: int, complete: bool)
    ensures var beat := ApplyHeadReading(github, heads, now, complete);
      && (forall row :: row in beat.rows ==> NoGreen(row))
      && beat.restored == github.restored
      && ((forall row :: row in github.rows ==> !row.restored) ==> forall row :: row in beat.rows ==> !row.restored)
  {
    var marked := exists row :: row in github.rows && row.restored;
    if complete {
      var open := OpenRows(github.rows, heads, now);
      forall row | row in open ensures NoGreen(row) && (row.restored ==> marked) {
        var i :| 0 <= i < |open| && open[i] == row;
        assert github.rows[i] in github.rows;
      }
      AddUnseenNeverGreen(open, Unseen(github.rows, heads), marked);
    }
  }

  // What a beat makes of the rows

  /** How often rows hold a number. */
  function Count(pulls: seq<Pull>, number: int): nat
  {
    if pulls == [] then 0 else (if pulls[0].number == number then 1 else 0) + Count(pulls[1..], number)
  }

  /** How often the rows of a repository do. */
  function CountRows(rows: seq<Row>, repository: string, number: int): nat
  {
    if rows == [] then 0
    else (if Fold(rows[0].repository) == Fold(repository) then Count(rows[0].pulls, number) else 0)
         + CountRows(rows[1..], repository, number)
  }

  lemma {:induction false} OpenPullsCount(pulls: seq<Pull>, heads: seq<Head>, repository: string, now: int, number: int)
    ensures Count(OpenPulls(pulls, heads, repository, now), number)
      == if CountHeads(heads, repository, number) > 0 then Count(pulls, number) else 0
  {
    if pulls != [] {
      OpenPullsCount(pulls[1..], heads, repository, now, number);
      var head, rest := FindHead(heads, repository, pulls[0].number), OpenPulls(pulls[1..], heads, repository, now);
      if head.Some? {
        assert ([ReconcilePull(pulls[0], head, now)] + rest)[1..] == rest;
      } else {
        assert [] + rest == rest;
      }
    }
  }

  lemma {:induction false} SameFoldCounts(heads: seq<Head>, a: string, b: string, number: int)
    requires Fold(a) == Fold(b)
    ensures CountHeads(heads, a, number) == CountHeads(heads, b, number)
  {
    if heads != [] { SameFoldCounts(heads[1..], a, b, number); }
  }

  lemma {:induction false} OpenRowsCount(rows: seq<Row>, heads: seq<Head>, now: int, repository: string, number: int)
    ensures CountRows(OpenRows(rows, heads, now), repository, number)
      == if CountHeads(heads, repository, number) > 0 then CountRows(rows, repository, number) else 0
  {
    if rows != [] {
      OpenRowsCount(rows[1..], heads, now, repository, number);
      assert OpenRows(rows, heads, now)[1..] == OpenRows(rows[1..], heads, now);
      OpenPullsCount(rows[0].pulls, heads, rows[0].repository, now, number);
      if Fold(rows[0].repository) == Fold(repository) { SameFoldCounts(heads, rows[0].repository, repository, number); }
    }
  }

  lemma {:induction false} CountOneMore(pulls: seq<Pull>, pull: Pull, number: int)
    ensures Count(pulls + [pull], number) == Count(pulls, number) + if pull.number == number then 1 else 0
  {
    if pulls == [] {
      assert pulls + [pull] == [pull];
    } else {
      TailOfSum(pulls, [pull]);
      CountOneMore(pulls[1..], pull, number);
    }
  }

  lemma {:induction false} AddUnseenToCount(rows: seq<Row>, head: Head, repository: string, number: int)
    ensures CountRows(AddUnseenTo(rows, head), repository, number) == CountRows(rows, repository, number)
      + if Fold(head.repository) == Fold(repository) && head.number == number then 1 else 0
  {
    if rows == [] {
      var added := Row(head.repository, false, true, false, None, [UnseenPull(head)]);
      CountOneMore([], UnseenPull(head), number);
      assert [] + [UnseenPull(head)] == [UnseenPull(head)];
      assert AddUnseenTo(rows, head) == [added] && [added][1..] == [];
      assert CountRows([added][1..], repository, number) == 0;
    } else if Fold(rows[0].repository) == Fold(head.repository) {
      CountOneMore(rows[0].pulls, UnseenPull(head), number);
      assert AddUnseenTo(rows, head)[1..] == rows[1..];
    } else {
      AddUnseenToCount(rows[1..], head, repository, number);
      assert AddUnseenTo(rows, head)[1..] == AddUnseenTo(rows[1..], head);
    }
  }

  lemma {:induction false} AddUnseenCount(rows: seq<Row>, unseen: seq<Head>, repository: string, number: int)
    ensures CountRows(AddUnseen(rows, unseen), repository, number)
      == CountRows(rows, repository, number) + CountHeads(unseen, repository, number)
    decreases |unseen|
  {
    if unseen != [] {
      AddUnseenToCount(rows, unseen[0], repository, number);
      AddUnseenCount(AddUnseenTo(rows, unseen[0]), unseen[1..], repository, number);
    }
  }

  lemma {:induction false} CountedIsHeld(pulls: seq<Pull>, number: int)
    ensures Count(pulls, number) > 0 <==> exists p :: p in pulls && p.number == number
  {
    if pulls != [] { CountedIsHeld(pulls[1..], number); }
  }

  lemma {:induction false} CountedIsListed(rows: seq<Row>, repository: string, number: int)
    ensures CountRows(rows, repository, number) > 0 <==>
      exists row :: row in rows && Fold(row.repository) == Fold(repository) && exists p :: p in row.pulls && p.number == number
  {
    if rows != [] {
      CountedIsListed(rows[1..], repository, number);
      CountedIsHeld(rows[0].pulls, number);
    }
  }

  lemma {:induction false} UnseenCount(rows: seq<Row>, heads: seq<Head>, repository: string, number: int)
    ensures CountHeads(Unseen(rows, heads), repository, number)
      == if CountRows(rows, repository, number) > 0 then 0 else CountHeads(heads, repository, number)
  {
    if heads != [] {
      var first, rest := heads[0], Unseen(rows, heads[1..]);
      UnseenCount(rows, heads[1..], repository, number);
      CountedIsListed(rows, repository, number);
      if Listed(rows, first) {
        assert [] + rest == rest;
      } else {
        assert ([first] + rest)[1..] == rest;
      }
    }
  }

  /** After a complete head list, a repository's rows hold a pull request exactly when a head names it, as often as they
      held it before, or as often as the heads name one they did not hold. */
  lemma CompleteBeatCounts(github: Reading, heads: seq<Head>, now: int, repository: string, number: int)
    ensures var beat := ApplyHeadReading(github, heads, now, true);
      var named, held := CountHeads(heads, repository, number), CountRows(github.rows, repository, number);
      CountRows(beat.rows, repository, number) == if named == 0 then 0 else if held > 0 then held else named
  {
    OpenRowsCount(github.rows, heads, now, repository, number);
    UnseenCount(github.rows, heads, repository, number);
    AddUnseenCount(OpenRows(github.rows, heads, now), Unseen(github.rows, heads), repository, number);
  }

  /** A pull request first seen now: its head, and nothing read of it. */
  predicate FirstSeen(r: Pull, head: Head)
  {
    && r.number == head.number && r.headSha == Some(head.sha) && r.mergeReady == Some(false) && !r.stale
    && r.checksAt.None? && r.checksAge.None? && r.rollup.None? && !r.rollupKnown && r.previousPush.None?
  }

  /** A pull request kept with its head. */
  predicate Kept(pull: Pull, r: Pull, repository: string, heads: seq<Head>, now: int)
  {
    var head := FindHead(heads, repository, pull.number);
    head.Some? && Reconciled(pull, r, head, now)
  }

  predicate NewIn(r: Pull, repository: string, heads: seq<Head>)
  {
    exists head :: head in heads && Fold(head.repository) == Fold(repository) && FirstSeen(r, head)
  }

  /** The row itself is as it was. */
  predicate SameRow(row: Row, r: Row)
  {
    r.(pulls := []) == row.(pulls := [])
  }

  /** These of the row's pull requests are kept, in order, and after them come those first seen. */
  predicate KeptAt(row: Row, was: Row, places: seq<nat>, heads: seq<Head>, now: int)
  {
    && SameRow(was, row) && |places| <= |row.pulls|
    && (forall j, k :: 0 <= j < k < |places| ==> places[j] < places[k])
    && (forall k :: 0 <= k < |places| ==>
          places[k] < |was.pulls| && Kept(was.pulls[places[k]], row.pulls[k], row.repository, heads, now))
    && (forall k :: |places| <= k < |row.pulls| ==> NewIn(row.pulls[k], row.repository, heads))
  }

  ghost predicate RowFrom(row: Row, was: Row, heads: seq<Head>, now: int)
  {
    exists places :: KeptAt(row, was, places, heads, now)
  }

  /** Every row comes from the row in its place, or is new and stale. */
  ghost predicate RowsFrom(rows: seq<Row>, was: seq<Row>, heads: seq<Head>, now: int)
  {
    && |rows| >= |was|
    && (forall i :: 0 <= i < |was| ==> RowFrom(rows[i], was[i], heads, now))
    && (forall i :: |was| <= i < |rows| ==> RowFrom(rows[i], Row(rows[i].repository, false, true, false, None, []), heads, now))
  }

  /** These places, in order, are where the kept ones stood. */
  predicate StoodAt(kept: seq<Pull>, pulls: seq<Pull>, places: seq<nat>, repository: string, heads: seq<Head>, now: int)
  {
    && |places| == |kept| && (forall j, k :: 0 <= j < k < |places| ==> places[j] < places[k])
    && forall k :: 0 <= k < |places| ==> places[k] < |pulls| && Kept(pulls[places[k]], kept[k], repository, heads, now)
  }

  function Shifted(places: seq<nat>): (r: seq<nat>)
    ensures |r| == |places| && forall k :: 0 <= k < |r| ==> r[k] == places[k] + 1
  {
    seq(|places|, k requires 0 <= k < |places| => places[k] + 1)
  }

  lemma StoodLater(kept: seq<Pull>, first: Pull, pulls: seq<Pull>, places: seq<nat>, repository: string, heads: seq<Head>, now: int)
    requires StoodAt(kept, pulls, places, repository, heads, now)
    ensures StoodAt(kept, [first] + pulls, Shifted(places), repository, heads, now)
  {
  }

  lemma StoodFirst(kept: seq<Pull>, r: Pull, pulls: seq<Pull>, places: seq<nat>, repository: string, heads: seq<Head>, now: int)
    requires StoodAt(kept, pulls, places, repository, heads, now) && forall k :: 0 <= k < |places| ==> places[k] > 0
    requires pulls != [] && Kept(pulls[0], r, repository, heads, now)
    ensures StoodAt([r] + kept, pulls, [0] + places, repository, heads, now)
  {
    var all, both := [0] + places, [r] + kept;
    forall k | 0 <= k < |all|
      ensures all[k] < |pulls| && Kept(pulls[all[k]], both[k], repository, heads, now)
    {
      if k > 0 { assert all[k] == places[k - 1] && both[k] == kept[k - 1]; }
    }
  }

  /** Where the pull requests that stay open stood. */
  lemma {:induction false} OpenPullsFrom(pulls: seq<Pull>, heads: seq<Head>, repository: string, now: int) returns (places: seq<nat>)
    ensures StoodAt(OpenPulls(pulls, heads, repository, now), pulls, places, repository, heads, now)
  {
    if pulls == [] {
      places := [];
    } else {
      var later := OpenPullsFrom(pulls[1..], heads, repository, now);
      var head, rest := FindHead(heads, repository, pulls[0].number), OpenPulls(pulls[1..], heads, repository, now);
      FirstApart(pulls);
      StoodLater(rest, pulls[0], pulls[1..], later, repository, heads, now);
      places := Shifted(later);
      if head.Some? {
        StoodFirst(rest, ReconcilePull(pulls[0], head, now), pulls, places, repository, heads, now);
        places := [0] + places;
      } else {
        assert [] + rest == rest;
      }
    }
  }

  lemma KeptWithOneMore(row: Row, was: Row, places: seq<nat>, head: Head, heads: seq<Head>, now: int)
    requires KeptAt(row, was, places, heads, now) && head in heads && Fold(head.repository) == Fold(row.repository)
    ensures KeptAt(row.(pulls := row.pulls + [UnseenPull(head)]), was, places, heads, now)
  {
    var more := row.pulls + [UnseenPull(head)];
    assert FirstSeen(UnseenPull(head), head);
    forall k | |places| <= k < |more|
      ensures NewIn(more[k], row.repository, heads)
    {
      if k < |row.pulls| { assert more[k] == row.pulls[k]; }
    }
  }

  lemma AddUnseenToFrom(rows: seq<Row>, head: Head, was: seq<Row>, heads: seq<Head>, now: int)
    requires RowsFrom(rows, was, heads, now) && head in heads
    ensures RowsFrom(AddUnseenTo(rows, head), was, heads, now)
  {
    var place := AddUnseenToAt(rows, head);
    var empty := Row(if place < |rows| then rows[place].repository else head.repository, false, true, false, None, []);
    if place < |rows| {
      var from := if place < |was| then was[place] else empty;
      var places :| KeptAt(rows[place], from, places, heads, now);
      KeptWithOneMore(rows[place], from, places, head, heads, now);
    } else {
      assert KeptAt(empty, empty, [], heads, now);
      KeptWithOneMore(empty, empty, [], head, heads, now);
      assert [] + [UnseenPull(head)] == [UnseenPull(head)];
    }
  }

  /** Only the first row of the repository changes, or one is put at the end. */
  lemma {:induction false} AddUnseenToAt(rows: seq<Row>, head: Head) returns (place: nat)
    ensures place <= |rows| && |AddUnseenTo(rows, head)| == (if place < |rows| then |rows| else |rows| + 1)
    ensures forall i :: 0 <= i < |rows| && i != place ==> AddUnseenTo(rows, head)[i] == rows[i]
    ensures place < |rows| ==> Fold(rows[place].repository) == Fold(head.repository)
    ensures place < |rows| ==> AddUnseenTo(rows, head)[place] == rows[place].(pulls := rows[place].pulls + [UnseenPull(head)])
    ensures place == |rows| ==> AddUnseenTo(rows, head)[place] == Row(head.repository, false, true, false, None, [UnseenPull(head)])
  {
    if rows == [] || Fold(rows[0].repository) == Fold(head.repository) {
      place := 0;
    } else {
      var later := AddUnseenToAt(rows[1..], head);
      place := later + 1;
    }
  }

  lemma {:induction false} AddUnseenFrom(rows: seq<Row>, unseen: seq<Head>, was: seq<Row>, heads: seq<Head>, now: int)
    requires RowsFrom(rows, was, heads, now) && forall head :: head in unseen ==> head in heads
    ensures RowsFrom(AddUnseen(rows, unseen), was, heads, now)
    decreases |unseen|
  {
    if unseen != [] {
      AddUnseenToFrom(rows, unseen[0], was, heads, now);
      AddUnseenFrom(AddUnseenTo(rows, unseen[0]), unseen[1..], was, heads, now);
    }
  }

  lemma {:induction false} UnseenAreHeads(rows: seq<Row>, heads: seq<Head>)
    ensures forall head :: head in Unseen(rows, heads) ==> head in heads
  {
    if heads != [] { UnseenAreHeads(rows, heads[1..]); }
  }

  /** After a complete head list, each row holds its open pull requests in order, each reconciled with its head, and then
      those first seen. */
  lemma CompleteBeatRows(github: Reading, heads: seq<Head>, now: int)
    ensures RowsFrom(ApplyHeadReading(github, heads, now, true).rows, github.rows, heads, now)
  {
    var open := OpenRows(github.rows, heads, now);
    forall i | 0 <= i < |open|
      ensures RowFrom(open[i], github.rows[i], heads, now)
    {
      var places := OpenPullsFrom(github.rows[i].pulls, heads, github.rows[i].repository, now);
      assert KeptAt(open[i], github.rows[i], places, heads, now);
    }
    UnseenAreHeads(github.rows, heads);
    AddUnseenFrom(open, Unseen(github.rows, heads), github.rows, heads, now);
  }

  /** After a cut one, every row holds what it held, in order, each pull request reconciled with its head if there is one. */
  lemma CutBeatRows(github: Reading, heads: seq<Head>, now: int, i: nat)
    requires i < |github.rows|
    ensures var rows, was := ApplyHeadReading(github, heads, now, false).rows, github.rows[i];
      && |rows| == |github.rows| && SameRow(was, rows[i]) && |rows[i].pulls| == |was.pulls|
      && forall k :: 0 <= k < |was.pulls| ==>
           Reconciled(was.pulls[k], rows[i].pulls[k], FindHead(heads, was.repository, was.pulls[k].number), now)
  {
  }

  /** Either way the rest of the reading stays, but for the time of its heads. */
  lemma BeatKeepsReading(github: Reading, heads: seq<Head>, now: int, complete: bool)
    ensures var beat := ApplyHeadReading(github, heads, now, complete);
      beat.headsAt == Some(now) && beat.sampledAt == github.sampledAt && beat.stale == github.stale && beat.restored == github.restored
  {
  }

  // What a page is shown

  /** A check reading stays green exactly while it is fresh, and one that does is shown unchanged. */
  function WithholdIfOld(pull: Pull, now: int, repoStale: bool): (r: Pull)
    ensures Green(r) <==>
      Green(pull) && !pull.stale && !repoStale && pull.checksAt.Some? && 0 <= now - pull.checksAt.value <= FRESH_SECONDS
    ensures Green(r) ==> r == pull
    ensures pull.checksAt.None? && !Green(pull) ==> r == pull
    ensures pull.checksAt.None? && Green(pull) ==> r == pull.(mergeReady := Some(false), stale := true)
    ensures pull.checksAt.Some? ==>
      var age := now - pull.checksAt.value;
      r == if 0 <= age <= 180 && !pull.stale && !repoStale then pull
           else pull.(mergeReady := Some(false), stale := true, checksAge := if age > 180 then Some(age) else pull.checksAge)
  {
    if pull.mergeReady == None && pull.checksAt == None then pull
    else if pull.checksAt == None then
      if Green(pull) then pull.(mergeReady := Some(false), stale := true) else pull
    else
      var age := now - pull.checksAt.value;
      if 0 <= age <= FRESH_SECONDS && !pull.stale && !repoStale then pull
      else pull.(mergeReady := Some(false), stale := true,
                 checksAge := if age > FRESH_SECONDS then Some(age) else pull.checksAge)
  }
}
