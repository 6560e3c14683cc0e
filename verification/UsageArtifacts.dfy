/** Token history from usage artifacts (dashboard/usage_artifacts.py): a bounded, cached scan of each
    repository's artifact listing, and what it takes for the history not to be called partial. */
module UsageArtifacts {
  import opened Common

  const PAGE := 100
  const MAX_PAGES := 5

  type Key = (string, nat)

  /** A listed artifact. `id` is None when GitHub gave no whole number, and `sizeOk` when the size is in bounds. */
  datatype Artifact = Artifact(id: Option<nat>, named: bool, expired: bool, createdAt: Option<int>, sizeOk: bool)

  datatype Sample = Sample(account: string, at: int, tokens: nat, partial: bool)

  /** What reading an artifact gave: a sample, a capture without counts, or an empty record. */
  datatype Record = Counted(sample: Sample) | Gap(gapAt: Option<int>) | Missing

  datatype Result = Result(samples: seq<Sample>, gaps: seq<Option<int>>, hardPartial: bool, listingComplete: bool,
                           coveredUntil: Option<int>, partial: bool)

  // Listings

  /** By creation, newest first, whatever undated rows stand between. */
  predicate NewestFirst(listing: seq<Artifact>)
  {
    forall i, j :: 0 <= i < j < |listing| && listing[i].createdAt.Some? && listing[j].createdAt.Some? ==>
      listing[i].createdAt.value >= listing[j].createdAt.value
  }

  /** No dated row after the first n is at or after the cutoff. */
  predicate Exhausted(listing: seq<Artifact>, n: nat, cutoff: int)
  {
    n <= |listing| && forall i :: n <= i < |listing| && listing[i].createdAt.Some? ==> listing[i].createdAt.value < cutoff
  }

  predicate Oldest(rows: seq<Artifact>, oldest: Option<int>)
  {
    && (forall i :: 0 <= i < |rows| && rows[i].createdAt.Some? ==> oldest.Some? && oldest.value <= rows[i].createdAt.value)
    && (oldest.Some? ==> exists i :: 0 <= i < |rows| && rows[i].createdAt == oldest)
  }

  function OldestOf(rows: seq<Artifact>, before: Option<int>): Option<int>
  {
    if rows == [] then before
    else
      var at := rows[0].createdAt;
      OldestOf(rows[1..], if at.Some? && (before.None? || at.value < before.value) then at else before)
  }

  lemma {:induction false} OldestExtends(done: seq<Artifact>, rows: seq<Artifact>, before: Option<int>)
    requires Oldest(done, before)
    ensures Oldest(done + rows, OldestOf(rows, before))
    decreases |rows|
  {
    if rows == [] {
      assert done + rows == done;
    } else {
      var at := rows[0].createdAt;
      var next := if at.Some? && (before.None? || at.value < before.value) then at else before;
      assert Oldest(done + [rows[0]], next) by {
        if next.Some? && next == before {
          var i :| 0 <= i < |done| && done[i].createdAt == before;
          assert (done + [rows[0]])[i].createdAt == next;
        } else {
          assert (done + [rows[0]])[|done|].createdAt == at;
        }
      }
      OldestExtends(done + [rows[0]], rows[1..], next);
      assert done + [rows[0]] + rows[1..] == done + rows;
    }
  }

  predicate AnyOlder(rows: seq<Artifact>, cutoff: int)
  {
    exists i :: 0 <= i < |rows| && rows[i].createdAt.Some? && rows[i].createdAt.value < cutoff
  }

  lemma OlderEndsIt(listing: seq<Artifact>, start: nat, end: nat, cutoff: int)
    requires NewestFirst(listing) && start <= end <= |listing|
    requires AnyOlder(listing[start..end], cutoff) || end == |listing|
    ensures Exhausted(listing, end, cutoff)
  {
    if AnyOlder(listing[start..end], cutoff) {
      var rows := listing[start..end];
      var i :| 0 <= i < |rows| && rows[i].createdAt.Some? && rows[i].createdAt.value < cutoff;
      assert listing[start + i] == rows[i];
    }
  }

  lemma NoneOlderJoins(listing: seq<Artifact>, start: nat, end: nat, cutoff: int)
    requires start <= end <= |listing|
    requires !AnyOlder(listing[..start], cutoff) && !AnyOlder(listing[start..end], cutoff)
    ensures !AnyOlder(listing[..end], cutoff)
  {
    forall i | 0 <= i < end && listing[i].createdAt.Some?
      ensures listing[i].createdAt.value >= cutoff
    {
      if i < start {
        assert listing[..start][i] == listing[i];
      } else {
        assert listing[start..end][i - start] == listing[i];
      }
    }
  }

  /** A page of the listing is asked for, all before it being full and newer than the cutoff, and cannot be read. */
  ghost predicate BreaksOff(listing: seq<Artifact>, cutoff: int, breaks: nat -> bool)
  {
    exists number: nat :: number < 5 && breaks(number) && 100 * number <= |listing| && !AnyOlder(listing[..100 * number], cutoff)
  }

  lemma OlderInMore(listing: seq<Artifact>, few: nat, many: nat, cutoff: int)
    requires few <= many <= |listing| && AnyOlder(listing[..few], cutoff)
    ensures AnyOlder(listing[..many], cutoff)
  {
    var i :| 0 <= i < few && listing[..few][i].createdAt.Some? && listing[..few][i].createdAt.value < cutoff;
    assert listing[..many][i] == listing[..few][i];
  }

  lemma OlderInPage(listing: seq<Artifact>, start: nat, end: nat, cutoff: int)
    requires start <= end <= |listing| && AnyOlder(listing[start..end], cutoff)
    ensures AnyOlder(listing[..end], cutoff)
  {
    var i :| 0 <= i < end - start && listing[start..end][i].createdAt.Some? && listing[start..end][i].createdAt.value < cutoff;
    assert listing[..end][start + i] == listing[start..end][i];
  }

  /** A listing read to an older artifact, or to its end, asks for no later page. */
  lemma NothingBreaksAfter(listing: seq<Artifact>, cutoff: int, breaks: nat -> bool, pages: nat, end: nat)
    requires end <= |listing| && end <= 100 * pages && (end < 100 * pages ==> end == |listing|)
    requires AnyOlder(listing[..end], cutoff) || end < 100 * pages
    requires forall number: nat :: number < pages ==> !breaks(number)
    ensures !BreaksOff(listing, cutoff, breaks)
  {
    forall number: nat | number < 5 && breaks(number) && 100 * number <= |listing|
      ensures AnyOlder(listing[..100 * number], cutoff)
    {
      OlderInMore(listing, end, 100 * number, cutoff);
    }
  }

  lemma PageEndsIt(listing: seq<Artifact>, start: nat, end: nat, cutoff: int, breaks: nat -> bool, pages: nat)
    requires NewestFirst(listing) && start <= end <= |listing| && end <= 100 * pages && (end < 100 * pages ==> end == |listing|)
    requires AnyOlder(listing[start..end], cutoff) || end < 100 * pages
    requires forall number: nat :: number < pages ==> !breaks(number)
    ensures Exhausted(listing, end, cutoff) && !BreaksOff(listing, cutoff, breaks)
  {
    OlderEndsIt(listing, start, end, cutoff);
    if AnyOlder(listing[start..end], cutoff) { OlderInPage(listing, start, end, cutoff); }
    NothingBreaksAfter(listing, cutoff, breaks, pages, end);
  }

  /** Reads pages while they hold nothing before the cutoff, MAX_PAGES of them at the most, until a request fails. `breaks`
      says which do, and `pages` counts those read. */
  method Recent(listing: seq<Artifact>, cutoff: int, breaks: nat -> bool)
      returns (failed: bool, read: nat, complete: bool, oldest: Option<int>, pages: nat)
    requires NewestFirst(listing)
    ensures failed <==> BreaksOff(listing, cutoff, breaks)
    ensures !failed ==> read <= |listing| && Oldest(listing[..read], oldest)
    ensures !failed && complete ==> Exhausted(listing, read, cutoff)
    ensures !failed && !complete ==> read == 500 && !AnyOlder(listing[..read], cutoff)
    ensures forall number :: 0 <= number < pages ==> !breaks(number)
    ensures if failed then pages < 5 && breaks(pages) else 0 < pages <= 5 && 100 * pages - 100 <= read <= 100 * pages
  {
    read, oldest, failed, complete, pages := 0, None, false, false, 0;
    while pages < MAX_PAGES
      invariant pages <= MAX_PAGES && read == pages * PAGE <= |listing| && Oldest(listing[..read], oldest)
      invariant !failed && !complete && !AnyOlder(listing[..read], cutoff)
      invariant forall number :: 0 <= number < pages ==> !breaks(number)
    {
      if breaks(pages) { return true, 0, false, None, pages; }
      var end := Min(read + PAGE, |listing|);
      var rows := listing[read..end];
      OldestJoins(listing, read, end, oldest);
      oldest, pages := OldestOf(rows, oldest), pages + 1;
      if |rows| < PAGE || AnyOlder(rows, cutoff) {
        PageEndsIt(listing, read, end, cutoff, breaks, pages);
        return false, end, true, oldest, pages;
      }
      NoneOlderJoins(listing, read, end, cutoff);
      read := end;
    }
  }

  lemma OldestJoins(listing: seq<Artifact>, start: nat, end: nat, oldest: Option<int>)
    requires start <= end <= |listing| && Oldest(listing[..start], oldest)
    ensures Oldest(listing[..end], OldestOf(listing[start..end], oldest))
  {
    OldestExtends(listing[..start], listing[start..end], oldest);
    assert listing[..start] + listing[start..end] == listing[..end];
  }

  // Reading and keeping records

  /** An artifact that counts for the history since the cutoff. */
  predicate Counts(artifact: Artifact, cutoff: int)
  {
    artifact.named && !artifact.expired && artifact.createdAt.Some? && artifact.createdAt.value >= cutoff
  }

  /** The record of an artifact is kept, seen by this scan, and among the records it tallies. */
  predicate Held(repository: string, artifact: Artifact, cache: map<Key, Record>, records: seq<Record>, seen: set<Key>)
  {
    && artifact.id.Some?
    && var key := (repository, artifact.id.value);
       key in cache && key in seen && cache[key] in records
  }

  predicate AllHeld(repository: string, artifacts: seq<Artifact>, cutoff: int, cache: map<Key, Record>, records: seq<Record>,
                    seen: set<Key>)
  {
    forall i :: 0 <= i < |artifacts| && Counts(artifacts[i], cutoff) ==> Held(repository, artifacts[i], cache, records, seen)
  }

  /** A counting artifact that no scan can read. */
  predicate Unusable(artifact: Artifact, cutoff: int)
  {
    Counts(artifact, cutoff) && (artifact.id.None? || !artifact.sizeOk)
  }

  predicate SomeUnusable(artifacts: seq<Artifact>, cutoff: int)
  {
    exists i :: 0 <= i < |artifacts| && Unusable(artifacts[i], cutoff)
  }

  /** What one repository's turn proves: its counting artifacts newer than the bound, or all of them when the listing
      was read to its cutoff, are held. */
  predicate ReadBack(repository: string, listing: seq<Artifact>, cutoff: int, complete: bool, bound: Option<int>,
                     cache: map<Key, Record>, records: seq<Record>, seen: set<Key>)
  {
    && (bound.Some? ==> bound.value >= cutoff)
    && forall i :: 0 <= i < |listing| && Counts(listing[i], cutoff)
                   && (complete || (bound.Some? && listing[i].createdAt.value > bound.value)) ==>
         Held(repository, listing[i], cache, records, seen)
  }

  lemma TurnReadsBack(repository: string, listing: seq<Artifact>, cutoff: int, read: nat, complete: bool, oldest: Option<int>,
                      cache: map<Key, Record>, records: seq<Record>, seen: set<Key>)
    requires NewestFirst(listing) && read <= |listing| && Oldest(listing[..read], oldest)
    requires complete ==> Exhausted(listing, read, cutoff)
    requires !complete ==> !AnyOlder(listing[..read], cutoff)
    requires AllHeld(repository, listing[..read], cutoff, cache, records, seen)
    ensures ReadBack(repository, listing, cutoff, complete, if complete then Some(cutoff) else oldest, cache, records, seen)
  {
    if !complete && oldest.Some? {
      var j :| 0 <= j < read && listing[..read][j].createdAt == oldest;
      assert listing[j].createdAt == oldest;
    }
    forall i | 0 <= i < |listing| && Counts(listing[i], cutoff)
               && (complete || (oldest.Some? && listing[i].createdAt.value > oldest.value))
      ensures Held(repository, listing[i], cache, records, seen)
    {
      assert i < read;
      assert listing[..read][i] == listing[i];
    }
  }

  lemma UnusableInAll(listing: seq<Artifact>, read: nat, cutoff: int)
    requires read <= |listing| && SomeUnusable(listing[..read], cutoff)
    ensures SomeUnusable(listing, cutoff)
  {
    var i :| 0 <= i < read && Unusable(listing[..read][i], cutoff);
    assert listing[i] == listing[..read][i];
  }

  /** A capture without counts is dated by its artifact, wherever that artifact is listed. */
  predicate GapsDated(cache: map<Key, Record>, dates: Key -> Option<int>)
  {
    forall key :: key in cache && cache[key].Gap? ==> cache[key].gapAt == dates(key)
  }

  predicate Dated(repository: string, listing: seq<Artifact>, dates: Key -> Option<int>)
  {
    forall i :: 0 <= i < |listing| && listing[i].id.Some? ==> listing[i].createdAt == dates((repository, listing[i].id.value))
  }

  predicate Grows(before: map<Key, Record>, after: map<Key, Record>)
  {
    forall key :: key in before ==> key in after && after[key] == before[key]
  }

  lemma TurnKept(repository: string, listing: seq<Artifact>, cutoff: int, complete: bool, bound: Option<int>,
                 cache: map<Key, Record>, records: seq<Record>, seen: set<Key>,
                 newCache: map<Key, Record>, newRecords: seq<Record>, newSeen: set<Key>)
    requires ReadBack(repository, listing, cutoff, complete, bound, cache, records, seen)
    requires forall key :: key in cache && key in seen ==> key in newCache && newCache[key] == cache[key]
    requires records <= newRecords && seen <= newSeen
    ensures ReadBack(repository, listing, cutoff, complete, bound, newCache, newRecords, newSeen)
  {
    assert forall record :: record in records ==> record in newRecords;
  }

  // What the records say

  predicate Unsound(record: Record)
  {
    record.Missing? || (record.Counted? && record.sample.partial)
  }

  /** Every record sorted into a sample or a gap, and whether any is unsound. */
  method Tally(records: seq<Record>) returns (samples: seq<Sample>, gaps: seq<Option<int>>, hard: bool)
    ensures forall sample :: sample in samples <==> Counted(sample) in records
    ensures forall gap :: gap in gaps <==> Gap(gap) in records
    ensures hard <==> exists record :: record in records && Unsound(record)
    ensures |samples| + |gaps| <= |records|
    ensures gaps == [] <==> forall record :: record in records ==> !record.Gap?
  {
    samples, gaps, hard := [], [], false;
    for i := 0 to |records|
      invariant forall sample :: sample in samples <==> Counted(sample) in records[..i]
      invariant forall gap :: gap in gaps <==> Gap(gap) in records[..i]
      invariant hard ==> exists k :: 0 <= k < i && Unsound(records[k])
      invariant !hard ==> forall k :: 0 <= k < i ==> !Unsound(records[k])
      invariant |samples| + |gaps| <= i
      invariant gaps == [] <==> forall record :: record in records[..i] ==> !record.Gap?
    {
      assert records[..i + 1] == records[..i] + [records[i]];
      match records[i] {
        case Missing => hard := true;
        case Gap(at) => gaps := gaps + [at];
        case Counted(sample) =>
          samples := samples + [sample];
          hard := hard || sample.partial;
      }
    }
    assert records[..|records|] == records;
  }

  /** The time that all listings were read back to. */
  function CoveredUntil(bounds: seq<Option<int>>): (r: Option<int>)
    ensures r.Some? <==> bounds != [] && None !in bounds
    ensures r.Some? ==> Some(r.value) in bounds && forall i :: 0 <= i < |bounds| ==> bounds[i].value <= r.value
  {
    if bounds == [] || bounds[0].None? then None
    else if |bounds| == 1 then bounds[0]
    else
      assert bounds == [bounds[0]] + bounds[1..];
      var others := CoveredUntil(bounds[1..]);
      if others.None? then None else Some(Max(bounds[0].value, others.value))
  }

  predicate GapInside(gaps: seq<Option<int>>, windowStart: Option<int>)
  {
    exists i :: 0 <= i < |gaps| && (windowStart.None? || gaps[i].None? || gaps[i].value >= windowStart.value)
  }

  function ApplyPlanWindow(result: Result, windowStart: Option<int>): Result
  {
    result.(partial :=
      || result.hardPartial
      || GapInside(result.gaps, windowStart)
      || (if windowStart.None? then !result.listingComplete
          else result.coveredUntil.None? || result.coveredUntil.value > windowStart.value))
  }

  function Summary(samples: seq<Sample>, gaps: seq<Option<int>>, hard: bool, completes: seq<bool>, bounds: seq<Option<int>>,
                   windowStart: Option<int>): (r: Result)
    ensures r.samples == samples && r.gaps == gaps && r.hardPartial == hard && r.coveredUntil == CoveredUntil(bounds)
    ensures r.listingComplete <==> !hard && forall k :: 0 <= k < |completes| ==> completes[k]
    ensures r == ApplyPlanWindow(r, windowStart)
  {
    var whole := forall k :: 0 <= k < |completes| ==> completes[k];
    ApplyPlanWindow(Result(samples, gaps, hard, !hard && whole, CoveredUntil(bounds), false), windowStart)
  }

  /** A scan that read every listing to its cutoff and every artifact whole is called partial for no window since then. */
  lemma WholeScanIsUnmarked(samples: seq<Sample>, completes: seq<bool>, bounds: seq<Option<int>>, cutoff: int,
                            windowStart: Option<int>)
    requires (forall k :: 0 <= k < |completes| ==> completes[k]) && bounds != []
    requires forall k :: 0 <= k < |bounds| ==> bounds[k] == Some(cutoff)
    requires windowStart.Some? ==> windowStart.value >= cutoff
    ensures !Summary(samples, [], false, completes, bounds, windowStart).partial
  {
    assert None !in bounds;
  }

  /** A window that begins later asks for less. */
  lemma LaterWindowAsksLess(result: Result, earlier: int, later: int)
    requires earlier <= later && !ApplyPlanWindow(result, Some(earlier)).partial
    ensures !ApplyPlanWindow(result, Some(later)).partial
  {
    forall i | 0 <= i < |result.gaps|
      ensures result.gaps[i].Some? && result.gaps[i].value < later
    {
      assert result.gaps[i].Some? && result.gaps[i].value < earlier;
    }
  }

  predicate InWindow(artifact: Artifact, windowStart: Option<int>)
  {
    artifact.createdAt.Some? && (windowStart.None? || artifact.createdAt.value > windowStart.value)
  }

  /** A complete sample of the artifact is in the history. */
  predicate Sampled(repository: string, artifact: Artifact, cache: map<Key, Record>, samples: seq<Sample>)
  {
    && artifact.id.Some?
    && var key := (repository, artifact.id.value);
       key in cache && cache[key].Counted? && !cache[key].sample.partial && cache[key].sample in samples
  }

  /** Named as a usage artifact, dated, and still there. */
  predicate IsUsage(artifact: Artifact) { artifact.named && artifact.createdAt.Some? && !artifact.expired }

  /** Every usage artifact since the window began, and none from before the seven days when there is no window. */
  predicate Whole(names: seq<string>, listings: seq<seq<Artifact>>, cutoff: int, windowStart: Option<int>,
                  cache: map<Key, Record>, samples: seq<Sample>)
    requires |listings| == |names|
  {
    && (windowStart.Some? && names != [] ==> windowStart.value >= cutoff)
    && forall k, i :: 0 <= k < |names| && 0 <= i < |listings[k]| && IsUsage(listings[k][i]) && listings[k][i].createdAt.value >= cutoff
                      && (windowStart.None? || windowStart.value < listings[k][i].createdAt.value) ==>
         Sampled(names[k], listings[k][i], cache, samples)
  }

  /** What holds of a finished scan: every repository's turn, and a tally that left nothing unsound. */
  predicate Scanned(names: seq<string>, listings: seq<seq<Artifact>>, cutoff: int, completes: seq<bool>,
                    bounds: seq<Option<int>>, cache: map<Key, Record>, records: seq<Record>, seen: set<Key>)
  {
    && |listings| == |completes| == |bounds| == |names|
    && forall k :: 0 <= k < |names| ==>
         ReadBack(names[k], listings[k], cutoff, completes[k], bounds[k], cache, records, seen)
  }

  /** One turn more. */
  lemma ScannedNext(asked: seq<string>, listed: seq<seq<Artifact>>, since: int, completes: seq<bool>, bounds: seq<Option<int>>,
                    had: map<Key, Record>, was: seq<Record>, knew: set<Key>, complete: bool, bound: Option<int>,
                    cache: map<Key, Record>, records: seq<Record>, seen: set<Key>)
    requires |completes| < |asked| == |listed|
    requires Scanned(asked[..|completes|], listed[..|completes|], since, completes, bounds, had, was, knew)
    requires ReadBack(asked[|completes|], listed[|completes|], since, complete, bound, cache, records, seen)
    requires Grows(had, cache) && was <= records && knew <= seen
    ensures Scanned(asked[..|completes| + 1], listed[..|completes| + 1], since, completes + [complete], bounds + [bound],
                    cache, records, seen)
  {
    forall j | 0 <= j < |completes|
      ensures ReadBack(asked[j], listed[j], since, completes[j], bounds[j], cache, records, seen)
    {
      assert asked[..|completes|][j] == asked[j] && listed[..|completes|][j] == listed[j];
      TurnKept(asked[j], listed[j], since, completes[j], bounds[j], had, was, knew, cache, records, seen);
    }
  }

  lemma ScannedKept(asked: seq<string>, listed: seq<seq<Artifact>>, since: int, completes: seq<bool>, bounds: seq<Option<int>>,
                    had: map<Key, Record>, was: seq<Record>, seen: set<Key>, cache: map<Key, Record>, records: seq<Record>)
    requires Scanned(asked, listed, since, completes, bounds, had, was, seen)
    requires forall key :: key in had && key in seen ==> key in cache && cache[key] == had[key]
    requires was <= records
    ensures Scanned(asked, listed, since, completes, bounds, cache, records, seen)
  {
    forall j | 0 <= j < |asked|
      ensures ReadBack(asked[j], listed[j], since, completes[j], bounds[j], cache, records, seen)
    {
      TurnKept(asked[j], listed[j], since, completes[j], bounds[j], had, was, seen, cache, records, seen);
    }
  }

  /** A listing that can be read to its cutoff is, and is then complete from there. */
  predicate ReadFar(listed: seq<seq<Artifact>>, since: int, completes: seq<bool>, bounds: seq<Option<int>>)
  {
    && |listed| == |completes| == |bounds|
    && forall k :: 0 <= k < |listed| ==> (completes[k] ==> bounds[k] == Some(since)) && (Reaches(listed[k], since) ==> completes[k])
  }

  lemma UnmarkedIsWhole(names: seq<string>, listings: seq<seq<Artifact>>, cutoff: int, completes: seq<bool>,
                        bounds: seq<Option<int>>, cache: map<Key, Record>, records: seq<Record>, seen: set<Key>,
                        dates: Key -> Option<int>, result: Result, windowStart: Option<int>)
    requires Scanned(names, listings, cutoff, completes, bounds, cache, records, seen)
    requires GapsDated(cache, dates) && forall k :: 0 <= k < |names| ==> Dated(names[k], listings[k], dates)
    requires forall record :: record in records ==> !Unsound(record)
    requires forall record :: record in records && record.Counted? ==> record.sample in result.samples
    requires forall record :: record in records && record.Gap? ==> record.gapAt in result.gaps
    requires result.listingComplete ==> forall k :: 0 <= k < |names| ==> completes[k]
    requires result.coveredUntil == CoveredUntil(bounds)
    requires !ApplyPlanWindow(result, windowStart).partial
    ensures Whole(names, listings, cutoff, windowStart, cache, result.samples)
  {
    if windowStart.Some? && names != [] {
      assert bounds[0].value <= result.coveredUntil.value;
      assert ReadBack(names[0], listings[0], cutoff, completes[0], bounds[0], cache, records, seen);
      assert bounds[0].Some? by { assert bounds[0] in bounds; }
    }
    forall k, i | 0 <= k < |names| && 0 <= i < |listings[k]| && Counts(listings[k][i], cutoff)
                  && InWindow(listings[k][i], windowStart)
      ensures Sampled(names[k], listings[k][i], cache, result.samples)
    {
      var artifact := listings[k][i];
      assert ReadBack(names[k], listings[k], cutoff, completes[k], bounds[k], cache, records, seen);
      assert bounds[k] in bounds;
      assert Held(names[k], artifact, cache, records, seen);
      var record := cache[(names[k], artifact.id.value)];
      assert Dated(names[k], listings[k], dates);
      assert record.Gap? ==> record.gapAt == artifact.createdAt;
    }
  }

  /** For whatever window, a history that is not called partial is whole. */
  ghost predicate Honest(names: seq<string>, listings: seq<seq<Artifact>>, cutoff: int, cache: map<Key, Record>, result: Result)
    requires |listings| == |names|
  {
    forall start :: !ApplyPlanWindow(result, start).partial ==>
      Whole(names, listings, cutoff, start, cache, result.samples)
  }

  lemma UnmarkedIsHonest(names: seq<string>, listings: seq<seq<Artifact>>, cutoff: int, completes: seq<bool>,
                         bounds: seq<Option<int>>, cache: map<Key, Record>, records: seq<Record>, seen: set<Key>,
                         dates: Key -> Option<int>, result: Result)
    requires |listings| == |names|
    requires !result.hardPartial ==> Scanned(names, listings, cutoff, completes, bounds, cache, records, seen)
    requires GapsDated(cache, dates) && forall k :: 0 <= k < |names| ==> Dated(names[k], listings[k], dates)
    requires !result.hardPartial ==> forall record :: record in records ==> !Unsound(record)
    requires forall sample :: sample in result.samples <==> Counted(sample) in records
    requires forall gap :: gap in result.gaps <==> Gap(gap) in records
    requires result.listingComplete ==> forall k :: 0 <= k < |completes| ==> completes[k]
    requires result.coveredUntil == CoveredUntil(bounds)
    ensures Honest(names, listings, cutoff, cache, result)
  {
    forall start | !ApplyPlanWindow(result, start).partial
      ensures Whole(names, listings, cutoff, start, cache, result.samples)
    {
      forall record | record in records && record.Gap?
        ensures record.gapAt in result.gaps
      {
        assert record == Gap(record.gapAt);
      }
      forall record | record in records && record.Counted?
        ensures record.sample in result.samples
      {
        assert record == Counted(record.sample);
      }
      UnmarkedIsWhole(names, listings, cutoff, completes, bounds, cache, records, seen, dates, result, start);
    }
  }

  const REUSE := 300

  /** What GitHub answers in one scan: which pages of a listing cannot be read, whether that is for lost access, and what
      reading an artifact gives, if it can be read. */
  datatype GitHub = GitHub(breaks: (string, nat) -> bool, refuses: string -> bool, record: Key -> Option<Record>)

  /** The record of an artifact as it is kept. */
  function Dating(found: Record, artifact: Artifact): Record
  {
    if found.Gap? then Gap(artifact.createdAt) else found
  }

  /** A counting artifact that is not kept, and that this scan cannot read. */
  predicate Unread(repository: string, artifact: Artifact, since: int, cache: map<Key, Record>, github: GitHub)
  {
    && Counts(artifact, since) && artifact.id.Some? && artifact.sizeOk
    && (repository, artifact.id.value) !in cache && github.record((repository, artifact.id.value)).None?
  }

  predicate SomeUnread(repository: string, artifacts: seq<Artifact>, since: int, cache: map<Key, Record>, github: GitHub)
  {
    exists i :: 0 <= i < |artifacts| && Unread(repository, artifacts[i], since, cache, github)
  }

  /** What is new in the cache was read now, of a counting artifact. */
  predicate ReadNow(repository: string, artifacts: seq<Artifact>, since: int, before: map<Key, Record>, after: map<Key, Record>,
                    github: GitHub)
  {
    forall key :: key in after && key !in before ==>
      exists i :: 0 <= i < |artifacts| && IsReadNow(repository, artifacts[i], since, key, after, github)
  }

  predicate IsReadNow(repository: string, artifact: Artifact, since: int, key: Key, cache: map<Key, Record>, github: GitHub)
  {
    && Counts(artifact, since) && artifact.id.Some? && key == (repository, artifact.id.value)
    && key in cache && github.record(key).Some? && cache[key] == Dating(github.record(key).value, artifact)
  }

  /** A counting artifact that can be had is among the records. */
  predicate HeldIfReadable(repository: string, artifact: Artifact, since: int, before: map<Key, Record>, after: map<Key, Record>,
                           records: seq<Record>, seen: set<Key>, github: GitHub)
  {
    Counts(artifact, since) && !Unusable(artifact, since) && !Unread(repository, artifact, since, before, github) ==>
      Held(repository, artifact, after, records, seen)
  }

  /** What is read on the way leaves what cannot be read unread. */
  lemma StillUnread(repository: string, done: seq<Artifact>, artifact: Artifact, since: int, before: map<Key, Record>,
                    had: map<Key, Record>, github: GitHub)
    requires ReadNow(repository, done, since, before, had, github) && Grows(before, had)
    ensures Unread(repository, artifact, since, had, github) <==> Unread(repository, artifact, since, before, github)
  {
  }

  lemma OneMoreFails(repository: string, done: seq<Artifact>, artifact: Artifact, since: int, before: map<Key, Record>, github: GitHub)
    ensures SomeUnusable(done + [artifact], since) <==> SomeUnusable(done, since) || Unusable(artifact, since)
    ensures SomeUnread(repository, done + [artifact], since, before, github)
      <==> SomeUnread(repository, done, since, before, github) || Unread(repository, artifact, since, before, github)
  {
    var all := done + [artifact];
    assert all[|done|] == artifact && forall k :: 0 <= k < |done| ==> all[k] == done[k];
  }

  lemma ReadNowJoins(repository: string, done: seq<Artifact>, artifact: Artifact, since: int, before: map<Key, Record>,
                     had: map<Key, Record>, after: map<Key, Record>, github: GitHub)
    requires ReadNow(repository, done, since, before, had, github) && ReadNow(repository, [artifact], since, had, after, github)
    requires Grows(before, had) && Grows(had, after)
    ensures ReadNow(repository, done + [artifact], since, before, after, github)
  {
    var all := done + [artifact];
    assert all[|done|] == artifact && forall k :: 0 <= k < |done| ==> all[k] == done[k];
    forall key | key in after && key !in before
      ensures exists i :: 0 <= i < |all| && IsReadNow(repository, all[i], since, key, after, github)
    {
      if key in had {
        var i :| 0 <= i < |done| && IsReadNow(repository, done[i], since, key, had, github);
        assert IsReadNow(repository, all[i], since, key, after, github);
      } else {
        var i :| 0 <= i < |[artifact]| && IsReadNow(repository, [artifact][i], since, key, after, github);
        assert IsReadNow(repository, all[|done|], since, key, after, github);
      }
    }
  }

  /** A page of a listing cannot be read, an artifact cannot be used, or one that is not kept cannot be read. */
  ghost predicate Failing(asked: seq<string>, listed: seq<seq<Artifact>>, since: int, cache: map<Key, Record>, github: GitHub)
    requires |listed| == |asked|
  {
    exists k :: 0 <= k < |asked| && FailingAt(asked[k], listed[k], since, cache, github)
  }

  /** The repository's listing breaks off at a page that is asked for. */
  ghost predicate Broken(repository: string, listing: seq<Artifact>, since: int, github: GitHub)
  {
    BreaksOff(listing, since, (number: nat) => github.breaks(repository, number))
  }

  /** The first listing that breaks off, if any, does so because GitHub refused it. */
  ghost predicate LosesAccess(asked: seq<string>, listed: seq<seq<Artifact>>, since: int, github: GitHub)
    requires |listed| == |asked|
  {
    exists k :: 0 <= k < |asked| && Broken(asked[k], listed[k], since, github) && github.refuses(asked[k])
      && forall j :: 0 <= j < k ==> !Broken(asked[j], listed[j], since, github)
  }

  ghost predicate FailingAt(repository: string, listing: seq<Artifact>, since: int, cache: map<Key, Record>, github: GitHub)
  {
    || (exists number: nat :: number < 5 && github.breaks(repository, number))
    || SomeUnusable(listing, since) || SomeUnread(repository, listing, since, cache, github)
  }

  lemma UnreadInAll(repository: string, listing: seq<Artifact>, read: nat, since: int, cache: map<Key, Record>, github: GitHub)
    requires read <= |listing| && SomeUnread(repository, listing[..read], since, cache, github)
    ensures SomeUnread(repository, listing, since, cache, github)
  {
    var i :| 0 <= i < read && Unread(repository, listing[..read][i], since, cache, github);
    assert listing[i] == listing[..read][i];
  }

  /** The five pages there may be hold an artifact from before the cutoff, or the listing ends in them. */
  predicate Reaches(listing: seq<Artifact>, since: int)
  {
    |listing| < 500 || AnyOlder(listing[..500], since)
  }

  /** What is not in the cache before can be read. */
  predicate Learned(before: map<Key, Record>, after: map<Key, Record>, github: GitHub)
  {
    forall key :: key in after && key !in before ==> github.record(key).Some?
  }

  lemma UnreadBefore(repository: string, artifacts: seq<Artifact>, since: int, before: map<Key, Record>, after: map<Key, Record>,
                     github: GitHub)
    requires Grows(before, after) && Learned(before, after, github)
    ensures SomeUnread(repository, artifacts, since, after, github) <==> SomeUnread(repository, artifacts, since, before, github)
  {
    assert forall i :: 0 <= i < |artifacts| ==>
      (Unread(repository, artifacts[i], since, after, github) <==> Unread(repository, artifacts[i], since, before, github));
  }

  /** The listing names the artifact as one to read. */
  predicate Names(listing: seq<Artifact>, since: int, id: nat)
  {
    exists i :: 0 <= i < |listing| && Counts(listing[i], since) && listing[i].id == Some(id) && listing[i].sizeOk
  }

  lemma NamesOneMore(done: seq<Artifact>, artifact: Artifact, since: int, id: nat)
    ensures Names(done + [artifact], since, id) <==>
      Names(done, since, id) || (Counts(artifact, since) && artifact.id == Some(id) && artifact.sizeOk)
  {
    var all := done + [artifact];
    assert all[|done|] == artifact && forall k :: 0 <= k < |done| ==> all[k] == done[k];
  }

  /** What reading these artifacts leaves: what is new, what is held, what is seen, and whether something could not be had. */
  ghost predicate RowsRead(repository: string, artifacts: seq<Artifact>, since: int, github: GitHub, before: map<Key, Record>,
                           cache: map<Key, Record>, records: seq<Record>, seenBefore: set<Key>, seen: set<Key>, hard: bool)
  {
    && ReadNow(repository, artifacts, since, before, cache, github)
    && (forall i :: 0 <= i < |artifacts| ==> HeldIfReadable(repository, artifacts[i], since, before, cache, records, seen, github))
    && (hard <==> SomeUnusable(artifacts, since) || SomeUnread(repository, artifacts, since, before, github))
    && (forall key :: key in seen <==> key in seenBefore || (key.0 == repository && Names(artifacts, since, key.1)))
  }

  lemma RowsReadNext(repository: string, done: seq<Artifact>, artifact: Artifact, since: int, github: GitHub, before: map<Key, Record>,
                     had: map<Key, Record>, was: seq<Record>, seenBefore: set<Key>, knew: set<Key>, failed: bool,
                     cache: map<Key, Record>, added: seq<Record>, key: set<Key>, lost: bool)
    requires RowsRead(repository, done, since, github, before, had, was, seenBefore, knew, failed)
    requires Grows(before, had) && Grows(had, cache) && ReadNow(repository, [artifact], since, had, cache, github)
    requires Counts(artifact, since) && !lost ==> Held(repository, artifact, cache, added, key)
    requires lost <==> Unusable(artifact, since) || Unread(repository, artifact, since, had, github)
    requires key == if Counts(artifact, since) && artifact.id.Some? && artifact.sizeOk then {(repository, artifact.id.value)} else {}
    ensures RowsRead(repository, done + [artifact], since, github, before, cache, was + added, seenBefore, knew + key, failed || lost)
  {
    var all := done + [artifact];
    StillUnread(repository, done, artifact, since, before, had, github);
    OneMoreFails(repository, done, artifact, since, before, github);
    ReadNowJoins(repository, done, artifact, since, before, had, cache, github);
    forall id: nat { NamesOneMore(done, artifact, since, id); }
    forall i | 0 <= i < |all|
      ensures HeldIfReadable(repository, all[i], since, before, cache, was + added, knew + key, github)
    {
      if i < |done| { assert HeldIfReadable(repository, done[i], since, before, had, was, knew, github); }
    }
  }

  /** Only what these repositories list has been seen. */
  predicate SeenIn(seen: set<Key>, asked: seq<string>, listed: seq<seq<Artifact>>, since: int)
  {
    forall key :: key in seen ==> ListedIn(key, asked, listed, since)
  }

  predicate ListedIn(key: Key, asked: seq<string>, listed: seq<seq<Artifact>>, since: int)
  {
    exists j :: 0 <= j < |asked| && j < |listed| && asked[j] == key.0 && Names(listed[j], since, key.1)
  }

  lemma ListedInMore(key: Key, asked: seq<string>, listed: seq<seq<Artifact>>, since: int, few: nat, many: nat)
    requires few <= many <= |asked| == |listed| && ListedIn(key, asked[..few], listed[..few], since)
    ensures ListedIn(key, asked[..many], listed[..many], since)
  {
    var j :| 0 <= j < few && asked[..few][j] == key.0 && Names(listed[..few][j], since, key.1);
    assert asked[..many][j] == asked[..few][j] && listed[..many][j] == listed[..few][j];
  }

  /** One turn more. */
  lemma SeenInMore(was: set<Key>, seen: set<Key>, asked: seq<string>, listed: seq<seq<Artifact>>, since: int, k: nat)
    requires k < |asked| == |listed| && SeenIn(was, asked[..k], listed[..k], since)
    requires forall key :: key in seen && key !in was ==> key.0 == asked[k] && Names(listed[k], since, key.1)
    ensures SeenIn(seen, asked[..k + 1], listed[..k + 1], since)
  {
    forall key | key in seen
      ensures ListedIn(key, asked[..k + 1], listed[..k + 1], since)
    {
      if key in was {
        ListedInMore(key, asked, listed, since, k, k + 1);
      } else {
        assert asked[..k + 1][k] == asked[k] && listed[..k + 1][k] == listed[k];
      }
    }
  }

  /** What the turns of these repositories did, one after the other. */
  ghost predicate Turned(asked: seq<string>, listed: seq<seq<Artifact>>, since: int, github: GitHub, before: map<Key, Record>,
                         cache: map<Key, Record>, seen: set<Key>, completes: seq<bool>, bounds: seq<Option<int>>)
  {
    && |asked| == |listed| && (forall k :: 0 <= k < |asked| ==> !Broken(asked[k], listed[k], since, github))
    && SeenIn(seen, asked, listed, since) && (forall key :: key in cache && key !in before ==> key.0 in asked)
    && ReadFar(listed, since, completes, bounds)
  }

  lemma TurnedNext(asked: seq<string>, listed: seq<seq<Artifact>>, since: int, github: GitHub, before: map<Key, Record>,
                   had: map<Key, Record>, knew: set<Key>, completes: seq<bool>, bounds: seq<Option<int>>,
                   cache: map<Key, Record>, seen: set<Key>, complete: bool, bound: Option<int>)
    requires |completes| < |asked| == |listed|
    requires Turned(asked[..|completes|], listed[..|completes|], since, github, before, had, knew, completes, bounds)
    requires !Broken(asked[|completes|], listed[|completes|], since, github)
    requires forall key :: key in cache && key !in had ==> key.0 == asked[|completes|]
    requires forall key :: key in seen && key !in knew ==> key.0 == asked[|completes|] && Names(listed[|completes|], since, key.1)
    requires (complete ==> bound == Some(since)) && (Reaches(listed[|completes|], since) ==> complete)
    ensures Turned(asked[..|completes| + 1], listed[..|completes| + 1], since, github, before, cache, seen, completes + [complete],
                   bounds + [bound])
  {
    var k := |completes|;
    SeenInMore(knew, seen, asked, listed, since, k);
    SplitAt(asked, k);
    SplitAt(listed, k);
    assert asked[..k + 1][k] == asked[k];
  }

  /** Every record is that of a seen artifact. */
  predicate OfSeen(records: seq<Record>, seen: set<Key>, cache: map<Key, Record>)
  {
    forall record :: record in records ==> exists key :: key in seen && key in cache && cache[key] == record
  }

  lemma OfSeenGrows(records: seq<Record>, seen: set<Key>, cache: map<Key, Record>, added: seq<Record>, key: set<Key>,
                    after: map<Key, Record>)
    requires OfSeen(records, seen, cache) && Grows(cache, after) && OfSeen(added, key, after)
    ensures OfSeen(records + added, seen + key, after)
  {
    forall record | record in records + added
      ensures exists name :: name in seen + key && name in after && after[name] == record
    {
      if record in records {
        var name :| name in seen && name in cache && cache[name] == record;
        assert name in seen + key && name in after && after[name] == record;
      } else {
        var name :| name in key && name in after && after[name] == record;
        assert name in seen + key;
      }
    }
  }

  /** What a repository this scan did not reach keeps from earlier ones. */
  predicate StillCached(record: Record, since: int)
  {
    match record
    case Missing => true
    case Counted(sample) => sample.at >= since
    case Gap(at) => at.Some? && at.value >= since
  }

  /** Nothing fails, every listing is read to its cutoff, and every record kept is a whole sample. */
  ghost predicate ReadWhole(asked: seq<string>, listed: seq<seq<Artifact>>, since: int, before: map<Key, Record>,
                            after: map<Key, Record>, windowStart: Option<int>, github: GitHub)
    requires |listed| == |asked|
  {
    && asked != [] && (windowStart.Some? ==> windowStart.value >= since) && !Failing(asked, listed, since, before, github)
    && (forall k :: 0 <= k < |listed| ==> Reaches(listed[k], since))
    && forall record :: record in after.Values ==> record.Counted? && !record.sample.partial
  }

  /** What no scan dated is kept, and what is dated only since then. */
  lemma StillCachedMeans(record: Record, since: int)
    ensures StillCached(record, since) <==> match record
      case Missing => true
      case Counted(sample) => since <= sample.at
      case Gap(None) => false
      case Gap(Some(at)) => since <= at
  {
  }

  /** The result of a scan: honest for every window, and not partial when the scan found nothing missing. */
  method Summed(asked: seq<string>, listed: seq<seq<Artifact>>, since: int, windowStart: Option<int>, cache: map<Key, Record>,
                hard: bool, records: seq<Record>, seen: set<Key>, completes: seq<bool>, bounds: seq<Option<int>>,
                ghost dates: Key -> Option<int>) returns (shown: Result)
    requires |listed| == |asked| && GapsDated(cache, dates) && forall k :: 0 <= k < |asked| ==> Dated(asked[k], listed[k], dates)
    requires !hard ==> Scanned(asked, listed, since, completes, bounds, cache, records, seen)
    ensures shown == ApplyPlanWindow(shown, windowStart) && Honest(asked, listed, since, cache, shown)
    ensures hard ==> shown.partial
    ensures records == [] ==> shown.samples == []
    ensures !hard && listed != [] && ReadFar(listed, since, completes, bounds) && (windowStart.Some? ==> windowStart.value >= since)
            && (forall k :: 0 <= k < |listed| ==> Reaches(listed[k], since))
            && (forall record :: record in records ==> record.Counted? && !record.sample.partial) ==>
      !shown.partial
  {
    var samples, gaps, unsound := Tally(records);
    shown := Summary(samples, gaps, hard || unsound, completes, bounds, windowStart);
    assert unsound || forall record :: record in records ==> !Unsound(record);
    UnmarkedIsHonest(asked, listed, since, completes, bounds, cache, records, seen, dates, shown);
  }

  lemma FirstBroken(asked: seq<string>, listed: seq<seq<Artifact>>, n: nat, since: int, github: GitHub, before: map<Key, Record>,
                    cache: map<Key, Record>, seen: set<Key>, completes: seq<bool>, bounds: seq<Option<int>>)
    requires n <= |asked| == |listed| && Turned(asked[..n], listed[..n], since, github, before, cache, seen, completes, bounds)
    requires n < |asked| ==> Broken(asked[n], listed[n], since, github)
    ensures forall k :: 0 <= k < n ==> !Broken(asked[k], listed[k], since, github)
    ensures LosesAccess(asked, listed, since, github) <==> n < |asked| && github.refuses(asked[n])
  {
    forall k | 0 <= k < n
      ensures !Broken(asked[k], listed[k], since, github)
    {
      assert asked[..n][k] == asked[k] && listed[..n][k] == listed[k];
    }
  }

  /** What a scan leaves in the cache: a repository whose turn came keeps only what it still lists, another exactly what it had
      inside the window, or nothing once access is lost. */
  predicate LeftBy(asked: seq<string>, listed: seq<seq<Artifact>>, n: nat, since: int, before: map<Key, Record>,
                   after: map<Key, Record>, lost: bool)
    requires n <= |asked| == |listed|
  {
    && (forall key :: key in after && key.0 in asked[..n] ==> ListedIn(key, asked[..n], listed[..n], since))
    && (forall key :: key in after && key.0 !in asked[..n] ==> key in before && after[key] == before[key] && StillCached(after[key], since))
    && (forall key :: key in before && key.0 !in asked[..n] && StillCached(before[key], since) && !lost ==> key in after)
    && (lost ==> after == map[])
  }

  lemma CarriedIsLeft(asked: seq<string>, listed: seq<seq<Artifact>>, n: nat, since: int, github: GitHub, before: map<Key, Record>,
                      had: map<Key, Record>, seen: set<Key>, completes: seq<bool>, bounds: seq<Option<int>>, reached: set<string>,
                      after: map<Key, Record>)
    requires n <= |asked| == |listed| && (forall name :: name in reached <==> name in asked[..n])
    requires Turned(asked[..n], listed[..n], since, github, before, had, seen, completes, bounds) && Grows(before, had)
    requires forall key :: key in after <==> key in had && (key in seen || (key.0 !in reached && StillCached(had[key], since)))
    requires forall key :: key in after ==> after[key] == had[key]
    ensures LeftBy(asked, listed, n, since, before, after, false)
  {
    forall key | key in seen
      ensures key.0 in reached
    {
      assert ListedIn(key, asked[..n], listed[..n], since);
    }
  }

  class UsageReader {
    var cache: map<Key, Record>
    var lostAccess: bool
    var names: Option<seq<string>>
    var result: Option<Result>
    var updated: int
    /** What GitHub listed at the scan behind `result`, and that scan's cutoff. */
    ghost var listings: seq<seq<Artifact>>
    ghost var cutoff: int

    /** For whatever window, a history that is not called partial is whole. */
    ghost predicate Valid()
      reads this
    {
      result.Some? ==>
        names.Some? && |names.value| == |listings| && Honest(names.value, listings, cutoff, cache, result.value)
    }

    constructor ()
      ensures Valid() && result.None? && cache == map[]
    {
      cache, lostAccess, names, result, updated := map[], false, None, None, 0;
    }

    /** One artifact's record, kept or read now, when it counts. `hard` when it cannot be had. */
    method ReadArtifact(repository: string, artifact: Artifact, since: int, github: GitHub, ghost dates: Key -> Option<int>)
        returns (hard: bool, added: seq<Record>, key: set<Key>)
      requires GapsDated(cache, dates) && Dated(repository, [artifact], dates)
      modifies this`cache
      ensures Grows(old(cache), cache) && GapsDated(cache, dates)
      ensures ReadNow(repository, [artifact], since, old(cache), cache, github)
      ensures Counts(artifact, since) && !hard ==> Held(repository, artifact, cache, added, key)
      ensures hard <==> Unusable(artifact, since) || Unread(repository, artifact, since, old(cache), github)
      ensures OfSeen(added, key, cache)
      ensures key == if Counts(artifact, since) && artifact.id.Some? && artifact.sizeOk then {(repository, artifact.id.value)} else {}
    {
      hard, added, key := false, [], {};
      if Counts(artifact, since) {
        if artifact.id.None? || !artifact.sizeOk { return true, [], {}; }
        var name := (repository, artifact.id.value);
        assert [artifact][0] == artifact;
        key := {name};
        if name !in cache {
          var found := github.record(name);
          if found.None? { return true, [], key; }
          cache := cache[name := Dating(found.value, artifact)];
        }
        added := [cache[name]];
      }
    }

    /** A repository's counting records, kept or read now. `hard` when one cannot be had. */
    method ReadRepository(repository: string, artifacts: seq<Artifact>, since: int, before: seq<Record>, seenBefore: set<Key>,
                          github: GitHub, ghost dates: Key -> Option<int>)
        returns (hard: bool, records: seq<Record>, seen: set<Key>)
      requires Dated(repository, artifacts, dates) && GapsDated(cache, dates) && OfSeen(before, seenBefore, cache)
      modifies this`cache
      ensures Grows(old(cache), cache) && GapsDated(cache, dates) && OfSeen(records, seen, cache)
      ensures ReadNow(repository, artifacts, since, old(cache), cache, github)
      ensures before <= records && seenBefore <= seen
      ensures forall i :: 0 <= i < |artifacts| ==> HeldIfReadable(repository, artifacts[i], since, old(cache), cache, records, seen, github)
      ensures hard <==> SomeUnusable(artifacts, since) || SomeUnread(repository, artifacts, since, old(cache), github)
      ensures forall key :: key in seen <==> key in seenBefore || (key.0 == repository && Names(artifacts, since, key.1))
    {
      hard, records, seen := false, before, seenBefore;
      for i := 0 to |artifacts|
        invariant Grows(old(cache), cache) && GapsDated(cache, dates) && OfSeen(records, seen, cache)
        invariant before <= records && seenBefore <= seen
        invariant RowsRead(repository, artifacts[..i], since, github, old(cache), cache, records, seenBefore, seen, hard)
      {
        ghost var had := cache;
        var lost, added, key := ReadArtifact(repository, artifacts[i], since, github, dates);
        OfSeenGrows(records, seen, had, added, key, cache);
        RowsReadNext(repository, artifacts[..i], artifacts[i], since, github, old(cache), had, records, seenBefore, seen, hard,
                     cache, added, key, lost);
        hard, records, seen := hard || lost, records + added, seen + key;
        SplitAt(artifacts, i);
      }
      Ends(artifacts);
    }

    /** Keeps what was seen and what a repository not listed kept inside the window, and tallies the latter too. */
    method CarryOver(before: seq<Record>, seen: set<Key>, listed: set<string>, since: int, ghost dates: Key -> Option<int>)
        returns (records: seq<Record>)
      requires GapsDated(cache, dates)
      modifies this`cache
      ensures GapsDated(cache, dates)
      ensures forall key :: key in cache <==>
        key in old(cache) && (key in seen || (key.0 !in listed && StillCached(old(cache)[key], since)))
      ensures forall key :: key in cache ==> cache[key] == old(cache)[key]
      ensures before <= records
      ensures forall key :: key in cache && key !in seen ==> cache[key] in records
      ensures forall record :: record in records ==> record in before || record in cache.Values
      ensures cache == map[] ==> records == before
    {
      cache := map key | key in cache && (key in seen || (key.0 !in listed && StillCached(cache[key], since))) :: cache[key];
      records := before;
      var left := cache.Keys - seen;
      while left != {}
        invariant left <= cache.Keys && before <= records
        invariant forall key :: key in cache && key !in seen && key !in left ==> cache[key] in records
        invariant forall record :: record in records ==> record in before || record in cache.Values
        invariant cache == map[] ==> records == before
        decreases left
      {
        var key :| key in left;
        ghost var shorter := records;
        records := records + [cache[key]];
        assert records[|shorter|] == cache[key];
        left := left - {key};
      }
    }

    /** One repository's turn: its listing, and then its records. */
    method Turn(repository: string, listing: seq<Artifact>, since: int, before: seq<Record>, seenBefore: set<Key>,
                github: GitHub, ghost dates: Key -> Option<int>)
        returns (failed: bool, hard: bool, records: seq<Record>, seen: set<Key>, complete: bool, bound: Option<int>)
      requires NewestFirst(listing) && Dated(repository, listing, dates) && GapsDated(cache, dates) && OfSeen(before, seenBefore, cache)
      modifies this`cache
      ensures Grows(old(cache), cache) && GapsDated(cache, dates) && Learned(old(cache), cache, github)
      ensures failed ==> hard && cache == old(cache) && records == before && seen == seenBefore
      ensures failed <==> Broken(repository, listing, since, github)
      ensures forall key :: key in cache && key !in old(cache) ==> key.0 == repository
      ensures forall key :: key in seen && key !in seenBefore ==> key.0 == repository && Names(listing, since, key.1)
      ensures hard ==> FailingAt(repository, listing, since, old(cache), github)
      ensures before <= records && seenBefore <= seen && OfSeen(records, seen, cache)
      ensures !hard ==> ReadBack(repository, listing, since, complete, bound, cache, records, seen)
      ensures !failed ==> (complete ==> bound == Some(since)) && (Reaches(listing, since) ==> complete)
    {
      var read, oldest, pages;
      failed, read, complete, oldest, pages := Recent(listing, since, (number: nat) => github.breaks(repository, number));
      bound := if complete then Some(since) else oldest;
      if failed {
        assert pages < 5 && github.breaks(repository, pages);
        return true, true, before, seenBefore, complete, bound;
      }
      assert Dated(repository, listing[..read], dates);
      hard, records, seen := ReadRepository(repository, listing[..read], since, before, seenBefore, github, dates);
      assert forall i :: 0 <= i < read ==> listing[..read][i] == listing[i];
      if hard {
        if SomeUnusable(listing[..read], since) { UnusableInAll(listing, read, since); }
        if SomeUnread(repository, listing[..read], since, old(cache), github) {
          UnreadInAll(repository, listing, read, since, old(cache), github);
        }
      } else {
        assert AllHeld(repository, listing[..read], since, cache, records, seen) by {
          assert forall i :: 0 <= i < read ==>
            HeldIfReadable(repository, listing[..read][i], since, old(cache), cache, records, seen, github);
        }
        TurnReadsBack(repository, listing, since, read, complete, oldest, cache, records, seen);
      }
    }

    /** The repositories' turns, until a listing breaks off. */
    method Turns(asked: seq<string>, listed: seq<seq<Artifact>>, since: int, github: GitHub, ghost dates: Key -> Option<int>)
        returns (hard: bool, records: seq<Record>, seen: set<Key>, reached: set<string>, completes: seq<bool>, bounds: seq<Option<int>>)
      requires |listed| == |asked| && GapsDated(cache, dates)
      requires forall k :: 0 <= k < |asked| ==> NewestFirst(listed[k]) && Dated(asked[k], listed[k], dates)
      modifies this`cache
      ensures GapsDated(cache, dates) && Grows(old(cache), cache) && OfSeen(records, seen, cache)
      ensures |completes| <= |asked| && forall name :: name in reached <==> name in asked[..|completes|]
      ensures Turned(asked[..|completes|], listed[..|completes|], since, github, old(cache), cache, seen, completes, bounds)
      ensures |completes| < |asked| ==> hard && Broken(asked[|completes|], listed[|completes|], since, github)
      ensures !hard ==> Scanned(asked, listed, since, completes, bounds, cache, records, seen)
      ensures hard ==> Failing(asked, listed, since, old(cache), github)
    {
      hard, records, seen, reached, completes, bounds := false, [], {}, {}, [], [];
      for k := 0 to |asked|
        invariant GapsDated(cache, dates) && Grows(old(cache), cache) && OfSeen(records, seen, cache)
        invariant |completes| == k && forall name :: name in reached <==> name in asked[..k]
        invariant Turned(asked[..k], listed[..k], since, github, old(cache), cache, seen, completes, bounds)
        invariant Learned(old(cache), cache, github)
        invariant !hard ==> Scanned(asked[..k], listed[..k], since, completes, bounds, cache, records, seen)
        invariant hard ==> Failing(asked, listed, since, old(cache), github)
      {
        ghost var had, was, knew := cache, records, seen;
        var failed, lost, complete, bound;
        failed, lost, records, seen, complete, bound := Turn(asked[k], listed[k], since, records, seen, github, dates);
        UnreadBefore(asked[k], listed[k], since, old(cache), had, github);
        if lost { assert FailingAt(asked[k], listed[k], since, old(cache), github); }
        hard := hard || lost;
        if failed { return; }
        if !hard { ScannedNext(asked, listed, since, completes, bounds, had, was, knew, complete, bound, cache, records, seen); }
        TurnedNext(asked, listed, since, github, old(cache), had, knew, completes, bounds, cache, seen, complete, bound);
        completes, bounds := completes + [complete], bounds + [bound];
        SplitAt(asked, k);
        reached := reached + {asked[k]};
      }
      Ends(asked);
      Ends(listed);
    }

    /** One scan of every repository, cut short by a listing that breaks off; lost access also drops all that was kept. A
        repository whose turn came keeps only what it still lists, and another what it kept inside the window. */
    method Scan(asked: seq<string>, listed: seq<seq<Artifact>>, since: int, github: GitHub, ghost dates: Key -> Option<int>)
        returns (hard: bool, records: seq<Record>, seen: set<Key>, completes: seq<bool>, bounds: seq<Option<int>>)
      requires |listed| == |asked| && GapsDated(cache, dates)
      requires forall k :: 0 <= k < |asked| ==> NewestFirst(listed[k]) && Dated(asked[k], listed[k], dates)
      modifies this`cache, this`lostAccess
      ensures GapsDated(cache, dates)
      ensures |completes| <= |asked| && forall k :: 0 <= k < |completes| ==> !Broken(asked[k], listed[k], since, github)
      ensures |completes| < |asked| ==> hard && Broken(asked[|completes|], listed[|completes|], since, github)
      ensures lostAccess <==> LosesAccess(asked, listed, since, github)
      ensures LeftBy(asked, listed, |completes|, since, old(cache), cache, lostAccess) && (lostAccess ==> records == [])
      ensures !hard ==> Scanned(asked, listed, since, completes, bounds, cache, records, seen)
      ensures !hard ==> forall key :: key in cache && key !in seen ==> key.0 !in asked
      ensures hard ==> Failing(asked, listed, since, old(cache), github)
      ensures ReadFar(listed[..|completes|], since, completes, bounds)
      ensures forall record :: record in records ==> record in cache.Values
    {
      var reached;
      hard, records, seen, reached, completes, bounds := Turns(asked, listed, since, github, dates);
      FirstBroken(asked, listed, |completes|, since, github, old(cache), cache, seen, completes, bounds);
      lostAccess := |completes| < |asked| && github.refuses(asked[|completes|]);
      if lostAccess { cache, records, reached := map[], [], {}; }
      ghost var had, was := cache, records;
      records := CarryOver(records, seen, reached, since, dates);
      if !lostAccess {
        CarriedIsLeft(asked, listed, |completes|, since, github, old(cache), had, seen, completes, bounds, reached, cache);
      }
      if !hard {
        Ends(asked);
        ScannedKept(asked, listed, since, completes, bounds, had, was, seen, cache, records);
      }
    }

    /** A new scan's result, whatever was held before. */
    method Rescan(asked: seq<string>, listed: seq<seq<Artifact>>, since: int, clock: int, windowStart: Option<int>,
                  github: GitHub, ghost dates: Key -> Option<int>)
        returns (shown: Result)
      requires |listed| == |asked| && GapsDated(cache, dates) && names == Some(asked)
      requires forall k :: 0 <= k < |asked| ==> NewestFirst(listed[k]) && Dated(asked[k], listed[k], dates)
      modifies this
      ensures Valid() && GapsDated(cache, dates)
      ensures names == old(names) && result == Some(shown)
      ensures listings == listed && cutoff == since && updated == clock
      ensures shown == ApplyPlanWindow(shown, windowStart)
      ensures lostAccess <==> LosesAccess(asked, listed, since, github)
      ensures lostAccess ==> cache == map[] && shown.samples == [] && shown.partial
      ensures ReadWhole(asked, listed, since, old(cache), cache, windowStart, github) ==> !shown.partial
    {
      var hard, records, seen, completes, bounds := Scan(asked, listed, since, github, dates);
      shown := Summed(asked, listed, since, windowStart, cache, hard, records, seen, completes, bounds, dates);
      result, updated := Some(shown), clock;
      listings, cutoff := listed, since;
    }

    predicate Reusable(asked: seq<string>, clock: int)
      reads this
    {
      names == Some(asked) && result.Some? && clock - updated < REUSE
    }

    /** The last scan of these repositories while it is under five minutes old, else a new one. */
    method Collect(asked: seq<string>, listed: seq<seq<Artifact>>, since: int, clock: int, windowStart: Option<int>,
                   github: GitHub, ghost dates: Key -> Option<int>)
        returns (shown: Result)
      requires Valid() && |listed| == |asked| && GapsDated(cache, dates)
      requires forall k :: 0 <= k < |asked| ==> NewestFirst(listed[k]) && Dated(asked[k], listed[k], dates)
      modifies this
      ensures Valid() && GapsDated(cache, dates)
      ensures names == Some(asked) && result == Some(shown)
      ensures old(names == Some(asked) && result.Some? && clock - updated < 300) ==>
        unchanged(`result) && unchanged(`listings) && unchanged(`cutoff) && unchanged(`cache)
      ensures !old(names == Some(asked) && result.Some? && clock - updated < 300) ==>
        && listings == listed && cutoff == since && updated == clock
        && shown == ApplyPlanWindow(shown, windowStart)
        && (lostAccess <==> LosesAccess(asked, listed, since, github))
        && (lostAccess ==> cache == map[] && shown.samples == [] && shown.partial)
        && (ReadWhole(asked, listed, since, old(cache), cache, windowStart, github) ==> !shown.partial)
    {
      if Reusable(asked, clock) {
        return result.value;
      }
      result, names := None, Some(asked);
      shown := Rescan(asked, listed, since, clock, windowStart, github, dates);
    }
  }
}
