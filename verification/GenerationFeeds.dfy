/** The two background readers that a reset must outrun: merged pull requests (dashboard/outcomes.py,
    OutcomesFeed) and token history (dashboard/live_service.py). Each reader carries the generation it
    started in. Saving happens outside the lock, and a last check repairs what was saved too late. */
module GenerationFeeds {
  import opened Common

  datatype Kind = Outcomes | Usage

  /** The two documents each feed keeps: what it read, and the answers GitHub may confirm unchanged. */
  datatype Name = Records | Responses

  /** How a read ended: with something to keep, with nothing new, or with access lost. */
  datatype Outcome = Kept | Nothing | Lost

  /** A read under way, by the generation of its reader. */
  datatype Cycle =
    | Collecting(generation: nat)
    | Saving(generation: nat, rest: seq<Name>)
    | Checking(generation: nat, lost: bool)
    | Resetting(generation: nat)
    | Clearing
    | Ended

  /** What the lock guards. `shown` is the generation of the reader whose result the page shows. */
  datatype Guarded = Guarded(generation: nat, running: bool, shown: Option<nat>)

  /** `disk` holds the generation that wrote each document, `clears` counts resets that have raised the
      generation and not cleared the disk yet, and `past` is the generation the last such reset raised. */
  datatype State = State(feed: Guarded, cycles: seq<Cycle>, clears: nat, disk: map<Name, nat>, past: nat)

  // The sections under the lock

  function ResetSection(kind: Kind, feed: Guarded): Guarded
  {
    feed.(generation := feed.generation + 1, shown := if kind.Outcomes? then Some(feed.generation + 1) else None)
  }

  /** The lock at the end of a read: whose result is shown, and what the thread does next. */
  function FinishSection(kind: Kind, feed: Guarded, generation: nat, outcome: Outcome): (Guarded, Cycle)
  {
    var free := feed.(running := false);
    if generation != feed.generation then (free, Ended)
    else if kind.Outcomes? then (free, if outcome.Lost? then Resetting(generation) else Saving(generation, [Records, Responses]))
    else if outcome.Lost? then (free.(shown := None), Checking(generation, true))
    else if outcome.Kept? then (free.(shown := Some(generation)), Saving(generation, [Records, Responses]))
    else (free, Checking(generation, false))
  }

  class Feed {
    const kind: Kind
    var generation: nat
    var running: bool
    var shown: Option<nat>

    function Fields(): Guarded
      reads this
    {
      Guarded(generation, running, shown)
    }

    constructor (kind: Kind)
      ensures this.kind == kind && Fields() == First(kind).feed
    {
      this.kind := kind;
      generation, running := 0, false;
      shown := if kind.Outcomes? then Some(0) else None;
    }

    method Reset()
      modifies this
      ensures Fields() == ResetSection(kind, old(Fields()))
    {
      generation := generation + 1;
      shown := if kind.Outcomes? then Some(generation) else None;
    }

    method Start(due: bool) returns (started: bool, reader: nat)
      modifies this
      ensures started == (due && !old(running)) && reader == old(generation)
      ensures Fields() == old(Fields()).(running := old(running) || started)
    {
      started, reader := due && !running, generation;
      if started { running := true; }
    }

    method Finish(reader: nat, outcome: Outcome) returns (next: Cycle)
      modifies this
      ensures (Fields(), next) == FinishSection(kind, old(Fields()), reader, outcome)
    {
      running := false;
      if reader != generation { return Ended; }
      match kind {
        case Outcomes =>
          next := if outcome.Lost? then Resetting(reader) else Saving(reader, [Records, Responses]);
        case Usage =>
          if outcome.Lost? {
            shown := None;
            next := Checking(reader, true);
          } else if outcome.Kept? {
            shown := Some(reader);
            next := Saving(reader, [Records, Responses]);
          } else {
            next := Checking(reader, false);
          }
      }
    }
  }

  // One step of a run

  datatype Event =
    | Start
    | Finish(i: nat, outcome: Outcome)
    | Save(i: nat, written: bool)
    | Check(i: nat, lostNow: bool)
    | ThreadReset(i: nat)
    | ThreadClear(i: nat)
    | Reset
    | Clear
    | BareReset

  predicate Enabled(s: State, e: Event)
  {
    match e
    case Start => !s.feed.running
    case Finish(i, _) => i < |s.cycles| && s.cycles[i].Collecting?
    case Save(i, _) => i < |s.cycles| && s.cycles[i].Saving? && s.cycles[i].rest != []
    case Check(i, _) => i < |s.cycles| && (s.cycles[i].Checking? || (s.cycles[i].Saving? && s.cycles[i].rest == []))
    case ThreadReset(i) => i < |s.cycles| && s.cycles[i].Resetting?
    case ThreadClear(i) => i < |s.cycles| && s.cycles[i].Clearing?
    case Reset => true
    case Clear => s.clears > 0
    case BareReset => true
  }

  function Step(kind: Kind, s: State, e: Event): State
    requires Enabled(s, e)
  {
    match e
    case Start => s.(feed := s.feed.(running := true), cycles := s.cycles + [Collecting(s.feed.generation)])
    case Finish(i, outcome) =>
      var (feed, next) := FinishSection(kind, s.feed, s.cycles[i].generation, outcome);
      s.(feed := feed, cycles := s.cycles[i := next])
    case Save(i, written) =>
      var cycle := s.cycles[i];
      s.(disk := if written then s.disk[cycle.rest[0] := cycle.generation] else s.disk,
         cycles := s.cycles[i := cycle.(rest := cycle.rest[1..])])
    case Check(i, lostNow) =>
      var cycle := s.cycles[i];
      var stale := cycle.generation != s.feed.generation || (kind.Usage? && (lostNow || (cycle.Checking? && cycle.lost)));
      s.(disk := if stale then map[] else s.disk, cycles := s.cycles[i := Ended])
    case ThreadReset(i) =>
      s.(feed := ResetSection(kind, s.feed), cycles := s.cycles[i := Clearing], past := s.feed.generation + 1)
    case ThreadClear(i) => s.(disk := map[], cycles := s.cycles[i := Ended])
    case Reset => s.(feed := ResetSection(kind, s.feed), clears := s.clears + 1, past := s.feed.generation + 1)
    case Clear => s.(disk := map[], clears := s.clears - 1)
    case BareReset => s.(feed := ResetSection(kind, s.feed))
  }

  function First(kind: Kind): State
  {
    State(Guarded(0, false, if kind.Outcomes? then Some(0) else None), [], 0, map[], 0)
  }

  ghost predicate ValidRun(kind: Kind, s: State, events: seq<Event>)
    decreases |events|
  {
    events == [] || (Enabled(s, events[0]) && ValidRun(kind, Step(kind, s, events[0]), events[1..]))
  }

  ghost function Run(kind: Kind, s: State, events: seq<Event>): State
    requires ValidRun(kind, s, events)
    decreases |events|
  {
    if events == [] then s else Run(kind, Step(kind, s, events[0]), events[1..])
  }

  // What every step keeps

  predicate Current(kind: Kind, s: State)
  {
    && s.past <= s.feed.generation
    && (s.feed.shown.Some? ==> s.feed.shown.value == s.feed.generation)
    && (forall i :: 0 <= i < |s.cycles| && !s.cycles[i].Clearing? && !s.cycles[i].Ended? ==> s.cycles[i].generation <= s.feed.generation)
    && (forall name :: name in s.disk ==> s.disk[name] <= s.feed.generation)
  }

  /** The thread of a reader of this generation that has yet to check what it saved. */
  predicate Unchecked(cycle: Cycle, generation: nat)
  {
    (cycle.Saving? || cycle.Checking?) && cycle.generation == generation
  }

  /** Whoever is still due to remove the documents of an earlier generation. */
  predicate DueForRemoval(s: State, generation: nat)
  {
    || s.clears > 0
    || exists i :: 0 <= i < |s.cycles| && (s.cycles[i].Clearing? || Unchecked(s.cycles[i], generation))
  }

  /** Every document of a generation before this one has someone due to remove it. */
  predicate StaleIsDue(s: State, bound: nat)
  {
    forall name :: name in s.disk && s.disk[name] < bound ==> DueForRemoval(s, s.disk[name])
  }

  /** Documents written before the last reset that clears. */
  predicate PastIsDue(s: State) { StaleIsDue(s, s.past) }

  /** Documents written before the generation on show, whatever raised it. */
  predicate AllIsDue(s: State) { StaleIsDue(s, s.feed.generation) }

  lemma CurrentKept(kind: Kind, s: State, e: Event)
    requires Enabled(s, e) && Current(kind, s)
    ensures Current(kind, Step(kind, s, e))
  {
  }

  /** A step leaves what was due due, and a reset that clears makes all that went before due. */
  lemma StaleIsDueKept(kind: Kind, s: State, e: Event, bound: nat)
    requires Enabled(s, e) && Current(kind, s) && StaleIsDue(s, bound) && bound <= s.feed.generation
    ensures StaleIsDue(Step(kind, s, e), if e.Reset? || e.ThreadReset? then s.feed.generation + 1 else bound)
  {
    var t := Step(kind, s, e);
    var next := if e.Reset? || e.ThreadReset? then s.feed.generation + 1 else bound;
    forall name | name in t.disk && t.disk[name] < next ensures DueForRemoval(t, t.disk[name]) {
      if e.Reset? || t.clears > 0 {
      } else if e.ThreadReset? {
        assert t.cycles[e.i].Clearing?;
      } else if e.Save? && e.written && name == s.cycles[e.i].rest[0] {
        assert Unchecked(t.cycles[e.i], t.disk[name]);
      } else {
        var i :| 0 <= i < |s.cycles| && (s.cycles[i].Clearing? || Unchecked(s.cycles[i], s.disk[name]));
        assert t.cycles[i].Clearing? || Unchecked(t.cycles[i], t.disk[name]);
      }
    }
  }

  /** Each document of the generation on show has someone due to remove it. */
  predicate Covered(s: State)
  {
    forall name :: name in s.disk && s.disk[name] == s.feed.generation ==> DueForRemoval(s, s.feed.generation)
  }

  /** A reset that clears nothing keeps every earlier document due exactly when it comes covered. */
  lemma BareResetKeepsAllDue(kind: Kind, s: State)
    requires Current(kind, s) && AllIsDue(s)
    ensures AllIsDue(Step(kind, s, BareReset)) <==> Covered(s)
  {
    var t := Step(kind, s, BareReset);
    assert forall generation :: DueForRemoval(t, generation) <==> DueForRemoval(s, generation);
  }

  /** Every bare reset of a run comes covered. */
  ghost predicate BareResetsAreCovered(kind: Kind, s: State, events: seq<Event>)
    requires ValidRun(kind, s, events)
    decreases |events|
  {
    events != [] ==>
      && (events[0].BareReset? ==> Covered(s))
      && BareResetsAreCovered(kind, Step(kind, s, events[0]), events[1..])
  }

  lemma {:induction false} RunKeeps(kind: Kind, s: State, events: seq<Event>)
    requires ValidRun(kind, s, events) && Current(kind, s)
    ensures Current(kind, Run(kind, s, events))
    ensures PastIsDue(s) ==> PastIsDue(Run(kind, s, events))
    ensures AllIsDue(s) && BareResetsAreCovered(kind, s, events) ==> AllIsDue(Run(kind, s, events))
    decreases |events|
  {
    if events != [] {
      CurrentKept(kind, s, events[0]);
      if PastIsDue(s) { StaleIsDueKept(kind, s, events[0], s.past); }
      if AllIsDue(s) && BareResetsAreCovered(kind, s, events) {
        StaleIsDueKept(kind, s, events[0], s.feed.generation);
        if events[0].BareReset? { BareResetKeepsAllDue(kind, s); }
      }
      RunKeeps(kind, Step(kind, s, events[0]), events[1..]);
    }
  }

  /** In every run, what the page shows was read by a reader of the current generation. */
  lemma EarlierReadersAreNeverShown(kind: Kind, events: seq<Event>)
    requires ValidRun(kind, First(kind), events)
    ensures var s := Run(kind, First(kind), events); s.feed.shown.Some? ==> s.feed.shown.value == s.feed.generation
  {
    RunKeeps(kind, First(kind), events);
  }

  /** No thread is left that could still remove or leave a document of this generation. */
  predicate Finished(s: State, generation: nat)
  {
    s.clears == 0 && forall i :: 0 <= i < |s.cycles| ==> !s.cycles[i].Clearing? && !Unchecked(s.cycles[i], generation)
  }

  /** Once the resets have cleared the disk and a reader from before the last of them has ended its finish
      step, none of its documents are left, whatever order the threads and the page's own resets took. */
  lemma EarlierDocumentsAreGone(kind: Kind, events: seq<Event>, generation: nat)
    requires ValidRun(kind, First(kind), events)
    requires var s := Run(kind, First(kind), events); generation < s.past && Finished(s, generation)
    ensures var s := Run(kind, First(kind), events); forall name :: name in s.disk ==> s.disk[name] != generation
  {
    RunKeeps(kind, First(kind), events);
  }

  /** The same for every earlier generation, when each bare reset of the run was covered. */
  lemma AllEarlierDocumentsAreGone(kind: Kind, events: seq<Event>, generation: nat)
    requires ValidRun(kind, First(kind), events) && BareResetsAreCovered(kind, First(kind), events)
    requires var s := Run(kind, First(kind), events); generation < s.feed.generation && Finished(s, generation)
    ensures var s := Run(kind, First(kind), events); forall name :: name in s.disk ==> s.disk[name] != generation
  {
    RunKeeps(kind, First(kind), events);
  }

  /** Resets that clear, less the clears they were followed by. */
  function Outstanding(events: seq<Event>): int
  {
    if events == [] then 0
    else (match events[0] case Reset => 1 case Clear => -1 case _ => 0) + Outstanding(events[1..])
  }

  /** Every reset that clears is followed by one clear of the disk, and no other clear waits. */
  lemma {:induction false} ClearsBalance(kind: Kind, s: State, events: seq<Event>)
    requires ValidRun(kind, s, events)
    ensures Run(kind, s, events).clears == s.clears + Outstanding(events)
    decreases |events|
  {
    if events != [] { ClearsBalance(kind, Step(kind, s, events[0]), events[1..]); }
  }

  /** A reset may come at any time, and its clear empties the disk. */
  lemma ResetThenClear(kind: Kind, s: State)
    ensures Enabled(s, Reset) && var t := Step(kind, s, Reset);
      && t.feed.generation == s.feed.generation + 1 && t.feed.running == s.feed.running && t.disk == s.disk && t.cycles == s.cycles
      && t.feed.shown == (match kind case Outcomes => Some(s.feed.generation + 1) case Usage => None)
      && Enabled(t, Clear) && Step(kind, t, Clear) == t.(disk := map[], clears := s.clears)
      && Enabled(s, BareReset) && Step(kind, s, BareReset) == s.(feed := t.feed)
  {
  }

  // What a read that is let finish leaves

  lemma RunOf(kind: Kind, s: State, e: Event, events: seq<Event>, t: State)
    requires Enabled(s, e) && Step(kind, s, e) == t && ValidRun(kind, t, events)
    ensures ValidRun(kind, s, [e] + events) && Run(kind, s, [e] + events) == Run(kind, t, events)
  {
    assert ([e] + events)[1..] == events;
  }

  /** A read of the current generation that kept something is shown, and both its documents stay. */
  lemma KeptIsShownAndSaved(kind: Kind, s: State)
    requires !s.feed.running && (kind.Outcomes? ==> s.feed.shown == Some(s.feed.generation))
    ensures var n := |s.cycles|; var events := [Start] + ([Finish(n, Kept)] + ([Save(n, true)] + ([Save(n, true)] + ([Check(n, false)] + []))));
      && ValidRun(kind, s, events)
      && var t := Run(kind, s, events);
         && t.feed == s.feed.(shown := Some(s.feed.generation))
         && t.disk == map[Records := s.feed.generation, Responses := s.feed.generation]
         && t.cycles == s.cycles + [Ended]
  {
    var n, g := |s.cycles|, s.feed.generation;
    var shown := s.feed.(shown := Some(g));
    var s1 := s.(feed := s.feed.(running := true), cycles := s.cycles + [Collecting(g)]);
    var s2 := s.(feed := shown, cycles := s.cycles + [Saving(g, [Records, Responses])]);
    var s3 := s2.(cycles := s.cycles + [Saving(g, [Responses])], disk := s.disk[Records := g]);
    var s4 := s2.(cycles := s.cycles + [Saving(g, [])], disk := s.disk[Records := g][Responses := g]);
    var s5 := s4.(cycles := s.cycles + [Ended]);
    assert [Records, Responses][1..] == [Responses] && [Responses][1..] == [];
    BothSaved(s4.disk, g);
    assert Step(kind, s1, Finish(n, Kept)) == s2 && Step(kind, s2, Save(n, true)) == s3;
    assert Step(kind, s3, Save(n, true)) == s4 && Step(kind, s4, Check(n, false)) == s5;
    RunOf(kind, s4, Check(n, false), [], s5);
    RunOf(kind, s3, Save(n, true), [Check(n, false)] + [], s4);
    RunOf(kind, s2, Save(n, true), [Save(n, true)] + ([Check(n, false)] + []), s3);
    RunOf(kind, s1, Finish(n, Kept), [Save(n, true)] + ([Save(n, true)] + ([Check(n, false)] + [])), s2);
    RunOf(kind, s, Start, [Finish(n, Kept)] + ([Save(n, true)] + ([Save(n, true)] + ([Check(n, false)] + []))), s1);
  }

  lemma BothSaved(disk: map<Name, nat>, g: nat)
    requires Records in disk && Responses in disk && disk[Records] == g && disk[Responses] == g
    ensures disk == map[Records := g, Responses := g]
  {
    forall name | name in disk.Keys
      ensures name in {Records, Responses}
    {
      match name
      case Records =>
      case Responses =>
    }
    assert disk.Keys == {Records, Responses};
  }

  /** One that lost access leaves nothing on disk: the usage shows nothing, and the outcomes start over. */
  lemma LostIsCleared(kind: Kind, s: State)
    requires !s.feed.running
    ensures var n := |s.cycles|;
      var events := [Start] + ([Finish(n, Lost)] + (if kind.Usage? then [Check(n, false)] + [] else [ThreadReset(n)] + ([ThreadClear(n)] + [])));
      && ValidRun(kind, s, events)
      && var t := Run(kind, s, events);
         && t.disk == map[] && !t.feed.running && t.cycles == s.cycles + [Ended]
         && (kind.Usage? ==> t.feed.shown.None? && t.feed.generation == s.feed.generation)
         && (kind.Outcomes? ==> t.feed.generation == s.feed.generation + 1 && t.feed.shown == Some(t.feed.generation))
  {
    var n, g := |s.cycles|, s.feed.generation;
    var s1 := s.(feed := s.feed.(running := true), cycles := s.cycles + [Collecting(g)]);
    if kind.Usage? {
      var s2 := s.(feed := s.feed.(shown := None), cycles := s.cycles + [Checking(g, true)]);
      var s3 := s2.(disk := map[], cycles := s.cycles + [Ended]);
      assert Step(kind, s1, Finish(n, Lost)) == s2 && Step(kind, s2, Check(n, false)) == s3;
      RunOf(kind, s2, Check(n, false), [], s3);
      RunOf(kind, s1, Finish(n, Lost), [Check(n, false)] + [], s2);
      RunOf(kind, s, Start, [Finish(n, Lost)] + ([Check(n, false)] + []), s1);
    } else {
      var s2 := s.(cycles := s.cycles + [Resetting(g)]);
      var s3 := s.(feed := Guarded(g + 1, false, Some(g + 1)), cycles := s.cycles + [Clearing], past := g + 1);
      var s4 := s3.(disk := map[], cycles := s.cycles + [Ended]);
      assert Step(kind, s1, Finish(n, Lost)) == s2 && Step(kind, s2, ThreadReset(n)) == s3 && Step(kind, s3, ThreadClear(n)) == s4;
      RunOf(kind, s3, ThreadClear(n), [], s4);
      RunOf(kind, s2, ThreadReset(n), [ThreadClear(n)] + [], s3);
      RunOf(kind, s1, Finish(n, Lost), [ThreadReset(n)] + ([ThreadClear(n)] + []), s2);
      RunOf(kind, s, Start, [Finish(n, Lost)] + ([ThreadReset(n)] + ([ThreadClear(n)] + [])), s1);
    }
  }

  /** One of the usage that found nothing new leaves what is shown and what is saved. */
  lemma NothingChangesNothing(s: State)
    requires !s.feed.running
    ensures var n := |s.cycles|; var events := [Start] + ([Finish(n, Nothing)] + ([Check(n, false)] + []));
      ValidRun(Usage, s, events) && Run(Usage, s, events) == s.(cycles := s.cycles + [Ended])
  {
    var n, g := |s.cycles|, s.feed.generation;
    var s1 := s.(feed := s.feed.(running := true), cycles := s.cycles + [Collecting(g)]);
    var s2 := s.(cycles := s.cycles + [Checking(g, false)]);
    var s3 := s.(cycles := s.cycles + [Ended]);
    assert Step(Usage, s1, Finish(n, Nothing)) == s2 && Step(Usage, s2, Check(n, false)) == s3;
    RunOf(Usage, s2, Check(n, false), [], s3);
    RunOf(Usage, s1, Finish(n, Nothing), [Check(n, false)] + [], s2);
    RunOf(Usage, s, Start, [Finish(n, Nothing)] + ([Check(n, false)] + []), s1);
  }

  /** Token history one thread read and saved in the first generation, before the thread's last check. */
  const Saved := State(Guarded(0, false, Some(0)), [Saving(0, [])], 0, map[Records := 0, Responses := 0], 0)

  lemma SavedIsReached()
    ensures var events := [Start, Finish(0, Kept), Save(0, true), Save(0, true)];
      ValidRun(Usage, First(Usage), events) && Run(Usage, First(Usage), events) == Saved
  {
    var s1 := State(Guarded(0, true, None), [Collecting(0)], 0, map[], 0);
    var s2 := State(Guarded(0, false, Some(0)), [Saving(0, [Records, Responses])], 0, map[], 0);
    var s3 := State(Guarded(0, false, Some(0)), [Saving(0, [Responses])], 0, map[Records := 0], 0);
    assert Step(Usage, First(Usage), Start) == s1 && Step(Usage, s1, Finish(0, Kept)) == s2;
    assert [Records, Responses][1..] == [Responses] && [Responses][1..] == [];
    assert Step(Usage, s2, Save(0, true)) == s3 && Step(Usage, s3, Save(0, true)) == Saved;
    RunOfOne(Usage, s3, Save(0, true), []);
    RunOfOne(Usage, s2, Save(0, true), [Save(0, true)]);
    RunOfOne(Usage, s1, Finish(0, Kept), [Save(0, true), Save(0, true)]);
    RunOfOne(Usage, First(Usage), Start, [Finish(0, Kept), Save(0, true), Save(0, true)]);
  }

  /** From there a bare reset that is not covered leaves the documents, though every thread has ended. */
  lemma BareResetLeavesDocuments()
    ensures var events := [Check(0, false), BareReset];
      && ValidRun(Usage, Saved, events)
      && var s := Run(Usage, Saved, events); Finished(s, 0) && Records in s.disk && s.disk[Records] == 0 < s.feed.generation
    ensures !Covered(Step(Usage, Saved, Check(0, false)))
  {
    var s1 := Step(Usage, Saved, Check(0, false));
    assert s1.cycles == [Ended];
    RunOfOne(Usage, s1, BareReset, []);
    RunOfOne(Usage, Saved, Check(0, false), [BareReset]);
    assert s1.disk[Records] == s1.feed.generation;
  }

  lemma RunOfOne(kind: Kind, s: State, e: Event, rest: seq<Event>)
    requires Enabled(s, e) && ValidRun(kind, Step(kind, s, e), rest)
    ensures ValidRun(kind, s, [e] + rest)
    ensures Run(kind, s, [e] + rest) == Run(kind, Step(kind, s, e), rest)
  {
    assert ([e] + rest)[1..] == rest;
  }
}
