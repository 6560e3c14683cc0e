/** The reading protocol of the dashboard service (dashboard/service.py): page fetches, background
    passes, head beats and the forgetting of what a restart handed over all share one reading, one
    refresh slot and one disk store. Each event below is one section the source runs under its
    condition, or one store write, so a run is any interleaving of its threads. */
module Service {
  import opened Common
  import opened HeadState

  const STALE_GRACE_SECONDS := 180

  datatype Code =
    AuthenticationFailed | Forbidden | NotFound | RateLimited | Unavailable | InvalidResponse | BudgetExhausted | Loading

  predicate Private(code: Code) { code.AuthenticationFailed? || code.Forbidden? || code.NotFound? }

  datatype Config = Config(allRepositories: bool, repositories: seq<string>)

  // What a pass reads

  datatype PullRead =
    | Detailed(raw: Pull, head: Option<Head>, at: int)
    | FromStore(detail: Pull, head: Option<Head>, at: int)
    | Blank(number: int, headSha: Option<string>)

  datatype RowRead = RowRead(repository: string, sampledAt: Option<int>, pulls: seq<PullRead>)

  datatype Answer =
    | Collected(sampledAt: int, rows: seq<RowRead>, errors: map<string, Code>, otherCodes: set<Code>, names: Option<seq<string>>)
    | Failed(code: Code)
    | Crashed

  function FreshPull(read: PullRead): Pull
  {
    match read
    case Detailed(raw, head, at) => RememberPull(raw, head, at)
    case FromStore(detail, head, at) => ShowStored(detail, head, at)
    case Blank(number, sha) => Pull(number, sha, Some(false), false, None, None, None, false, None)
  }

  function FreshRow(read: RowRead, sampledAt: int): Row
  {
    Row(read.repository, false, false, false,
        if read.sampledAt.Some? then read.sampledAt else Some(sampledAt), Mapped(FreshPull, read.pulls))
  }

  /** This pass read the checks of this pull request at this time. */
  predicate ReadIn(answer: Answer, repository: string, number: int, at: int)
  {
    && answer.Collected?
    && (exists row :: row in answer.rows && row.repository == repository
          && (exists pull :: pull in row.pulls && pull.Detailed? && pull.raw.number == number && pull.at == at))
  }

  predicate WasRead(collected: seq<Answer>, repository: string, number: int, at: int)
  {
    exists a :: a in collected && ReadIn(a, repository, number, at)
  }

  // Merging a pass with the last reading

  function FindRow(rows: seq<Row>, repository: string): (r: Option<Row>)
    ensures r.Some? ==> r.value in rows && r.value.repository == repository
    ensures r.None? ==> forall row :: row in rows ==> row.repository != repository
    decreases |rows|
  {
    if rows == [] then None
    else
      var last := rows[|rows| - 1];
      if last.repository == repository then Some(last) else FindRow(rows[..|rows| - 1], repository)
  }

  function UnavailableRow(repository: string): Row
  {
    Row(repository, false, false, true, None, [])
  }

  function FreshRows(answer: Answer): seq<Row>
    requires answer.Collected?
  {
    seq(|answer.rows|, i requires 0 <= i < |answer.rows| => FreshRow(answer.rows[i], answer.sampledAt))
  }

  /** What a name the pass did not read is left with: its last observation as stale while access holds,
      else an unavailable row. */
  function MissedRow(last: Option<Row>, errors: map<string, Code>, name: string): Row
  {
    var code := if name in errors then errors[name] else Unavailable;
    if last.Some? && !Private(code) && last.value.sampledAt.Some? then last.value.(stale := true) else UnavailableRow(name)
  }

  function MergedRow(taken: seq<Row>, lastRows: seq<Row>, errors: map<string, Code>, name: string): Row
  {
    var read := FindRow(taken, name);
    if read.Some? then read.value else MissedRow(FindRow(lastRows, name), errors, name)
  }

  function OldRows(previous: Option<Reading>): seq<Row>
  {
    if previous.Some? then previous.value.rows else []
  }

  function Names(config: Config, answer: Answer): Option<seq<string>>
    requires answer.Collected?
  {
    if config.allRepositories then answer.names else Some(config.repositories)
  }

  function MergedReading(answer: Answer, names: seq<string>, previous: Option<Reading>): Reading
    requires answer.Collected?
  {
    Reading(false, false, Some(answer.sampledAt), None,
            seq(|names|, i requires 0 <= i < |names| =>
              MergedRow(FreshRows(answer), OldRows(previous), answer.errors, names[i])))
  }

  /** The rows by repository, as a dictionary filled in order keeps them. */
  method ByName(rows: seq<Row>) returns (m: map<string, Row>)
    ensures forall name :: FindRow(rows, name) == if name in m then Some(m[name]) else None
  {
    m := map[];
    for i := 0 to |rows|
      invariant forall name :: FindRow(rows[..i], name) == if name in m then Some(m[name]) else None
    {
      assert rows[..i + 1][..i] == rows[..i];
      m := m[rows[i].repository := rows[i]];
    }
    assert rows[..|rows|] == rows;
  }

  /** Every name in the dictionary has its merged row, and every name the pass read is in it. */
  predicate Filled(current: map<string, Row>, taken: seq<Row>, lastRows: seq<Row>, errors: map<string, Code>)
  {
    && (forall name :: name in current ==> current[name] == MergedRow(taken, lastRows, errors, name))
    && (forall row :: row in taken ==> row.repository in current)
  }

  lemma FilledByRead(current: map<string, Row>, taken: seq<Row>, lastRows: seq<Row>, errors: map<string, Code>)
    requires forall name :: FindRow(taken, name) == if name in current then Some(current[name]) else None
    ensures Filled(current, taken, lastRows, errors)
  {
    forall row | row in taken
      ensures row.repository in current
    {
      assert FindRow(taken, row.repository).Some?;
    }
  }

  /** One name's row, left in the dictionary when the pass did not read it. */
  method TakeName(before: map<string, Row>, last: map<string, Row>, taken: seq<Row>, lastRows: seq<Row>,
                  errors: map<string, Code>, name: string)
      returns (current: map<string, Row>, row: Row)
    requires Filled(before, taken, lastRows, errors)
    requires FindRow(lastRows, name) == if name in last then Some(last[name]) else None
    ensures Filled(current, taken, lastRows, errors) && row == MergedRow(taken, lastRows, errors, name)
  {
    current := before;
    if name !in current {
      assert FindRow(taken, name).None?;
      current := current[name := MissedRow(if name in last then Some(last[name]) else None, errors, name)];
    }
    row := current[name];
  }

  /** The dictionaries the source fills in place give every name its merged row, in the listed order. */
  method MergeRows(taken: seq<Row>, lastRows: seq<Row>, errors: map<string, Code>, names: seq<string>) returns (rows: seq<Row>)
    ensures |rows| == |names|
    ensures forall i :: 0 <= i < |names| ==> rows[i] == MergedRow(taken, lastRows, errors, names[i])
  {
    var current := ByName(taken);
    var last := ByName(lastRows);
    FilledByRead(current, taken, lastRows, errors);
    rows := [];
    for i := 0 to |names|
      invariant Filled(current, taken, lastRows, errors) && |rows| == i
      invariant forall k :: 0 <= k < i ==> rows[k] == MergedRow(taken, lastRows, errors, names[k])
    {
      var row;
      current, row := TakeName(current, last, taken, lastRows, errors, names[i]);
      rows := rows + [row];
    }
  }

  // What that leaves each name with

  predicate PullAs(pull: Pull, read: PullRead)
  {
    match read
    case Detailed(raw, _, at) => pull.number == raw.number && pull.headSha == raw.headSha && pull.checksAt == Some(at) && !pull.stale
    case FromStore(detail, head, at) => Aged(detail, pull, head, at)
    case Blank(number, sha) =>
      && pull.number == number && pull.headSha == sha && pull.mergeReady == Some(false) && !pull.stale
      && pull.checksAt.None? && pull.checksAge.None? && pull.rollup.None? && !pull.rollupKnown && pull.previousPush.None?
  }

  /** The row as the pass read it: current, of the time of its own read or else of the pass, with each pull request read. */
  predicate ReadAs(row: Row, read: RowRead, sampledAt: int)
  {
    && row.repository == read.repository && !row.restored && !row.stale && !row.unavailable
    && row.sampledAt == Some(if read.sampledAt.Some? then read.sampledAt.value else sampledAt)
    && |row.pulls| == |read.pulls| && forall k :: 0 <= k < |row.pulls| ==> PullAs(row.pulls[k], read.pulls[k])
  }

  predicate LastRead(readRows: seq<RowRead>, k: nat, name: string)
  {
    k < |readRows| && readRows[k].repository == name && forall j :: k < j < |readRows| ==> readRows[j].repository != name
  }

  predicate LastRow(rows: seq<Row>, k: nat, name: string)
  {
    k < |rows| && rows[k].repository == name && forall j :: k < j < |rows| ==> rows[j].repository != name
  }

  /** Nothing of the repository is on show. */
  predicate Blanked(row: Row, name: string)
  {
    row.repository == name && row.unavailable && row.pulls == [] && row.sampledAt.None? && !row.stale && !row.restored
  }

  /** What a listed name is left with. A name that was read has the last row read of it. A name that was not, and that the
      pass lost access to, has nothing on show. Any other keeps its last observation, marked stale, if it has one. */
  ghost predicate MergedAs(row: Row, answer: Answer, before: seq<Row>, name: string)
    requires answer.Collected?
  {
    && (forall k: nat :: LastRead(answer.rows, k, name) ==> ReadAs(row, answer.rows[k], answer.sampledAt))
    && ((forall k :: 0 <= k < |answer.rows| ==> answer.rows[k].repository != name) ==>
          var code := if name in answer.errors then answer.errors[name] else Unavailable;
          if code == AuthenticationFailed || code == Forbidden || code == NotFound then Blanked(row, name)
          else
            && (forall k: nat :: LastRow(before, k, name) && before[k].sampledAt.Some? ==> row == before[k].(stale := true))
            && ((forall k: nat :: LastRow(before, k, name) ==> before[k].sampledAt.None?) ==> Blanked(row, name)))
  }

  lemma {:induction false} FoundIsLast(rows: seq<Row>, k: nat, name: string)
    requires LastRow(rows, k, name)
    ensures FindRow(rows, name) == Some(rows[k])
    decreases |rows|
  {
    if k < |rows| - 1 { FoundIsLast(rows[..|rows| - 1], k, name); }
  }

  /** The last of the rows of a name, if there is one. */
  lemma {:induction false} LastOne(rows: seq<Row>, name: string) returns (k: nat)
    ensures LastRow(rows, k, name) || forall row :: row in rows ==> row.repository != name
    decreases |rows|
  {
    if rows == [] {
      k := 0;
    } else if rows[|rows| - 1].repository == name {
      k := |rows| - 1;
    } else {
      k := LastOne(rows[..|rows| - 1], name);
      LastApart(rows);
    }
  }

  lemma FreshPullIsAs(read: PullRead)
    ensures PullAs(FreshPull(read), read)
  {
  }

  lemma FreshRowIsAs(read: RowRead, sampledAt: int)
    ensures ReadAs(FreshRow(read, sampledAt), read, sampledAt)
  {
    forall k | 0 <= k < |read.pulls|
      ensures PullAs(FreshRow(read, sampledAt).pulls[k], read.pulls[k])
    {
      FreshPullIsAs(read.pulls[k]);
    }
  }

  lemma MergeMeans(answer: Answer, names: seq<string>, previous: Option<Reading>, i: nat)
    requires answer.Collected? && i < |names|
    ensures MergedAs(MergedReading(answer, names, previous).rows[i], answer, OldRows(previous), names[i])
  {
    var taken, before, name := FreshRows(answer), OldRows(previous), names[i];
    forall k: nat | LastRead(answer.rows, k, name)
      ensures ReadAs(MergedRow(taken, before, answer.errors, name), answer.rows[k], answer.sampledAt)
    {
      FoundIsLast(taken, k, name);
      FreshRowIsAs(answer.rows[k], answer.sampledAt);
    }
    if forall k :: 0 <= k < |answer.rows| ==> answer.rows[k].repository != name {
      assert FindRow(taken, name).None?;
      var last := LastOne(before, name);
      forall k: nat | LastRow(before, k, name)
        ensures FindRow(before, name) == Some(before[k])
      {
        FoundIsLast(before, k, name);
      }
    }
  }

  method Merge(answer: Answer, names: seq<string>, previous: Option<Reading>) returns (result: Reading)
    requires answer.Collected?
    ensures result == MergedReading(answer, names, previous)
    ensures !result.restored && !result.stale && result.sampledAt == Some(answer.sampledAt)
    ensures |result.rows| == |names|
    ensures forall i :: 0 <= i < |names| ==> MergedAs(result.rows[i], answer, OldRows(previous), names[i])
  {
    var rows := MergeRows(FreshRows(answer), OldRows(previous), answer.errors, names);
    result := Reading(false, false, Some(answer.sampledAt), None, rows);
    forall i | 0 <= i < |names|
      ensures MergedAs(result.rows[i], answer, OldRows(previous), names[i])
    {
      MergeMeans(answer, names, previous, i);
    }
  }

  function Empty(config: Config, code: Code): Reading
  {
    Reading(false, false, None, None,
            if config.allRepositories then []
            else seq(|config.repositories|, i requires 0 <= i < |config.repositories| => UnavailableRow(config.repositories[i])))
  }

  function Transient(previous: Reading): Reading
  {
    previous.(stale := true,
              rows := seq(|previous.rows|, i requires 0 <= i < |previous.rows| =>
                if previous.rows[i].sampledAt.Some? then previous.rows[i].(stale := true) else previous.rows[i]))
  }

  function TransientOrEmpty(config: Config, previous: Option<Reading>, code: Code): Reading
  {
    if previous.Some? then Transient(previous.value) else Empty(config, code)
  }

  // What a restart hands over, and forgetting it

  function OldReading(reading: Reading): Reading
  {
    reading.(restored := true, stale := true,
             rows := seq(|reading.rows|, i requires 0 <= i < |reading.rows| =>
               reading.rows[i].(restored := true, stale := reading.rows[i].stale || !reading.rows[i].unavailable)))
  }

  function WithoutKept(github: Option<Reading>): Option<Reading>
  {
    if github.None? || github.value.restored then None
    else Some(github.value.(rows := seq(|github.value.rows|, i requires 0 <= i < |github.value.rows| =>
      if github.value.rows[i].restored then UnavailableRow(github.value.rows[i].repository) else github.value.rows[i])))
  }

  predicate Clean(reading: Reading) { !reading.restored && forall row :: row in reading.rows ==> !row.restored }

  predicate AllClean(readings: set<Reading>) { forall r :: r in readings ==> Clean(r) }

  // What the threads share

  datatype Shared = Shared(
    github: Option<Reading>, githubAt: Option<int>, refreshing: bool, beating: bool,
    kept: bool, forgets: nat, clearBeforePass: bool)

  datatype Name = ReadingName | JobsName | ResponsesName

  /** `handedOver` marks what an earlier process wrote, or what holds a cache it handed over. */
  datatype Document = Document(reading: Option<Reading>, handedOver: bool)

  /** Where the pass under way is. `forgets` is the count it took when it started, and `previous` the reading. A crash is
      caught from the read until the last save, also past a revocation; `keep` says that the pass saves what it merged. */
  datatype Pass =
    | Idle
    | Claimed
    | Began(previous: Option<Reading>, forgets: nat, clear: bool)
    | Revoking(previous: Option<Reading>, result: Reading, forgets: nat, caught: bool)
    | Merged(previous: Option<Reading>, result: Reading, forgets: nat, keep: bool)
    | Saving(previous: Option<Reading>, result: Reading, forgets: nat, rest: seq<Name>)
    | Crashing(previous: Option<Reading>, forgets: nat)
    | CrashClearing(previous: Option<Reading>, forgets: nat)
    | Done(result: Reading, forgets: nat)

  /** Where the beat under way is. `over` numbers the reading it copied. */
  datatype Beat =
    | Resting
    | Asking(copied: Reading, generation: Option<int>, forgets: nat, over: nat)
    | Refused(code: Code, generation: Option<int>, forgets: nat, over: nat)
    | Answered(updated: Option<Reading>, generation: Option<int>, forgets: nat, over: nat)

  /** `clears` counts forgetting threads that have not cleared the disk yet, `installs` the readings
      installed so far, and `collected` what passes of this process have read. */
  datatype State = State(
    shared: Shared, pass: Pass, beat: Beat, clears: nat, cachesOld: bool,
    disk: map<Name, Document>, installs: nat, collected: seq<Answer>)

  datatype Event =
    | Restart(usable: set<Name>, usage: bool)
    | Claim
    | Start
    | ClearCaches
    | Collect(answer: Answer)
    | Revoke
    | CheckKeep
    | Save(written: bool)
    | Crash
    | CrashForget
    | CrashClear
    | Publish(completed: int)
    | BeginBeat
    | BeatRead(heads: seq<Head>, now: int, complete: bool)
    | BeatFailed(code: Option<Code>)
    | BeatRevoke
    | EndBeat
    | Forget
    | ForgetClear

  // The sections run under the condition

  function ForgetSection(sh: Shared): Shared
  {
    if sh.kept then sh.(kept := false, forgets := sh.forgets + 1, clearBeforePass := true, github := WithoutKept(sh.github))
    else sh
  }

  function PublishSection(config: Config, sh: Shared, result: Reading, forgets: nat, completed: int): Shared
  {
    var shown :=
      if sh.forgets == forgets then result
      else
        var clean := WithoutKept(Some(result));
        if clean.Some? then clean.value else Empty(config, Unavailable);
    sh.(github := Some(shown), githubAt := Some(completed), refreshing := false)
  }

  predicate Installs(sh: Shared, updated: Option<Reading>, generation: Option<int>, forgets: nat)
  {
    updated.Some? && !sh.refreshing && sh.githubAt == generation && sh.forgets == forgets
  }

  function EndBeatSection(sh: Shared, updated: Option<Reading>, generation: Option<int>, forgets: nat): Shared
  {
    sh.(beating := false, github := if Installs(sh, updated, generation, forgets) then updated else sh.github)
  }

  /** The service's fields, changed only inside those sections. */
  class DashboardService {
    const config: Config
    var github: Option<Reading>
    var githubAt: Option<int>
    var refreshing: bool
    var beating: bool
    var kept: bool
    var forgets: nat
    var clearBeforePass: bool

    function Fields(): Shared
      reads this
    {
      Shared(github, githubAt, refreshing, beating, kept, forgets, clearBeforePass)
    }

    constructor (config: Config, stored: Option<Reading>, found: bool)
      ensures this.config == config
      ensures Fields() == Restored(stored, found)
    {
      this.config := config;
      github := if stored.Some? then Some(OldReading(stored.value)) else None;
      githubAt := if stored.Some? then None else Some(0);
      kept := found || stored.Some?;
      refreshing, beating, forgets, clearBeforePass := false, false, 0, false;
    }

    method ClaimPass(due: bool) returns (claimed: bool)
      modifies this
      ensures claimed == (due && !old(refreshing) && !old(beating))
      ensures Fields() == old(Fields()).(refreshing := old(refreshing) || claimed)
    {
      claimed := due && !refreshing && !beating;
      if claimed { refreshing := true; }
    }

    method StartPass() returns (previous: Option<Reading>, count: nat, clear: bool)
      modifies this
      ensures previous == old(github) && count == old(forgets) && clear == old(clearBeforePass)
      ensures Fields() == old(Fields()).(clearBeforePass := false)
    {
      previous, count, clear := github, forgets, clearBeforePass;
      clearBeforePass := false;
    }

    method ForgetKept() returns (had: bool)
      modifies this
      ensures had == old(kept)
      ensures Fields() == ForgetSection(old(Fields()))
    {
      had, kept := kept, false;
      if had {
        forgets := forgets + 1;
        clearBeforePass := true;
        github := WithoutKept(github);
      }
    }

    method PublishPass(result: Reading, count: nat, completed: int) returns (clearStore: bool)
      modifies this
      ensures clearStore == (old(forgets) != count)
      ensures Fields() == PublishSection(config, old(Fields()), result, count, completed)
    {
      var shown := result;
      clearStore := forgets != count;
      if clearStore {
        var clean := WithoutKept(Some(result));
        shown := if clean.Some? then clean.value else Empty(config, Unavailable);
      }
      github, githubAt, refreshing := Some(shown), Some(completed), false;
    }

    method StartBeat(due: bool) returns (copied: Option<Reading>, generation: Option<int>, count: nat)
      modifies this
      ensures copied == if due && !old(refreshing) && !old(beating) then old(github) else None
      ensures generation == old(githubAt) && count == old(forgets)
      ensures Fields() == old(Fields()).(beating := old(beating) || copied.Some?)
    {
      copied, generation, count := None, githubAt, forgets;
      if !refreshing && !beating && github.Some? && due {
        beating := true;
        copied := github;
      }
    }

    method FinishBeat(answer: Option<Reading>, generation: Option<int>, count: nat) returns (updated: Option<Reading>)
      modifies this
      ensures updated == if Installs(old(Fields()), answer, generation, count) then answer else None
      ensures Fields() == EndBeatSection(old(Fields()), answer, generation, count)
    {
      updated := answer;
      beating := false;
      if updated.None? || refreshing || githubAt != generation || forgets != count {
        updated := None;
      } else {
        github := updated;
      }
    }
  }

  function Restored(stored: Option<Reading>, found: bool): Shared
  {
    Shared(if stored.Some? then Some(OldReading(stored.value)) else None, if stored.Some? then None else Some(0),
           false, false, found || stored.Some?, 0, false)
  }

  // One event of a run

  function StoredReading(disk: map<Name, Document>): Option<Reading>
  {
    if ReadingName in disk then disk[ReadingName].reading else None
  }

  predicate Enabled(s: State, e: Event)
  {
    match e
    case Restart(_, _) => true
    case Claim => !s.shared.refreshing && !s.shared.beating
    case Start => s.pass.Claimed?
    case ClearCaches => s.pass.Began? && s.pass.clear
    case Collect(_) => s.pass.Began? && !s.pass.clear
    case Revoke => s.pass.Revoking?
    case CheckKeep => s.pass.Merged?
    case Save(_) => s.pass.Saving? && s.pass.rest != []
    case Crash => s.pass.Merged? || (s.pass.Saving? && s.pass.rest != [])
    case CrashForget => s.pass.Crashing?
    case CrashClear => s.pass.CrashClearing?
    case Publish(_) => s.pass.Done? || (s.pass.Saving? && s.pass.rest == [])
    case BeginBeat => !s.shared.refreshing && !s.shared.beating && s.shared.github.Some?
    case BeatRead(_, _, _) => s.beat.Asking?
    case BeatFailed(_) => s.beat.Asking?
    case BeatRevoke => s.beat.Refused?
    case EndBeat => s.beat.Answered?
    case Forget => true
    case ForgetClear => s.clears > 0
  }

  function AfterCollect(config: Config, previous: Option<Reading>, forgets: nat, answer: Answer): Pass
  {
    match answer
    case Crashed => Crashing(previous, forgets)
    case Failed(code) =>
      if Private(code) then Revoking(previous, Empty(config, code), forgets, false)
      else Done(TransientOrEmpty(config, previous, code), forgets)
    case Collected(_, _, errors, otherCodes, _) =>
      var revoked := exists code :: code in errors.Values + otherCodes && Private(code);
      var names := Names(config, answer);
      var result := if names.Some? then MergedReading(answer, names.value, previous)
                    else TransientOrEmpty(config, previous, InvalidResponse);
      if revoked then Revoking(previous, result, forgets, true)
      else if names.Some? then Merged(previous, result, forgets, true)
      else Done(result, forgets)
  }

  function Written(s: State, name: Name): Document
    requires s.pass.Saving?
  {
    if name.ReadingName? then Document(Some(s.pass.result), false) else Document(None, s.cachesOld)
  }

  function Restarted(s: State, usable: set<Name>, usage: bool): State
  {
    var disk := map name | name in s.disk && name in usable :: s.disk[name].(handedOver := true);
    var caches := JobsName in disk || ResponsesName in disk;
    State(Restored(StoredReading(disk), caches || usage), Idle, Resting, 0, caches, disk, s.installs + 1, [])
  }

  function Step(config: Config, s: State, e: Event): State
    requires Enabled(s, e)
  {
    match e
    case Restart(usable, usage) => Restarted(s, usable, usage)
    case Claim => s.(shared := s.shared.(refreshing := true), pass := Claimed)
    case Start =>
      s.(shared := s.shared.(clearBeforePass := false),
         pass := Began(s.shared.github, s.shared.forgets, s.shared.clearBeforePass))
    case ClearCaches => s.(cachesOld := false, pass := s.pass.(clear := false))
    case Collect(answer) =>
      s.(collected := s.collected + [answer], pass := AfterCollect(config, s.pass.previous, s.pass.forgets, answer))
    case Revoke =>
      s.(cachesOld := false, disk := map[],
         pass := if s.pass.caught then Merged(s.pass.previous, s.pass.result, s.pass.forgets, false)
                 else Done(s.pass.result, s.pass.forgets))
    case CheckKeep =>
      s.(pass := if s.pass.keep && s.shared.forgets == s.pass.forgets
                 then Saving(s.pass.previous, s.pass.result, s.pass.forgets, [ReadingName, JobsName, ResponsesName])
                 else Done(s.pass.result, s.pass.forgets))
    case Save(written) =>
      s.(disk := if written then s.disk[s.pass.rest[0] := Written(s, s.pass.rest[0])] else s.disk,
         pass := s.pass.(rest := s.pass.rest[1..]))
    case Crash => s.(pass := Crashing(s.pass.previous, s.pass.forgets))
    case CrashForget =>
      s.(shared := ForgetSection(s.shared),
         installs := if s.shared.kept then s.installs + 1 else s.installs,
         pass := if s.shared.kept then CrashClearing(s.pass.previous, s.pass.forgets)
                 else Done(TransientOrEmpty(config, s.pass.previous, Unavailable), s.pass.forgets))
    case CrashClear =>
      s.(disk := map[], pass := Done(TransientOrEmpty(config, s.pass.previous, Unavailable), s.pass.forgets))
    case Publish(completed) =>
      s.(shared := PublishSection(config, s.shared, s.pass.result, s.pass.forgets, completed), pass := Idle,
         installs := s.installs + 1,
         disk := if s.shared.forgets == s.pass.forgets then s.disk else map[])
    case BeginBeat =>
      s.(shared := s.shared.(beating := true),
         beat := Asking(s.shared.github.value, s.shared.githubAt, s.shared.forgets, s.installs))
    case BeatRead(heads, now, complete) =>
      s.(beat := Answered(Some(ApplyHeadReading(s.beat.copied, heads, now, complete)),
                          s.beat.generation, s.beat.forgets, s.beat.over))
    case BeatFailed(code) =>
      s.(beat := if code.Some? && Private(code.value) then Refused(code.value, s.beat.generation, s.beat.forgets, s.beat.over)
                 else Answered(None, s.beat.generation, s.beat.forgets, s.beat.over))
    case BeatRevoke =>
      s.(cachesOld := false, disk := map[],
         beat := Answered(Some(Empty(config, s.beat.code)), s.beat.generation, s.beat.forgets, s.beat.over))
    case EndBeat =>
      s.(shared := EndBeatSection(s.shared, s.beat.updated, s.beat.generation, s.beat.forgets), beat := Resting,
         installs := if Installs(s.shared, s.beat.updated, s.beat.generation, s.beat.forgets) then s.installs + 1 else s.installs)
    case Forget =>
      s.(shared := ForgetSection(s.shared), clears := if s.shared.kept then s.clears + 1 else s.clears,
         installs := if s.shared.kept then s.installs + 1 else s.installs)
    case ForgetClear => s.(clears := s.clears - 1, disk := map[])
  }

  const First: State := State(Restored(None, false), Idle, Resting, 0, false, map[], 0, [])

  /** A run begins with nothing read, nothing kept, nothing on disk and nothing under way. */
  lemma FirstIsEmpty()
    ensures First.shared.github.None? && !First.shared.kept && !First.shared.clearBeforePass && !First.cachesOld
    ensures First.shared.forgets == First.clears == First.installs == 0 && First.disk == map[] && First.collected == []
    ensures First.pass == Idle && First.beat == Resting
  {
  }

  ghost predicate ValidRun(config: Config, s: State, events: seq<Event>)
    decreases |events|
  {
    events == [] || (Enabled(s, events[0]) && ValidRun(config, Step(config, s, events[0]), events[1..]))
  }

  ghost function Run(config: Config, s: State, events: seq<Event>): State
    requires ValidRun(config, s, events)
    decreases |events|
  {
    if events == [] then s else Run(config, Step(config, s, events[0]), events[1..])
  }

  // What a pass, a beat, a restart and a forgetting leave when nothing comes between

  /** One of the three codes that say access is gone. */
  predicate IsLost(code: Code) { code == AuthenticationFailed || code == Forbidden || code == NotFound }

  /** The names a pass reports on: those configured, or those it found. */
  predicate NamesAre(config: Config, answer: Answer, names: seq<string>)
    requires answer.Collected?
  {
    if config.allRepositories then answer.names == Some(names) else names == config.repositories
  }

  /** Every name has its merged row, in the listed order. */
  ghost predicate MergedFrom(reading: Reading, answer: Answer, previous: Option<Reading>, names: seq<string>)
    requires answer.Collected?
  {
    && !reading.restored && !reading.stale && reading.sampledAt == Some(answer.sampledAt) && reading.headsAt.None?
    && |reading.rows| == |names|
    && forall i :: 0 <= i < |names| ==> MergedAs(reading.rows[i], answer, if previous.Some? then previous.value.rows else [], names[i])
  }

  /** The last reading as a pass that could not read leaves it: every row that was ever sampled is stale, and nothing else
      changes. Without one, every configured name is blank. */
  predicate KeptStale(reading: Reading, config: Config, previous: Option<Reading>)
  {
    if previous.None? then AllBlank(reading, config)
    else
      && reading == previous.value.(stale := true, rows := reading.rows) && |reading.rows| == |previous.value.rows|
      && forall i :: 0 <= i < |reading.rows| ==>
           var was := previous.value.rows[i];
           reading.rows[i] == if was.sampledAt.Some? then was.(stale := true) else was
  }

  predicate AllBlank(reading: Reading, config: Config)
  {
    && !reading.restored && !reading.stale && reading.sampledAt.None? && reading.headsAt.None?
    && |reading.rows| == (if config.allRepositories then 0 else |config.repositories|)
    && forall i :: 0 <= i < |reading.rows| ==> Blanked(reading.rows[i], config.repositories[i])
  }

  lemma EmptyIsBlank(config: Config, code: Code)
    ensures AllBlank(Empty(config, code), config)
  {
  }

  lemma TransientIsKept(config: Config, previous: Option<Reading>, code: Code)
    ensures KeptStale(TransientOrEmpty(config, previous, code), config, previous)
  {
  }

  /** Where a pass goes from its answer, and with what. */
  lemma CollectMeans(config: Config, previous: Option<Reading>, forgets: nat, answer: Answer)
    ensures var next := AfterCollect(config, previous, forgets, answer);
      match answer
      case Crashed => next == Crashing(previous, forgets)
      case Failed(code) =>
        if IsLost(code) then next.Revoking? && !next.caught && next.forgets == forgets && AllBlank(next.result, config)
        else next.Done? && next.forgets == forgets && KeptStale(next.result, config, previous)
      case Collected(_, _, errors, otherCodes, _) =>
        var lost := (exists code :: code in otherCodes && IsLost(code)) || exists name :: name in errors && IsLost(errors[name]);
        && !next.Crashing? && !next.Idle? && !next.Claimed? && next.forgets == forgets
        && (next.Revoking? <==> lost) && (next.Revoking? ==> next.caught && next.previous == previous)
        && (!lost ==> if exists names :: NamesAre(config, answer, names) then next.Merged? && next.keep && next.previous == previous else next.Done?)
        && (next.Revoking? || next.Merged? || next.Done?)
        && (forall names :: NamesAre(config, answer, names) ==> MergedFrom(next.result, answer, previous, names))
        && ((forall names :: !NamesAre(config, answer, names)) ==> KeptStale(next.result, config, previous))
  {
    match answer
    case Crashed =>
    case Failed(code) =>
      EmptyIsBlank(config, code);
      TransientIsKept(config, previous, code);
    case Collected(_, _, errors, otherCodes, _) =>
      CollectedCodes(errors, otherCodes);
      TransientIsKept(config, previous, InvalidResponse);
      var names := Names(config, answer);
      assert forall list :: NamesAre(config, answer, list) <==> names == Some(list);
      if names.Some? {
        assert NamesAre(config, answer, names.value);
        forall i | 0 <= i < |names.value|
          ensures MergedAs(MergedReading(answer, names.value, previous).rows[i], answer, OldRows(previous), names.value[i])
        {
          MergeMeans(answer, names.value, previous, i);
        }
      }
  }

  lemma CollectedCodes(errors: map<string, Code>, otherCodes: set<Code>)
    ensures (exists code :: code in errors.Values + otherCodes && Private(code)) <==>
      ((exists code :: code in otherCodes && IsLost(code)) || exists name :: name in errors && IsLost(errors[name]))
  {
    forall name | name in errors
      ensures errors[name] in errors.Values + otherCodes
    {
    }
    if code :| code in errors.Values + otherCodes && Private(code) {
      if code in errors.Values {
        var name :| name in errors && errors[name] == code;
      }
    }
    if code :| code in otherCodes && IsLost(code) {
      assert code in errors.Values + otherCodes;
    }
  }

  lemma RunOf(config: Config, s: State, e: Event, events: seq<Event>, t: State)
    requires Enabled(s, e) && Step(config, s, e) == t && ValidRun(config, t, events)
    ensures ValidRun(config, s, [e] + events) && Run(config, s, [e] + events) == Run(config, t, events)
  {
    assert ([e] + events)[1..] == events;
  }

  /** Nothing is under way, and the caches are not to be cleared. */
  predicate Quiet(s: State)
  {
    s.pass.Idle? && s.beat.Resting? && !s.shared.refreshing && !s.shared.beating && !s.shared.clearBeforePass
  }

  /** What a pass of this process writes, next to the caches as they are. */
  function Documents(reading: Reading, cachesOld: bool): map<Name, Document>
  {
    map[ReadingName := Document(Some(reading), false), JobsName := Document(None, cachesOld), ResponsesName := Document(None, cachesOld)]
  }

  lemma AllNames(disk: map<Name, Document>, other: map<Name, Document>)
    requires forall name :: name in {ReadingName, JobsName, ResponsesName} ==> name in disk && name in other && disk[name] == other[name]
    ensures disk == other
  {
    forall name | name in disk.Keys + other.Keys
      ensures name in disk && name in other && disk[name] == other[name]
    {
      match name
      case ReadingName =>
      case JobsName =>
      case ResponsesName =>
    }
    assert disk.Keys == other.Keys;
  }

  /** The steps of a pass that reads, saves and publishes. */
  function SavingPass(answer: Answer, completed: int): seq<Event>
  {
    [Claim] + ([Start] + ([Collect(answer)] + ([CheckKeep] + ([Save(true)] + ([Save(true)] + ([Save(true)] + ([Publish(completed)] + [])))))))
  }

  /** A pass that read every name and lost no access shows what it read, and keeps it on disk. */
  lemma PassShowsAndSaves(config: Config, s: State, answer: Answer, names: seq<string>, completed: int)
    requires Quiet(s) && answer.Collected? && NamesAre(config, answer, names)
    requires (forall code :: code in answer.otherCodes ==> !IsLost(code)) && forall name :: name in answer.errors ==> !IsLost(answer.errors[name])
    ensures ValidRun(config, s, SavingPass(answer, completed))
    ensures var t := Run(config, s, SavingPass(answer, completed));
      && t.shared.github.Some? && MergedFrom(t.shared.github.value, answer, s.shared.github, names)
      && t.shared == s.shared.(github := t.shared.github, githubAt := Some(completed))
      && t.disk == Documents(t.shared.github.value, s.cachesOld) && Quiet(t) && t.collected == s.collected + [answer]
  {
    CollectMeans(config, s.shared.github, s.shared.forgets, answer);
    assert !exists code :: code in answer.otherCodes && IsLost(code);
    var merged := AfterCollect(config, s.shared.github, s.shared.forgets, answer);
    SavedRun(config, s, answer, merged.previous, merged.result, completed);
  }

  lemma SavedRun(config: Config, s: State, answer: Answer, previous: Option<Reading>, result: Reading, completed: int)
    requires Quiet(s) && AfterCollect(config, s.shared.github, s.shared.forgets, answer) == Merged(previous, result, s.shared.forgets, true)
    ensures ValidRun(config, s, SavingPass(answer, completed))
    ensures Run(config, s, SavingPass(answer, completed)) ==
      s.(shared := s.shared.(github := Some(result), githubAt := Some(completed)), disk := Documents(result, s.cachesOld),
         installs := s.installs + 1, collected := s.collected + [answer])
  {
    var forgets := s.shared.forgets;
    var s1 := s.(shared := s.shared.(refreshing := true), pass := Claimed);
    var s2 := s1.(pass := Began(s.shared.github, forgets, false));
    var s3 := s1.(pass := Merged(previous, result, forgets, true), collected := s.collected + [answer]);
    var s4 := s3.(pass := Saving(previous, result, forgets, [ReadingName, JobsName, ResponsesName]));
    var saves := [Save(true)] + ([Save(true)] + ([Save(true)] + ([Publish(completed)] + [])));
    assert Step(config, s, Claim) == s1 && Step(config, s1, Start) == s2;
    assert Step(config, s2, Collect(answer)) == s3 && Step(config, s3, CheckKeep) == s4;
    SavesThree(config, s4, completed);
    RunOf(config, s3, CheckKeep, saves, s4);
    RunOf(config, s2, Collect(answer), [CheckKeep] + saves, s3);
    RunOf(config, s1, Start, [Collect(answer)] + ([CheckKeep] + saves), s2);
    RunOf(config, s, Claim, [Start] + ([Collect(answer)] + ([CheckKeep] + saves)), s1);
  }

  /** The three writes of a pass, and its publishing. */
  lemma SavesThree(config: Config, s: State, completed: int)
    requires s.pass.Saving? && s.pass.rest == [ReadingName, JobsName, ResponsesName] && s.pass.forgets == s.shared.forgets
    ensures var events := [Save(true)] + ([Save(true)] + ([Save(true)] + ([Publish(completed)] + [])));
      && ValidRun(config, s, events)
      && Run(config, s, events) ==
         s.(shared := s.shared.(github := Some(s.pass.result), githubAt := Some(completed), refreshing := false), pass := Idle,
            disk := Documents(s.pass.result, s.cachesOld), installs := s.installs + 1)
  {
    var result, caches := s.pass.result, Document(None, s.cachesOld);
    var s5 := s.(pass := s.pass.(rest := [JobsName, ResponsesName]), disk := s.disk[ReadingName := Document(Some(result), false)]);
    var s6 := s.(pass := s.pass.(rest := [ResponsesName]), disk := s5.disk[JobsName := caches]);
    var s7 := s.(pass := s.pass.(rest := []), disk := s6.disk[ResponsesName := caches]);
    var s8 := s7.(shared := s.shared.(github := Some(result), githubAt := Some(completed), refreshing := false), pass := Idle,
                  installs := s.installs + 1);
    assert [ReadingName, JobsName, ResponsesName][1..] == [JobsName, ResponsesName];
    assert [JobsName, ResponsesName][1..] == [ResponsesName] && [ResponsesName][1..] == [];
    AllNames(s7.disk, Documents(result, s.cachesOld));
    assert Step(config, s, Save(true)) == s5 && Step(config, s5, Save(true)) == s6 && Step(config, s6, Save(true)) == s7;
    assert Step(config, s7, Publish(completed)) == s8;
    var e8 := [Publish(completed)] + [];
    RunOf(config, s7, Publish(completed), [], s8);
    RunOf(config, s6, Save(true), e8, s7);
    RunOf(config, s5, Save(true), [Save(true)] + e8, s6);
    RunOf(config, s, Save(true), [Save(true)] + ([Save(true)] + e8), s5);
  }

  /** The steps of a pass that lost access: for some of what it read, or for all of it. */
  function RevokingPass(answer: Answer, completed: int): seq<Event>
  {
    [Claim] + ([Start] + ([Collect(answer)] + ([Revoke] + (if answer.Collected? then [CheckKeep] + ([Publish(completed)] + []) else [Publish(completed)] + []))))
  }

  /** A pass that lost access leaves nothing of the caches and nothing on disk. What it read of the rest is shown. */
  lemma LostAccessIsDropped(config: Config, s: State, answer: Answer, completed: int)
    requires Quiet(s)
    requires match answer
      case Crashed => false
      case Failed(code) => IsLost(code)
      case Collected(_, _, errors, otherCodes, _) =>
        (exists code :: code in otherCodes && IsLost(code)) || exists name :: name in errors && IsLost(errors[name])
    ensures ValidRun(config, s, RevokingPass(answer, completed))
    ensures var t := Run(config, s, RevokingPass(answer, completed));
      && t.disk == map[] && !t.cachesOld && Quiet(t)
      && t.shared.github.Some? && t.shared == s.shared.(github := t.shared.github, githubAt := Some(completed))
      && (answer.Failed? ==> AllBlank(t.shared.github.value, config))
      && (answer.Collected? ==> forall names :: NamesAre(config, answer, names) ==>
            MergedFrom(t.shared.github.value, answer, s.shared.github, names))
  {
    CollectMeans(config, s.shared.github, s.shared.forgets, answer);
    RevokedRun(config, s, answer, completed);
  }

  lemma RevokedRun(config: Config, s: State, answer: Answer, completed: int)
    requires Quiet(s) && !answer.Crashed?
    requires var next := AfterCollect(config, s.shared.github, s.shared.forgets, answer);
      next.Revoking? && next.caught == answer.Collected? && next.forgets == s.shared.forgets
    ensures ValidRun(config, s, RevokingPass(answer, completed))
    ensures Run(config, s, RevokingPass(answer, completed)) ==
      s.(shared := s.shared.(github := Some(AfterCollect(config, s.shared.github, s.shared.forgets, answer).result), githubAt := Some(completed)),
         disk := map[], cachesOld := false, installs := s.installs + 1, collected := s.collected + [answer])
  {
    var forgets, next := s.shared.forgets, AfterCollect(config, s.shared.github, s.shared.forgets, answer);
    var s1 := s.(shared := s.shared.(refreshing := true), pass := Claimed);
    var s2 := s1.(pass := Began(s.shared.github, forgets, false));
    var s3 := s1.(pass := next, collected := s.collected + [answer]);
    var s4 := s3.(disk := map[], cachesOld := false,
                  pass := if answer.Collected? then Merged(next.previous, next.result, forgets, false) else Done(next.result, forgets));
    var s5 := s4.(pass := Done(next.result, forgets));
    var s6 := s.(shared := s.shared.(github := Some(next.result), githubAt := Some(completed)), disk := map[], cachesOld := false,
                 installs := s.installs + 1, collected := s.collected + [answer]);
    assert Step(config, s, Claim) == s1 && Step(config, s1, Start) == s2 && Step(config, s2, Collect(answer)) == s3;
    assert Step(config, s3, Revoke) == s4 && Step(config, s5, Publish(completed)) == s6;
    var e6 := [Publish(completed)] + [];
    RunOf(config, s5, Publish(completed), [], s6);
    if answer.Collected? {
      assert Step(config, s4, CheckKeep) == s5;
      RunOf(config, s4, CheckKeep, e6, s5);
    }
    var e5 := if answer.Collected? then [CheckKeep] + e6 else e6;
    RunOf(config, s3, Revoke, e5, s4);
    RunOf(config, s2, Collect(answer), [Revoke] + e5, s3);
    RunOf(config, s1, Start, [Collect(answer)] + ([Revoke] + e5), s2);
    RunOf(config, s, Claim, [Start] + ([Collect(answer)] + ([Revoke] + e5)), s1);
  }

  /** A pass that could not read, for a reason that does not take access away, keeps the last reading as stale. What it kept
      from before a restart is blamed for a crash, once, and goes. */
  lemma FailedPassKeepsLast(config: Config, s: State, code: Code, completed: int)
    requires Quiet(s) && !IsLost(code)
    ensures var events := [Claim] + ([Start] + ([Collect(Failed(code))] + ([Publish(completed)] + [])));
      && ValidRun(config, s, events)
      && var t := Run(config, s, events);
         && t.disk == s.disk && t.cachesOld == s.cachesOld && Quiet(t)
         && t.shared.github.Some? && t.shared == s.shared.(github := t.shared.github, githubAt := Some(completed))
         && KeptStale(t.shared.github.value, config, s.shared.github)
  {
    var answer := Failed(code);
    CollectMeans(config, s.shared.github, s.shared.forgets, answer);
    var forgets, next := s.shared.forgets, AfterCollect(config, s.shared.github, s.shared.forgets, answer);
    var s1 := s.(shared := s.shared.(refreshing := true), pass := Claimed);
    var s2 := s1.(pass := Began(s.shared.github, forgets, false));
    var s3 := s1.(pass := next, collected := s.collected + [answer]);
    var s4 := s.(shared := s.shared.(github := Some(next.result), githubAt := Some(completed)), installs := s.installs + 1,
                 collected := s.collected + [answer]);
    assert Step(config, s, Claim) == s1 && Step(config, s1, Start) == s2 && Step(config, s2, Collect(answer)) == s3;
    assert Step(config, s3, Publish(completed)) == s4;
    var e4 := [Publish(completed)] + [];
    RunOf(config, s3, Publish(completed), [], s4);
    RunOf(config, s2, Collect(answer), e4, s3);
    RunOf(config, s1, Start, [Collect(answer)] + e4, s2);
    RunOf(config, s, Claim, [Start] + ([Collect(answer)] + e4), s1);
  }

  /** A crash may come once the pass has read, past a revocation too, and until its last write. */
  lemma CrashMayCome(config: Config, s: State)
    ensures s.pass.Merged? ==> Enabled(s, Crash)
    ensures s.pass.Saving? ==> (Enabled(s, Crash) <==> s.pass.rest != [])
    ensures Enabled(s, Crash) ==>
      (s.pass.Merged? || s.pass.Saving?) && Step(config, s, Crash) == s.(pass := Crashing(s.pass.previous, s.pass.forgets))
  {
  }

  /** A crash forgets what a restart handed over, if anything still was: it leaves memory at once and the disk with the next
      step, and the count goes up. Otherwise it only keeps the last reading as stale. */
  lemma CrashForgetsOnce(config: Config, s: State)
    requires s.pass.Crashing? && !s.shared.kept
    ensures var t := Step(config, s, CrashForget);
      t.shared == s.shared && t.disk == s.disk && t.installs == s.installs && t.pass.Done? && t.pass.forgets == s.pass.forgets
      && KeptStale(t.pass.result, config, s.pass.previous)
  {
    TransientIsKept(config, s.pass.previous, Unavailable);
  }

  lemma CrashForgetsKept(config: Config, s: State)
    requires s.pass.Crashing? && s.shared.kept
    ensures var t := Step(config, s, CrashForget);
      && t.pass == CrashClearing(s.pass.previous, s.pass.forgets) && t.shared == ForgetSection(s.shared) && t.installs == s.installs + 1
      && var u := Step(config, t, CrashClear);
         u.disk == map[] && u.shared == t.shared && u.pass.Done? && u.pass.forgets == s.pass.forgets && KeptStale(u.pass.result, config, s.pass.previous)
  {
    TransientIsKept(config, s.pass.previous, Unavailable);
  }

  /** Forgetting takes out what was handed over and nothing else, and is done once. */
  lemma ForgettingMeans(sh: Shared)
    ensures var after := ForgetSection(sh);
      if !sh.kept then after == sh
      else
        && after == sh.(kept := false, forgets := sh.forgets + 1, clearBeforePass := true, github := after.github)
        && (after.github.None? <==> sh.github.None? || sh.github.value.restored)
        && (after.github.Some? ==> WithoutMarked(after.github.value, sh.github.value))
  {
  }

  predicate WithoutMarked(reading: Reading, was: Reading)
  {
    && reading == was.(rows := reading.rows) && |reading.rows| == |was.rows|
    && forall i :: 0 <= i < |was.rows| ==>
         if was.rows[i].restored then Blanked(reading.rows[i], was.rows[i].repository) else reading.rows[i] == was.rows[i]
  }

  /** A forgetting by a page fetch, and its thread's clear of the disk. */
  lemma ForgetThenClear(config: Config, s: State)
    ensures var t := Step(config, s, Forget);
      && t == s.(shared := ForgetSection(s.shared), clears := t.clears, installs := t.installs)
      && t.clears == s.clears + (if s.shared.kept then 1 else 0) && t.installs == s.installs + (if s.shared.kept then 1 else 0)
      && (t.clears > 0 ==> Step(config, t, ForgetClear) == t.(disk := map[], clears := t.clears - 1))
  {
  }

  /** A beat that read the heads shows them over the reading it copied. One that failed changes nothing, unless it lost access:
      then nothing is left on show, in the caches or on disk. */
  lemma BeatShowsHeads(config: Config, s: State, heads: seq<Head>, now: int, complete: bool)
    requires Quiet(s) && s.shared.github.Some?
    ensures var events := [BeginBeat] + ([BeatRead(heads, now, complete)] + ([EndBeat] + []));
      && ValidRun(config, s, events)
      && Run(config, s, events) ==
         s.(shared := s.shared.(github := Some(ApplyHeadReading(s.shared.github.value, heads, now, complete))), installs := s.installs + 1)
  {
    var sh, n := s.shared, s.installs;
    var updated := Some(ApplyHeadReading(sh.github.value, heads, now, complete));
    var s1 := s.(shared := sh.(beating := true), beat := Asking(sh.github.value, sh.githubAt, sh.forgets, n));
    var s2 := s1.(beat := Answered(updated, sh.githubAt, sh.forgets, n));
    var s3 := s.(shared := sh.(github := updated), installs := n + 1);
    assert Step(config, s, BeginBeat) == s1 && Step(config, s1, BeatRead(heads, now, complete)) == s2 && Step(config, s2, EndBeat) == s3;
    RunOf(config, s2, EndBeat, [], s3);
    RunOf(config, s1, BeatRead(heads, now, complete), [EndBeat] + [], s2);
    RunOf(config, s, BeginBeat, [BeatRead(heads, now, complete)] + ([EndBeat] + []), s1);
  }

  lemma FailedBeatChangesNothing(config: Config, s: State, code: Option<Code>)
    requires Quiet(s) && s.shared.github.Some? && (code.Some? ==> !IsLost(code.value))
    ensures var events := [BeginBeat] + ([BeatFailed(code)] + ([EndBeat] + [])); ValidRun(config, s, events) && Run(config, s, events) == s
  {
    var sh, n := s.shared, s.installs;
    var s1 := s.(shared := sh.(beating := true), beat := Asking(sh.github.value, sh.githubAt, sh.forgets, n));
    var s2 := s1.(beat := Answered(None, sh.githubAt, sh.forgets, n));
    assert Step(config, s, BeginBeat) == s1 && Step(config, s1, BeatFailed(code)) == s2 && Step(config, s2, EndBeat) == s;
    RunOf(config, s2, EndBeat, [], s);
    RunOf(config, s1, BeatFailed(code), [EndBeat] + [], s2);
    RunOf(config, s, BeginBeat, [BeatFailed(code)] + ([EndBeat] + []), s1);
  }

  lemma LostBeatIsDropped(config: Config, s: State, code: Code)
    requires Quiet(s) && s.shared.github.Some? && IsLost(code)
    ensures var events := [BeginBeat] + ([BeatFailed(Some(code))] + ([BeatRevoke] + ([EndBeat] + [])));
      && ValidRun(config, s, events)
      && var t := Run(config, s, events);
         && t.disk == map[] && !t.cachesOld && Quiet(t)
         && t.shared.github.Some? && t.shared == s.shared.(github := t.shared.github) && AllBlank(t.shared.github.value, config)
  {
    var sh, n := s.shared, s.installs;
    EmptyIsBlank(config, code);
    var s1 := s.(shared := sh.(beating := true), beat := Asking(sh.github.value, sh.githubAt, sh.forgets, n));
    var s2 := s1.(beat := Refused(code, sh.githubAt, sh.forgets, n));
    var s3 := s2.(disk := map[], cachesOld := false, beat := Answered(Some(Empty(config, code)), sh.githubAt, sh.forgets, n));
    var s4 := s.(disk := map[], cachesOld := false, shared := sh.(github := Some(Empty(config, code))), installs := n + 1);
    assert Step(config, s, BeginBeat) == s1 && Step(config, s1, BeatFailed(Some(code))) == s2;
    assert Step(config, s2, BeatRevoke) == s3 && Step(config, s3, EndBeat) == s4;
    RunOf(config, s3, EndBeat, [], s4);
    RunOf(config, s2, BeatRevoke, [EndBeat] + [], s3);
    RunOf(config, s1, BeatFailed(Some(code)), [BeatRevoke] + ([EndBeat] + []), s2);
    RunOf(config, s, BeginBeat, [BeatFailed(Some(code))] + ([BeatRevoke] + ([EndBeat] + [])), s1);
  }

  /** What a handed-over reading is: the stored one, every row marked, and every row that is available stale. */
  predicate HandedOver(reading: Reading, stored: Reading)
  {
    && reading == stored.(restored := true, stale := true, rows := reading.rows) && |reading.rows| == |stored.rows|
    && forall i :: 0 <= i < |stored.rows| ==>
         var was := stored.rows[i];
         reading.rows[i] == was.(restored := true, stale := if was.unavailable then was.stale else true)
  }

  /** A restart keeps the documents that can be used, as handed over, shows the reading among them, and starts a pass at once
      exactly when there is one. It has something to forget when any document or the token history was there. */
  lemma RestartMeans(config: Config, s: State, usable: set<Name>, usage: bool)
    ensures var t := Step(config, s, Restart(usable, usage));
      && (forall name :: name in t.disk <==> name in s.disk && name in usable)
      && (forall name :: name in t.disk ==> t.disk[name].handedOver && t.disk[name].reading == s.disk[name].reading)
      && (t.shared.github.Some? <==> ReadingName in t.disk && t.disk[ReadingName].reading.Some?)
      && (t.shared.github.Some? ==> HandedOver(t.shared.github.value, t.disk[ReadingName].reading.value))
      && t.shared.githubAt == (if t.shared.github.Some? then None else Some(0))
      && (t.shared.kept <==> t.shared.github.Some? || JobsName in t.disk || ResponsesName in t.disk || usage)
      && (t.cachesOld <==> JobsName in t.disk || ResponsesName in t.disk)
      && t.shared.forgets == 0 && Quiet(t) && t.clears == 0 && t.collected == [] && t.installs == s.installs + 1
  {
  }

  /** The constructor is that restart: what the store gave, and whether anything else was found. */
  lemma RestoredMeans(stored: Option<Reading>, found: bool)
    ensures var sh := Restored(stored, found);
      && (sh.github.Some? <==> stored.Some?) && (stored.Some? ==> HandedOver(sh.github.value, stored.value))
      && (sh.kept <==> found || stored.Some?)
  {
  }

  /** A pass that begins after a forgetting empties the caches before it reads, once. */
  lemma CachesAreClearedFirst(config: Config, s: State)
    requires s.pass.Claimed? && s.shared.clearBeforePass
    ensures var t := Step(config, s, Start);
      && !t.shared.clearBeforePass && t.pass == Began(s.shared.github, s.shared.forgets, true)
      && (forall answer :: !Enabled(t, Collect(answer)))
      && Step(config, t, ClearCaches) == t.(cachesOld := false, pass := Began(s.shared.github, s.shared.forgets, false))
  {
  }

  /** A write that fails leaves the document that was there. */
  lemma FailedSaveKeepsDocument(config: Config, s: State)
    requires Enabled(s, Save(false))
    ensures Step(config, s, Save(false)).disk == s.disk
  {
  }

  // What every event keeps

  /** The pass took its forget count before something was forgotten. */
  predicate OldPass(s: State)
  {
    !s.pass.Idle? && !s.pass.Claimed? && s.pass.forgets < s.shared.forgets
  }

  function PassReadings(pass: Pass): set<Reading>
  {
    match pass
    case Idle | Claimed => {}
    case Began(previous, _, _) => Readings(previous)
    case Crashing(previous, _) => Readings(previous)
    case CrashClearing(previous, _) => Readings(previous)
    case Revoking(previous, result, _, _) => {result} + Readings(previous)
    case Merged(previous, result, _, _) => {result} + Readings(previous)
    case Saving(previous, result, _, _) => {result} + Readings(previous)
    case Done(result, _) => {result}
  }

  function Readings(reading: Option<Reading>): set<Reading>
  {
    if reading.Some? then {reading.value} else {}
  }

  function BeatReadings(beat: Beat): set<Reading>
  {
    match beat
    case Asking(copied, _, _, _) => {copied}
    case Answered(updated, _, _, _) => Readings(updated)
    case _ => {}
  }

  predicate DiskClean(s: State)
  {
    forall name :: name in s.disk ==> !s.disk[name].handedOver && (s.disk[name].reading.Some? ==> Clean(s.disk[name].reading.value))
  }

  /** At most one pass or beat is under way, and a beat's copy is the reading on show until something is forgotten. */
  predicate Exclusive(s: State)
  {
    && (s.shared.refreshing <==> !s.pass.Idle?)
    && (s.shared.beating <==> !s.beat.Resting?)
    && (s.pass.Idle? || s.beat.Resting?)
    && (!s.beat.Resting? ==> s.beat.over <= s.installs && s.beat.forgets <= s.shared.forgets)
    && (!s.beat.Resting? && s.beat.forgets == s.shared.forgets ==>
          s.beat.over == s.installs && s.shared.githubAt == s.beat.generation
          && (s.beat.Asking? ==> s.shared.github == Some(s.beat.copied)))
  }

  predicate ForgetsOnce(s: State)
  {
    && s.shared.forgets <= 1
    && (s.shared.kept ==> s.shared.forgets == 0)
    && (!s.pass.Idle? && !s.pass.Claimed? ==> s.pass.forgets <= s.shared.forgets)
    && (!s.pass.Idle? && !s.pass.Claimed? && s.pass.forgets > 0 ==> !s.shared.clearBeforePass)
  }

  /** After it, no reading shown or on its way to be shown holds anything handed over. */
  predicate NoneShown(s: State)
  {
    && (s.shared.forgets > 0 && s.shared.github.Some? ==> Clean(s.shared.github.value))
    && (!s.pass.Idle? && !s.pass.Claimed? && s.pass.forgets > 0 ==> AllClean(PassReadings(s.pass)))
    && (!s.beat.Resting? && s.beat.forgets > 0 ==> AllClean(BeatReadings(s.beat)))
  }

  /** Some thread is still due to clear whatever the caches and the disk hold of it. */
  predicate NoneLeft(s: State)
  {
    && (s.shared.forgets > 0 && s.cachesOld ==> s.shared.clearBeforePass || (s.pass.Began? && s.pass.clear))
    && (s.shared.forgets > 0 && !DiskClean(s) ==> s.clears > 0 || s.pass.CrashClearing? || OldPass(s))
  }

  /** Forgetting happens once, and what comes after it holds nothing handed over. */
  predicate Forgotten(s: State)
  {
    ForgetsOnce(s) && NoneShown(s) && NoneLeft(s)
  }

  /** What could be shown green of one row was detailed by a pass of this process. */
  predicate HonestRow(row: Row, collected: seq<Answer>)
  {
    forall pull :: pull in row.pulls && Green(pull) ==>
      && !row.unavailable
      && (!row.stale && !pull.stale && pull.checksAt.Some? ==>
            WasRead(collected, row.repository, pull.number, pull.checksAt.value))
  }

  predicate Honest(reading: Reading, collected: seq<Answer>)
  {
    forall row :: row in reading.rows ==> HonestRow(row, collected)
  }

  predicate AllHonest(readings: set<Reading>, collected: seq<Answer>)
  {
    forall r :: r in readings ==> Honest(r, collected)
  }

  predicate UnavailableBlank(reading: Reading)
  {
    forall row :: row in reading.rows && row.unavailable ==> NoGreen(row)
  }

  predicate GreenIsRead(s: State)
  {
    && (s.shared.github.Some? ==> Honest(s.shared.github.value, s.collected))
    && AllHonest(PassReadings(s.pass), s.collected)
    && AllHonest(BeatReadings(s.beat), s.collected)
    && (forall name :: name in s.disk && s.disk[name].reading.Some? ==> UnavailableBlank(s.disk[name].reading.value))
  }

  lemma ExclusiveKept(config: Config, s: State, e: Event)
    requires Enabled(s, e) && Exclusive(s) && (s.shared.kept ==> s.shared.forgets == 0)
    ensures Exclusive(Step(config, s, e))
  {
  }

  lemma MergeIsClean(answer: Answer, names: seq<string>, previous: Option<Reading>)
    requires answer.Collected? && (previous.Some? ==> Clean(previous.value))
    ensures Clean(MergedReading(answer, names, previous))
  {
  }

  lemma CollectKeepsClean(config: Config, previous: Option<Reading>, forgets: nat, answer: Answer)
    requires previous.Some? ==> Clean(previous.value)
    ensures AllClean(PassReadings(AfterCollect(config, previous, forgets, answer)))
  {
    if answer.Collected? && Names(config, answer).Some? {
      MergeIsClean(answer, Names(config, answer).value, previous);
    }
  }

  lemma ForgetsOnceKept(config: Config, s: State, e: Event)
    requires Enabled(s, e) && Exclusive(s) && ForgetsOnce(s)
    ensures ForgetsOnce(Step(config, s, e))
  {
  }

  lemma PublishedIsClean(config: Config, sh: Shared, result: Reading, forgets: nat, completed: int)
    requires sh.forgets == forgets ==> Clean(result)
    ensures var after := PublishSection(config, sh, result, forgets, completed); after.github.Some? && Clean(after.github.value)
  {
  }

  lemma NoneShownWhenPublished(config: Config, s: State, e: Event)
    requires Enabled(s, e) && Exclusive(s) && ForgetsOnce(s) && NoneShown(s) && e.Publish?
    ensures NoneShown(Step(config, s, e))
  {
    assert s.pass.result in PassReadings(s.pass);
    if s.shared.forgets > 0 { PublishedIsClean(config, s.shared, s.pass.result, s.pass.forgets, e.completed); }
  }

  lemma NoneShownWhenForgotten(config: Config, s: State, e: Event)
    requires Enabled(s, e) && Exclusive(s) && ForgetsOnce(s) && NoneShown(s) && (e.Forget? || e.CrashForget?)
    ensures NoneShown(Step(config, s, e))
  {
  }

  lemma NoneShownKeptByPass(config: Config, s: State, e: Event)
    requires Enabled(s, e) && Exclusive(s) && ForgetsOnce(s) && NoneShown(s)
    requires !e.BeginBeat? && !e.BeatRead? && !e.BeatFailed? && !e.BeatRevoke? && !e.EndBeat?
    ensures NoneShown(Step(config, s, e))
  {
    match e {
      case Collect(answer) =>
        if s.pass.forgets > 0 { CollectKeepsClean(config, s.pass.previous, s.pass.forgets, answer); }
      case Publish(_) => NoneShownWhenPublished(config, s, e);
      case Forget => NoneShownWhenForgotten(config, s, e);
      case CrashForget => NoneShownWhenForgotten(config, s, e);
      case _ =>
    }
  }

  lemma NoneShownKeptByBeat(config: Config, s: State, e: Event)
    requires Enabled(s, e) && Exclusive(s) && ForgetsOnce(s) && NoneShown(s)
    requires e.BeginBeat? || e.BeatRead? || e.BeatFailed? || e.BeatRevoke? || e.EndBeat?
    ensures NoneShown(Step(config, s, e))
  {
    match e {
      case BeatRead(heads, now, complete) =>
        BeatNeverGreen(s.beat.copied, heads, now, complete);
      case EndBeat =>
        assert s.beat.updated.Some? ==> s.beat.updated.value in BeatReadings(s.beat);
      case _ =>
    }
  }

  lemma NoneLeftWhenSaved(config: Config, s: State, e: Event)
    requires Enabled(s, e) && ForgetsOnce(s) && NoneShown(s) && NoneLeft(s) && e.Save?
    ensures NoneLeft(Step(config, s, e))
  {
    if s.shared.forgets > 0 && !OldPass(s) {
      assert s.pass.result in PassReadings(s.pass) && Clean(s.pass.result) && !s.cachesOld;
    }
  }

  lemma NoneLeftInPass(config: Config, s: State, e: Event)
    requires Enabled(s, e) && Exclusive(s) && ForgetsOnce(s) && NoneLeft(s)
    requires e.Claim? || e.Start? || e.ClearCaches? || e.Collect? || e.Revoke? || e.CheckKeep? || e.Crash? || e.CrashForget? || e.CrashClear?
    ensures NoneLeft(Step(config, s, e))
  {
  }

  lemma NoneLeftKept(config: Config, s: State, e: Event)
    requires Enabled(s, e) && Exclusive(s) && ForgetsOnce(s) && NoneShown(s) && NoneLeft(s)
    ensures NoneLeft(Step(config, s, e))
  {
    if e.Save? {
      NoneLeftWhenSaved(config, s, e);
    } else if e.Claim? || e.Start? || e.ClearCaches? || e.Collect? || e.Revoke? || e.CheckKeep? || e.Crash? || e.CrashForget? || e.CrashClear? {
      NoneLeftInPass(config, s, e);
    }
  }

  lemma ForgottenKept(config: Config, s: State, e: Event)
    requires Enabled(s, e) && Exclusive(s) && Forgotten(s)
    ensures Forgotten(Step(config, s, e))
  {
    ForgetsOnceKept(config, s, e);
    if e.BeginBeat? || e.BeatRead? || e.BeatFailed? || e.BeatRevoke? || e.EndBeat? {
      NoneShownKeptByBeat(config, s, e);
    } else {
      NoneShownKeptByPass(config, s, e);
    }
    NoneLeftKept(config, s, e);
  }

  lemma ReadRowIsHonest(answer: Answer, k: nat, collected: seq<Answer>)
    requires answer.Collected? && k < |answer.rows|
    ensures HonestRow(FreshRow(answer.rows[k], answer.sampledAt), collected + [answer])
  {
    var read, row := answer.rows[k], FreshRow(answer.rows[k], answer.sampledAt);
    assert read in answer.rows && answer in collected + [answer];
    forall pull | pull in row.pulls && Green(pull)
      ensures pull.checksAt.Some? && WasRead(collected + [answer], row.repository, pull.number, pull.checksAt.value)
    {
      var m :| 0 <= m < |row.pulls| && row.pulls[m] == pull;
      assert pull == FreshPull(read.pulls[m]) && read.pulls[m] in read.pulls;
      assert ReadIn(answer, row.repository, pull.number, pull.checksAt.value);
    }
  }

  lemma MergeIsHonest(answer: Answer, names: seq<string>, previous: Option<Reading>, collected: seq<Answer>)
    requires answer.Collected? && (previous.Some? ==> Honest(previous.value, collected))
    ensures Honest(MergedReading(answer, names, previous), collected + [answer])
  {
    var merged := MergedReading(answer, names, previous);
    forall row | row in merged.rows
      ensures HonestRow(row, collected + [answer])
    {
      var i :| 0 <= i < |names| && merged.rows[i] == row;
      MergedRowIsHonest(answer, names[i], previous, collected);
    }
  }

  lemma MergedRowIsHonest(answer: Answer, name: string, previous: Option<Reading>, collected: seq<Answer>)
    requires answer.Collected? && (previous.Some? ==> Honest(previous.value, collected))
    ensures HonestRow(MergedRow(FreshRows(answer), OldRows(previous), answer.errors, name), collected + [answer])
  {
    var read := FindRow(FreshRows(answer), name);
    if read.Some? {
      var k :| 0 <= k < |answer.rows| && FreshRows(answer)[k] == read.value;
      ReadRowIsHonest(answer, k, collected);
    }
  }

  lemma HonestGrows(reading: Reading, collected: seq<Answer>, answer: Answer)
    requires Honest(reading, collected)
    ensures Honest(reading, collected + [answer])
  {
    forall row, pull | row in reading.rows && pull in row.pulls && Green(pull)
        && !row.stale && !pull.stale && pull.checksAt.Some?
      ensures WasRead(collected + [answer], row.repository, pull.number, pull.checksAt.value)
    {
      var a :| a in collected && ReadIn(a, row.repository, pull.number, pull.checksAt.value);
      assert a in collected + [answer];
    }
  }

  lemma EmptyIsHonest(config: Config, code: Code, collected: seq<Answer>)
    ensures Honest(Empty(config, code), collected) && UnavailableBlank(Empty(config, code))
  {
  }

  lemma TransientIsHonest(previous: Reading, collected: seq<Answer>)
    requires Honest(previous, collected)
    ensures Honest(Transient(previous), collected)
  {
    var aged := Transient(previous);
    forall row, pull | row in aged.rows && pull in row.pulls && Green(pull)
      ensures !row.unavailable
      ensures !row.stale && !pull.stale && pull.checksAt.Some? ==> WasRead(collected, row.repository, pull.number, pull.checksAt.value)
    {
      var i :| 0 <= i < |aged.rows| && aged.rows[i] == row;
      assert previous.rows[i] in previous.rows;
    }
  }

  lemma TransientOrEmptyIsHonest(config: Config, previous: Option<Reading>, collected: seq<Answer>)
    requires previous.Some? ==> Honest(previous.value, collected)
    ensures forall code :: Honest(TransientOrEmpty(config, previous, code), collected)
  {
    if previous.Some? { TransientIsHonest(previous.value, collected); }
    forall code { EmptyIsHonest(config, code, collected); }
  }

  lemma WithoutKeptIsHonest(github: Reading, collected: seq<Answer>)
    requires Honest(github, collected)
    ensures var left := WithoutKept(Some(github)); left.Some? ==> Honest(left.value, collected)
  {
    var left := WithoutKept(Some(github));
    if left.Some? {
      forall row, pull | row in left.value.rows && pull in row.pulls && Green(pull) ensures row in github.rows {
        var i :| 0 <= i < |left.value.rows| && left.value.rows[i] == row;
        assert github.rows[i] in github.rows;
      }
    }
  }

  /** The greens of a handed-over reading are all in rows made stale exactly when no unavailable row on disk held one: those
      rows are left as they are. */
  lemma OldReadingIsHonest(stored: Reading, collected: seq<Answer>)
    ensures UnavailableBlank(stored) <==> UnavailableBlank(OldReading(stored))
    ensures UnavailableBlank(stored) <==> Honest(OldReading(stored), collected)
  {
    var reading := OldReading(stored);
    forall i | 0 <= i < |stored.rows|
      ensures stored.rows[i].unavailable && !NoGreen(stored.rows[i]) <==> !HonestRow(reading.rows[i], collected)
    {
      OldRowIsHonest(stored.rows[i], reading.rows[i], collected);
    }
    if Honest(reading, collected) {
      forall row | row in stored.rows && row.unavailable
        ensures NoGreen(row)
      {
        var i :| 0 <= i < |stored.rows| && stored.rows[i] == row;
        assert reading.rows[i] in reading.rows;
      }
    }
  }

  lemma OldRowIsHonest(stored: Row, row: Row, collected: seq<Answer>)
    requires row == stored.(restored := true, stale := stored.stale || !stored.unavailable)
    ensures HonestRow(row, collected) <==> !(stored.unavailable && !NoGreen(stored))
  {
  }

  lemma HonestIsBlank(reading: Reading, collected: seq<Answer>)
    requires Honest(reading, collected)
    ensures UnavailableBlank(reading)
  {
  }

  lemma CollectKeepsHonest(config: Config, previous: Option<Reading>, forgets: nat, answer: Answer, collected: seq<Answer>)
    requires previous.Some? ==> Honest(previous.value, collected)
    ensures AllHonest(PassReadings(AfterCollect(config, previous, forgets, answer)), collected + [answer])
  {
    var all := collected + [answer];
    if answer.Collected? && Names(config, answer).Some? {
      MergeIsHonest(answer, Names(config, answer).value, previous, collected);
    } else if previous.Some? {
      HonestGrows(previous.value, collected, answer);
      TransientIsHonest(previous.value, all);
    }
    forall code { EmptyIsHonest(config, code, all); }
  }

  lemma ForgetKeepsHonest(sh: Shared, collected: seq<Answer>)
    requires sh.github.Some? ==> Honest(sh.github.value, collected)
    ensures var after := ForgetSection(sh); after.github.Some? ==> Honest(after.github.value, collected)
  {
    if sh.github.Some? { WithoutKeptIsHonest(sh.github.value, collected); }
  }

  lemma GreenIsReadWhenCollected(config: Config, s: State, e: Event)
    requires Enabled(s, e) && Exclusive(s) && GreenIsRead(s) && e.Collect?
    ensures GreenIsRead(Step(config, s, e))
  {
    CollectKeepsHonest(config, s.pass.previous, s.pass.forgets, e.answer, s.collected);
    if s.shared.github.Some? { HonestGrows(s.shared.github.value, s.collected, e.answer); }
  }

  lemma GreenIsReadWhenPublished(config: Config, s: State, e: Event)
    requires Enabled(s, e) && Exclusive(s) && GreenIsRead(s) && e.Publish?
    ensures GreenIsRead(Step(config, s, e))
  {
    assert s.pass.result in PassReadings(s.pass);
    WithoutKeptIsHonest(s.pass.result, s.collected);
    EmptyIsHonest(config, Unavailable, s.collected);
  }

  lemma GreenIsReadWhenCrashed(config: Config, s: State, e: Event)
    requires Enabled(s, e) && Exclusive(s) && GreenIsRead(s) && e.CrashForget?
    ensures GreenIsRead(Step(config, s, e))
  {
    ForgetKeepsHonest(s.shared, s.collected);
    TransientOrEmptyIsHonest(config, s.pass.previous, s.collected);
  }

  lemma GreenIsReadWhenCrashCleared(config: Config, s: State, e: Event)
    requires Enabled(s, e) && Exclusive(s) && GreenIsRead(s) && e.CrashClear?
    ensures GreenIsRead(Step(config, s, e))
  {
    TransientOrEmptyIsHonest(config, s.pass.previous, s.collected);
  }

  lemma GreenIsReadWhenSaved(config: Config, s: State, e: Event)
    requires Enabled(s, e) && GreenIsRead(s) && e.Save?
    ensures GreenIsRead(Step(config, s, e))
  {
    assert s.pass.result in PassReadings(s.pass);
    HonestIsBlank(s.pass.result, s.collected);
  }

  lemma GreenIsReadWhenForgotten(config: Config, s: State, e: Event)
    requires Enabled(s, e) && GreenIsRead(s) && e.Forget?
    ensures GreenIsRead(Step(config, s, e))
  {
    ForgetKeepsHonest(s.shared, s.collected);
  }

  lemma GreenIsReadInPass(config: Config, s: State, e: Event)
    requires Enabled(s, e) && Exclusive(s) && GreenIsRead(s)
    requires !e.Restart? && !e.BeginBeat? && !e.BeatRead? && !e.BeatFailed? && !e.BeatRevoke? && !e.EndBeat?
    ensures GreenIsRead(Step(config, s, e))
  {
    match e {
      case Collect(_) => GreenIsReadWhenCollected(config, s, e);
      case Publish(_) => GreenIsReadWhenPublished(config, s, e);
      case CrashForget => GreenIsReadWhenCrashed(config, s, e);
      case CrashClear => GreenIsReadWhenCrashCleared(config, s, e);
      case Forget => GreenIsReadWhenForgotten(config, s, e);
      case Save(_) => GreenIsReadWhenSaved(config, s, e);
      case _ =>
    }
  }

  lemma GreenIsReadOnRestart(config: Config, s: State, e: Event)
    requires GreenIsRead(s) && e.Restart?
    ensures GreenIsRead(Step(config, s, e))
  {
    var stored := StoredReading(Restarted(s, e.usable, e.usage).disk);
    if stored.Some? { OldReadingIsHonest(stored.value, []); }
  }

  lemma GreenIsReadInBeat(config: Config, s: State, e: Event)
    requires Enabled(s, e) && Exclusive(s) && GreenIsRead(s)
    requires e.Restart? || e.BeginBeat? || e.BeatRead? || e.BeatFailed? || e.BeatRevoke? || e.EndBeat?
    ensures GreenIsRead(Step(config, s, e))
  {
    match e {
      case Restart(_, _) => GreenIsReadOnRestart(config, s, e);
      case BeatRead(heads, now, complete) =>
        BeatNeverGreen(s.beat.copied, heads, now, complete);
      case BeatRevoke =>
        EmptyIsHonest(config, s.beat.code, s.collected);
      case EndBeat =>
        assert s.beat.updated.Some? ==> s.beat.updated.value in BeatReadings(s.beat);
      case _ =>
    }
  }

  lemma GreenIsReadKept(config: Config, s: State, e: Event)
    requires Enabled(s, e) && Exclusive(s) && GreenIsRead(s)
    ensures GreenIsRead(Step(config, s, e))
  {
    if e.Restart? || e.BeginBeat? || e.BeatRead? || e.BeatFailed? || e.BeatRevoke? || e.EndBeat? {
      GreenIsReadInBeat(config, s, e);
    } else {
      GreenIsReadInPass(config, s, e);
    }
  }

  // What holds in every run

  ghost predicate Reachable(config: Config, s: State)
  {
    exists events :: ValidRun(config, First, events) && Run(config, First, events) == s
  }

  lemma {:induction false} RunKeeps(config: Config, s: State, events: seq<Event>)
    requires ValidRun(config, s, events) && Exclusive(s) && Forgotten(s) && GreenIsRead(s)
    ensures var t := Run(config, s, events); Exclusive(t) && Forgotten(t) && GreenIsRead(t)
    decreases |events|
  {
    if events != [] {
      ExclusiveKept(config, s, events[0]);
      ForgottenKept(config, s, events[0]);
      GreenIsReadKept(config, s, events[0]);
      RunKeeps(config, Step(config, s, events[0]), events[1..]);
    }
  }

  lemma ReachableKeeps(config: Config, s: State)
    requires Reachable(config, s)
    ensures Exclusive(s) && Forgotten(s) && GreenIsRead(s)
  {
    var events :| ValidRun(config, First, events) && Run(config, First, events) == s;
    RunKeeps(config, First, events);
  }

  /** Once kept state is forgotten, nothing shown holds any of it, whatever pass or beat was under way. */
  lemma ForgottenIsNeverShown(config: Config, s: State)
    requires Reachable(config, s) && s.shared.forgets > 0
    ensures s.shared.github.Some? ==> Clean(s.shared.github.value)
    ensures s.shared.forgets == 1 && !s.shared.kept
  {
    ReachableKeeps(config, s);
  }

  /** Nothing handed over is on disk, and no thread that could still write or clear some is under way. */
  predicate Settled(s: State)
  {
    s.shared.forgets > 0 && DiskClean(s) && !OldPass(s)
  }

  /** The pass that was under way when kept state was forgotten leaves none of it on disk when it publishes. */
  lemma PublishSettlesTheDisk(config: Config, s: State, completed: int)
    requires Reachable(config, s) && Enabled(s, Publish(completed)) && OldPass(s)
    ensures Settled(Step(config, s, Publish(completed)))
  {
    ReachableKeeps(config, s);
  }

  /** Without such a pass, the disk is clean once the forgetting threads have cleared it. */
  lemma ClearedWithoutAPass(config: Config, s: State)
    requires Reachable(config, s) && s.shared.forgets > 0 && s.clears == 0 && !OldPass(s) && !s.pass.CrashClearing?
    ensures Settled(s)
  {
    ReachableKeeps(config, s);
  }

  lemma SettledKept(config: Config, s: State, e: Event)
    requires Enabled(s, e) && Exclusive(s) && Forgotten(s) && Settled(s) && !e.Restart?
    ensures Settled(Step(config, s, e))
  {
    if e.Save? { assert s.pass.result in PassReadings(s.pass); }
  }

  /** The disk then stays clean until the next restart, whatever passes and beats follow. */
  lemma {:induction false} DiskStaysClean(config: Config, s: State, events: seq<Event>)
    requires ValidRun(config, s, events) && Exclusive(s) && Forgotten(s) && Settled(s)
    requires forall e :: e in events ==> !e.Restart?
    ensures Settled(Run(config, s, events))
    decreases |events|
  {
    if events != [] {
      ExclusiveKept(config, s, events[0]);
      ForgottenKept(config, s, events[0]);
      SettledKept(config, s, events[0]);
      DiskStaysClean(config, Step(config, s, events[0]), events[1..]);
    }
  }

  /** A pass under way at the forgetting publishes, and from then until a restart the disk holds nothing handed over,
      whatever passes, beats and forgetting threads follow. */
  lemma DiskIsCleanOncePublished(config: Config, s: State, completed: int, events: seq<Event>)
    requires Reachable(config, s) && Enabled(s, Publish(completed)) && OldPass(s)
    requires ValidRun(config, Step(config, s, Publish(completed)), events) && forall e :: e in events ==> !e.Restart?
    ensures DiskClean(Run(config, Step(config, s, Publish(completed)), events))
  {
    ReachableKeeps(config, s);
    PublishSettlesTheDisk(config, s, completed);
    ExclusiveKept(config, s, Publish(completed));
    ForgottenKept(config, s, Publish(completed));
    DiskStaysClean(config, Step(config, s, Publish(completed)), events);
  }

  /** A beat installs its result only over the very reading it copied, and at most one pass or beat runs. */
  lemma BeatReplacesOnlyWhatItCopied(config: Config, s: State)
    requires Reachable(config, s)
    ensures !(s.shared.refreshing && s.shared.beating)
    ensures s.beat.Answered? && Installs(s.shared, s.beat.updated, s.beat.generation, s.beat.forgets) ==>
      s.beat.over == s.installs
    ensures s.beat.Asking? && s.beat.forgets == s.shared.forgets ==> s.shared.github == Some(s.beat.copied)
  {
    ReachableKeeps(config, s);
  }

  // What a page fetch is shown

  function ExpiredRow(row: Row, now: int): Row
  {
    if !row.unavailable && row.sampledAt.Some? && now - row.sampledAt.value > STALE_GRACE_SECONDS then row.(stale := true)
    else row
  }

  function ShownRow(row: Row, now: int): (r: Row)
    ensures |r.pulls| == |row.pulls|
    ensures forall i :: 0 <= i < |r.pulls| ==> r.pulls[i] == WithholdIfOld(row.pulls[i], now, r.stale)
  {
    var expired := ExpiredRow(row, now);
    expired.(pulls := seq(|row.pulls|, i requires 0 <= i < |row.pulls| => WithholdIfOld(row.pulls[i], now, expired.stale)))
  }

  /** A row on a page is stale when it was, or when it is available and its sample is more than three minutes old. The rest of
      it is as it was, but for its pull requests. */
  lemma ShownRowMeans(row: Row, now: int)
    ensures var r := ShownRow(row, now);
      r == row.(stale := row.stale || (!row.unavailable && row.sampledAt.Some? && row.sampledAt.value + 180 < now), pulls := r.pulls)
  {
  }

  function ShownReading(github: Reading, now: int): Reading
  {
    github.(rows := seq(|github.rows|, i requires 0 <= i < |github.rows| => ShownRow(github.rows[i], now)))
  }

  function Shown(config: Config, s: State, now: int): Reading
  {
    ShownReading(if s.shared.github.Some? then s.shared.github.value else Empty(config, Loading), now)
  }

  lemma GreenRowWasFresh(row: Row, now: int, pull: Pull)
    requires pull in ShownRow(row, now).pulls && Green(pull)
    ensures pull in row.pulls && !pull.stale && !ShownRow(row, now).stale && !row.stale
    ensures pull.checksAt.Some? && 0 <= now - pull.checksAt.value <= FRESH_SECONDS
  {
    var shown := ShownRow(row, now);
    var k :| 0 <= k < |shown.pulls| && shown.pulls[k] == pull;
    assert shown.pulls[k] == WithholdIfOld(row.pulls[k], now, shown.stale);
  }

  /** Whenever a page is fetched, the reading shows no green. */
  ghost predicate NeverGreen(reading: Reading)
  {
    forall now: int, row :: row in ShownReading(reading, now).rows ==> NoGreen(row)
  }

  /** A green that would be shown at the time its checks were read. */
  predicate Showable(pull: Pull) { Green(pull) && !pull.stale && pull.checksAt.Some? }

  /** A reading handed over by a restart never shows a green, at any time, exactly when no row on disk that is unavailable
      and not stale holds one with the time of its checks and no mark: those rows are not made stale. */
  lemma HandedOverIsNeverGreen(stored: Reading)
    ensures NeverGreen(OldReading(stored)) <==>
      forall row, pull :: row in stored.rows && row.unavailable && !row.stale && pull in row.pulls ==> !Showable(pull)
  {
    var reading := OldReading(stored);
    forall now: int, i | 0 <= i < |stored.rows|
      ensures NoGreen(ShownRow(reading.rows[i], now)) || exists pull :: pull in stored.rows[i].pulls && Showable(pull)
      ensures NoGreen(ShownRow(reading.rows[i], now)) || (stored.rows[i].unavailable && !stored.rows[i].stale)
    {
      OnlyShowableIsGreen(reading.rows[i], now);
    }
    forall i, k | 0 <= i < |stored.rows| && stored.rows[i].unavailable && !stored.rows[i].stale
        && 0 <= k < |stored.rows[i].pulls| && Showable(stored.rows[i].pulls[k])
      ensures !NeverGreen(reading)
    {
      var now := stored.rows[i].pulls[k].checksAt.value;
      ShowableIsGreen(reading.rows[i], k);
      assert ShownReading(reading, now).rows[i] in ShownReading(reading, now).rows;
    }
  }

  lemma OnlyShowableIsGreen(row: Row, now: int)
    ensures NoGreen(ShownRow(row, now)) || (!row.stale && exists pull :: pull in row.pulls && Showable(pull))
  {
    if !NoGreen(ShownRow(row, now)) {
      var pull :| pull in ShownRow(row, now).pulls && Green(pull);
      GreenRowWasFresh(row, now, pull);
      assert Showable(pull);
    }
  }

  lemma ShowableIsGreen(row: Row, k: nat)
    requires row.unavailable && !row.stale && k < |row.pulls| && Showable(row.pulls[k])
    ensures !NoGreen(ShownRow(row, row.pulls[k].checksAt.value))
  {
    var shown := ShownRow(row, row.pulls[k].checksAt.value);
    assert shown.pulls[k] == WithholdIfOld(row.pulls[k], row.pulls[k].checksAt.value, shown.stale) && shown.pulls[k] in shown.pulls;
  }

  /** For one, an unavailable row that holds a green its checks were read for is shown green after a restart. */
  lemma UnavailableGreenIsShown()
    ensures var pull := Pull(1, None, Some(true), false, Some(0), None, None, false, None);
      var stored := Reading(false, false, Some(0), None, [Row("o/r", false, false, true, None, [pull])]);
      !NeverGreen(OldReading(stored))
  {
    var pull := Pull(1, None, Some(true), false, Some(0), None, None, false, None);
    var row := Row("o/r", false, false, true, None, [pull]);
    var stored := Reading(false, false, Some(0), None, [row]);
    assert row in stored.rows && pull in row.pulls && Showable(pull);
    HandedOverIsNeverGreen(stored);
  }


  /** A pull request shown as merge-ready sits in a repository that is not stale, and a full pass of this
      process read its checks 0 to 180 seconds before. */
  lemma GreenWasReadJustNow(config: Config, s: State, now: int, row: Row, pull: Pull)
    requires Reachable(config, s)
    requires row in Shown(config, s, now).rows && pull in row.pulls && Green(pull)
    ensures !row.stale && !row.unavailable && !pull.stale
    ensures pull.checksAt.Some? && 0 <= now - pull.checksAt.value <= 180
    ensures WasRead(s.collected, row.repository, pull.number, pull.checksAt.value)
  {
    ReachableKeeps(config, s);
    EmptyIsHonest(config, Loading, s.collected);
    var github := if s.shared.github.Some? then s.shared.github.value else Empty(config, Loading);
    var i :| 0 <= i < |github.rows| && Shown(config, s, now).rows[i] == row;
    assert row == ShownRow(github.rows[i], now) && github.rows[i] in github.rows;
    GreenRowWasFresh(github.rows[i], now, pull);
  }
}
