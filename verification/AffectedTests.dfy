/** Which tests a change can reach (gates/_affected_graph.py, gates/_affected_tests.py). */
module AffectedTests {
  import opened Common
  import Glob

  type Importers<F> = map<F, set<F>>
  type Edge<!F> = (F, F) -> bool

  // Reaching a file

  /** A chain of files, each with an edge to the next. */
  predicate Leads<F>(edge: Edge<F>, chain: seq<F>)
  {
    forall i, j :: 0 <= i < |chain| && 0 <= j < |chain| && j == i + 1 ==> edge(chain[i], chain[j])
  }

  ghost predicate Reaches<F(!new)>(edge: Edge<F>, file: F, starts: set<F>)
  {
    exists chain :: chain != [] && chain[0] == file && chain[|chain| - 1] in starts && Leads(edge, chain)
  }

  lemma ReachesItself<F(!new)>(edge: Edge<F>, file: F, starts: set<F>)
    requires file in starts
    ensures Reaches(edge, file, starts)
  {
    var chain := [file];
    assert chain[0] == file && Leads(edge, chain);
  }

  lemma ReachesNext<F(!new)>(edge: Edge<F>, file: F, next: F, starts: set<F>)
    requires edge(file, next) && Reaches(edge, next, starts)
    ensures Reaches(edge, file, starts)
  {
    var chain :| chain != [] && chain[0] == next && chain[|chain| - 1] in starts && Leads(edge, chain);
    var longer := [file] + chain;
    assert longer[0] == file && longer[|longer| - 1] == chain[|chain| - 1];
    forall i, j | 0 <= i < |longer| && 0 <= j < |longer| && j == i + 1
      ensures edge(longer[i], longer[j])
    {
      if i > 0 { assert longer[i] == chain[i - 1] && longer[j] == chain[j - 1]; }
    }
  }

  /** A set that holds the starts and whatever has an edge into it holds all that reaches a start. */
  lemma {:induction false} ClosedHoldsAll<F(!new)>(edge: Edge<F>, chain: seq<F>, starts: set<F>, closed: set<F>)
    requires chain != [] && chain[|chain| - 1] in starts && Leads(edge, chain)
    requires starts <= closed && forall a, b :: edge(a, b) && b in closed ==> a in closed
    ensures chain[0] in closed
  {
    if |chain| > 1 {
      var later := chain[1..];
      assert forall i :: 0 <= i < |later| ==> later[i] == chain[i + 1];
      ClosedHoldsAll(edge, later, starts, closed);
      assert edge(chain[0], chain[1]);
    }
  }

  /** More edges and more starts reach no less. */
  lemma ReachesMore<F(!new)>(edge: Edge<F>, more: Edge<F>, file: F, starts: set<F>, wider: set<F>)
    requires Reaches(edge, file, starts) && starts <= wider && forall a, b :: edge(a, b) ==> more(a, b)
    ensures Reaches(more, file, wider)
  {
    var chain :| chain != [] && chain[0] == file && chain[|chain| - 1] in starts && Leads(edge, chain);
    assert Leads(more, chain);
  }

  // Graph

  function Of<F>(importers: Importers<F>, target: F): set<F>
  {
    if target in importers then importers[target] else {}
  }

  function EdgeOf<F>(importers: Importers<F>): Edge<F>
  {
    (a, b) => a in Of(importers, b)
  }

  /** The files a file reads: what it imports, and what a config names. */
  function Targets<F>(imports: map<F, set<F>>, extra: map<F, set<F>>, file: F): set<F>
  {
    Of(imports, file) + Of(extra, file)
  }

  /** One more importer of each of these files. */
  method AddImporter<F(!new, ==)>(before: Importers<F>, path: F, targets: set<F>) returns (reverse: Importers<F>)
    ensures forall b :: Of(reverse, b) == Of(before, b) + if b in targets then {path} else {}
  {
    reverse := before;
    var left := targets;
    while left != {}
      invariant left <= targets
      invariant forall b :: Of(reverse, b) == Of(before, b) + if b in targets && b !in left then {path} else {}
      decreases left
    {
      var target :| target in left;
      ghost var was := reverse;
      reverse := reverse[target := Of(reverse, target) + {path}];
      left := left - {target};
      forall b
        ensures Of(reverse, b) == Of(before, b) + if b in targets && b !in left then {path} else {}
      {
        assert b != target ==> Of(reverse, b) == Of(was, b);
      }
    }
  }

  /** The files that read this one. */
  function Readers<F(!new, ==)>(files: seq<F>, imports: map<F, set<F>>, extra: map<F, set<F>>, target: F): (r: set<F>)
    ensures forall a :: a in r <==> a in files && target in Targets(imports, extra, a)
  {
    set a | a in files && target in Targets(imports, extra, a)
  }

  lemma ReadersOfOneMore<F(!new)>(files: seq<F>, i: nat, imports: map<F, set<F>>, extra: map<F, set<F>>, target: F)
    requires i < |files|
    ensures Readers(files[..i + 1], imports, extra, target) == Readers(files[..i], imports, extra, target)
      + if target in Targets(imports, extra, files[i]) then {files[i]} else {}
  {
    forall a { InOneMore(files, i, a); }
  }

  /** The import map turned around. */
  method ImportersOf<F(!new, ==)>(files: seq<F>, imports: map<F, set<F>>, extra: map<F, set<F>>)
      returns (reverse: Importers<F>)
    ensures forall b :: Of(reverse, b) == Readers(files, imports, extra, b)
  {
    reverse := map[];
    for i := 0 to |files|
      invariant forall b :: Of(reverse, b) == Readers(files[..i], imports, extra, b)
    {
      reverse := AddImporter(reverse, files[i], Targets(imports, extra, files[i]));
      forall b
        ensures Of(reverse, b) == Readers(files[..i + 1], imports, extra, b)
      {
        ReadersOfOneMore(files, i, imports, extra, b);
      }
    }
    assert files[..|files|] == files;
  }

  /** All files an importer map names. */
  ghost function Named<F(!new)>(importers: Importers<F>): set<F>
  {
    set b, a | b in importers && a in importers[b] :: a
  }

  lemma OneFewer<F>(files: set<F>, seen: set<F>, file: F)
    requires file in files && file !in seen
    ensures |files - (seen + {file})| + 1 == |files - seen|
  {
    assert files - (seen + {file}) == (files - seen) - {file};
  }

  /** Marks and stacks the importers not seen before. Each costs one unseen file, which is worth two places on the stack. */
  method Visit<F(!new, ==)>(found: set<F>, before: set<F>, pending: seq<F>, ghost all: set<F>)
      returns (seen: set<F>, stack: seq<F>)
    requires found <= all
    ensures forall file :: file in seen <==> file in before || file in found
    ensures forall file :: file in stack <==> file in pending || (file in found && file !in before)
    ensures 2 * |all - seen| + |stack| <= 2 * |all - before| + |pending|
  {
    seen, stack := before, pending;
    var left := found;
    while left != {}
      invariant left <= found
      invariant forall file :: file in seen <==> file in before || (file in found && file !in left)
      invariant forall file :: file in stack <==> file in pending || (file in found && file !in left && file !in before)
      invariant 2 * |all - seen| + |stack| <= 2 * |all - before| + |pending|
      decreases left
    {
      var path :| path in left;
      left := left - {path};
      if path !in seen {
        OneFewer(all, seen, path);
        seen := seen + {path};
        stack := stack + [path];
      }
    }
  }

  ghost predicate AllReach<F(!new)>(importers: Importers<F>, seen: set<F>, starts: set<F>)
  {
    forall file :: file in seen ==> Reaches(EdgeOf(importers), file, starts)
  }

  /** What is seen and no longer stacked has had its importers seen. */
  ghost predicate Settled<F(!new)>(importers: Importers<F>, seen: set<F>, stack: seq<F>)
  {
    forall b :: b in seen && b !in stack ==> Of(importers, b) <= seen
  }

  lemma StartsReach<F(!new)>(importers: Importers<F>, starts: set<F>)
    ensures AllReach(importers, starts, starts)
  {
    forall file | file in starts
      ensures Reaches(EdgeOf(importers), file, starts)
    {
      ReachesItself(EdgeOf(importers), file, starts);
    }
  }

  lemma VisitReaches<F(!new)>(importers: Importers<F>, before: set<F>, top: F, seen: set<F>, starts: set<F>)
    requires AllReach(importers, before, starts) && top in before
    requires forall file :: file in seen <==> file in before || file in Of(importers, top)
    ensures AllReach(importers, seen, starts)
  {
    forall file | file in seen
      ensures Reaches(EdgeOf(importers), file, starts)
    {
      if file in Of(importers, top) {
        assert EdgeOf(importers)(file, top);
        ReachesNext(EdgeOf(importers), file, top, starts);
      }
    }
  }

  lemma VisitSettles<F(!new)>(importers: Importers<F>, before: set<F>, pending: seq<F>, top: F, seen: set<F>, stack: seq<F>)
    requires Settled(importers, before, pending + [top])
    requires forall file :: file in seen <==> file in before || file in Of(importers, top)
    requires forall file :: file in stack <==> file in pending || (file in Of(importers, top) && file !in before)
    ensures Settled(importers, seen, stack)
  {
    forall b | b in seen && b !in stack
      ensures Of(importers, b) <= seen
    {
      if b != top { assert b !in pending + [top]; }
    }
  }

  lemma OfIsNamed<F(!new)>(importers: Importers<F>, b: F)
    ensures Of(importers, b) <= Named(importers)
  {
  }

  ghost predicate Underway<F(!new)>(importers: Importers<F>, starts: set<F>, seen: set<F>, stack: seq<F>)
  {
    && starts <= seen && (forall file :: file in stack ==> file in seen)
    && AllReach(importers, seen, starts) && Settled(importers, seen, stack)
  }

  /** Takes the last stacked file off and visits its importers. */
  method Expand<F(!new, ==)>(importers: Importers<F>, before: set<F>, pending: seq<F>, ghost starts: set<F>, ghost all: set<F>,
                                   ghost room: nat)
      returns (seen: set<F>, stack: seq<F>, ghost left: nat)
    requires pending != [] && Underway(importers, starts, before, pending) && all == Named(importers)
    requires room == 2 * |all - before| + |pending|
    ensures Underway(importers, starts, seen, stack)
    ensures left == 2 * |all - seen| + |stack| && left < room
  {
    var top, rest := pending[|pending| - 1], pending[..|pending| - 1];
    LastApart(pending);
    OfIsNamed(importers, top);
    seen, stack := Visit(Of(importers, top), before, rest, all);
    VisitReaches(importers, before, top, seen, starts);
    VisitSettles(importers, before, rest, top, seen, stack);
    left := 2 * |all - seen| + |stack|;
  }

  /** Follows importers from the starts until none is new. */
  method Reach<F(!new, ==)>(importers: Importers<F>, starts: set<F>) returns (seen: set<F>)
    ensures forall file :: file in seen <==> Reaches(EdgeOf(importers), file, starts)
  {
    ghost var all := Named(importers);
    var stack := Listed(starts);
    seen := starts;
    StartsReach(importers, starts);
    ghost var room: nat := 2 * |all - seen| + |stack|;
    while stack != []
      invariant Underway(importers, starts, seen, stack)
      invariant room == 2 * |all - seen| + |stack|
      decreases room
    {
      seen, stack, room := Expand(importers, seen, stack, starts, all, room);
    }
    Closed(importers, starts, seen, stack);
  }

  lemma Closed<F(!new)>(importers: Importers<F>, starts: set<F>, seen: set<F>, stack: seq<F>)
    requires stack == [] && Underway(importers, starts, seen, stack)
    ensures forall file :: file in seen <==> Reaches(EdgeOf(importers), file, starts)
  {
    forall file | Reaches(EdgeOf(importers), file, starts)
      ensures file in seen
    {
      ReachingIsSeen(importers, file, starts, seen);
    }
  }

  lemma ReachingIsSeen<F(!new)>(importers: Importers<F>, file: F, starts: set<F>, seen: set<F>)
    requires starts <= seen && Settled(importers, seen, []) && Reaches(EdgeOf(importers), file, starts)
    ensures file in seen
  {
    var edge := EdgeOf(importers);
    var chain :| chain != [] && chain[0] == file && chain[|chain| - 1] in starts && Leads(edge, chain);
    ClosedHoldsAll(edge, chain, starts, seen);
  }

  method Listed<F(!new, ==)>(files: set<F>) returns (list: seq<F>)
    ensures forall file :: file in list <==> file in files
    ensures |list| == |files|
  {
    list := [];
    var left := files;
    while left != {}
      invariant left <= files && |list| + |left| == |files|
      invariant forall file :: file in list <==> file in files && file !in left
      decreases left
    {
      var file :| file in left;
      list := list + [file];
      left := left - {file};
    }
  }

  // Runner configs

  /** The directory of a repository path, what stands before its last slash, or none at the top. */
  function Directory(path: string): (r: Option<string>)
    ensures r.None? <==> Glob.Free(path, '/')
    ensures r.Some? ==>
      |r.value| < |path| && r.value == path[..|r.value|] && path[|r.value|] == '/' && Glob.Free(path[|r.value| + 1..], '/')
  {
    if path == "" then None
    else if path[|path| - 1] == '/' then Some(path[..|path| - 1])
    else Directory(path[..|path| - 1])
  }

  /** The same as text, empty at the top. */
  function Dirname(path: string): (r: string)
    ensures Glob.Free(path, '/') ==> r == ""
    ensures !Glob.Free(path, '/') ==>
      |r| < |path| && r == path[..|r|] && path[|r|] == '/' && Glob.Free(path[|r| + 1..], '/')
  {
    if Directory(path).Some? then Directory(path).value else ""
  }

  predicate StartsWith(s: string, prefix: string)
  {
    |prefix| <= |s| && s[..|prefix|] == prefix
  }

  /** A config at the top runs before every test, another before those under its directory. */
  predicate RunsBefore(config: string, test: string)
  {
    Directory(config).None? || StartsWith(test, Directory(config).value + "/")
  }

  /** "Under a directory" is by whole segments: a directory's name as a mere prefix of another's does not count. */
  lemma {:induction false} UnderMeansSegments(directory: string, path: string)
    ensures StartsWith(path, directory + "/") <==>
      |Glob.Split(directory)| < |Glob.Split(path)| && Glob.Split(path)[..|Glob.Split(directory)|] == Glob.Split(directory)
    decreases |directory|
  {
    if directory == "" {
      assert directory + "/" == "/";
      Glob.OnlyEmpty(path);
      var segments := Glob.Split(path);
      assert |segments| > 1 && segments[..1] == [""] <==> path != "" && path[0] == '/' by {
        if path != "" && path[0] != '/' {
          Glob.SplitOff(path);
          assert segments[..1][0] == segments[0];
        } else if path != "" {
          assert segments[..1] == [segments[0]];
        }
      }
      assert StartsWith(path, "/") <==> path != "" && path[0] == '/';
    } else {
      UnderNext(directory, path);
    }
  }

  /** All segments of a config but the last: the directories it stands in. */
  function Dirs(config: string): seq<string>
  {
    Glob.Split(config)[..|Glob.Split(config)| - 1]
  }

  /** The segments of a path, from those of all but its first character. */
  function Grown(c: char, segments: seq<string>): seq<string>
    requires segments != []
  {
    if c == '/' then [""] + segments else [[c] + segments[0]] + segments[1..]
  }

  lemma SplitNext(path: string)
    requires path != ""
    ensures Glob.Split(path) == Grown(path[0], Glob.Split(path[1..]))
  {
  }

  lemma FirstGrows(c: char, segments: seq<string>, last: string)
    requires segments != []
    ensures Grown(c, segments + [last]) == Grown(c, segments) + [last]
  {
    TailOfSum(segments, [last]);
  }

  lemma {:induction false} SplitJoined(directory: string, name: string)
    requires Glob.Free(name, '/')
    ensures Glob.Split(directory + "/" + name) == Glob.Split(directory) + [name]
  {
    if directory == "" {
      Glob.NoSlashIsOne(name);
      assert "" + "/" == "/" && ("/" + name)[1..] == name;
    } else {
      SplitJoined(directory[1..], name);
      TailOfSum(directory + "/", name);
      TailOfSum(directory, "/");
      SplitNext(directory + "/" + name);
      SplitNext(directory);
      FirstGrows(directory[0], Glob.Split(directory[1..]), name);
    }
  }

  lemma DirectoryApart(path: string, directory: string)
    requires |directory| < |path| && directory == path[..|directory|] && path[|directory|] == '/'
    ensures path == directory + "/" + path[|directory| + 1..]
  {
  }

  /** A config runs before exactly the tests under its directories, segment by segment, and before every test from the top. */
  lemma RunsBeforeMeansSegments(config: string, test: string)
    ensures RunsBefore(config, test) <==>
      |Dirs(config)| == 0 || (|Dirs(config)| < |Glob.Split(test)| && Glob.Split(test)[..|Dirs(config)|] == Dirs(config))
  {
    if Directory(config).None? {
      Glob.NoSlashIsOne(config);
    } else {
      var directory := Directory(config).value;
      DirectoryApart(config, directory);
      SplitJoined(directory, config[|directory| + 1..]);
      assert Dirs(config) == Glob.Split(directory);
      UnderMeansSegments(directory, test);
    }
  }

  lemma {:induction false} UnderNext(directory: string, path: string)
    requires directory != ""
    ensures StartsWith(path, directory + "/") <==>
      |Glob.Split(directory)| < |Glob.Split(path)| && Glob.Split(path)[..|Glob.Split(directory)|] == Glob.Split(directory)
    decreases |directory|, 0
  {
    var c, rest := directory[0], directory[1..];
    assert directory + "/" == [c] + (rest + "/");
    if path == "" {
      Glob.OnlyEmpty(path);
    } else {
      PrefixNext(path, c, rest + "/");
      UnderMeansSegments(rest, path[1..]);
      var whole, outer := Glob.Split(path[1..]), Glob.Split(rest);
      if c == '/' && path[0] == '/' {
        HeadAndMore("", whole, outer);
      } else if c == '/' || path[0] == '/' {
        if c != '/' { Glob.SplitOff(directory); }
        if path[0] != '/' { Glob.SplitOff(path); }
        FirstsDiffer(Glob.Split(path), Glob.Split(directory));
      } else {
        FirstLonger(path[0], c, whole, outer);
      }
    }
  }

  lemma PrefixNext(s: string, c: char, rest: string)
    requires s != ""
    ensures StartsWith(s, [c] + rest) <==> s[0] == c && StartsWith(s[1..], rest)
  {
    if |rest| < |s| {
      assert s[..|rest| + 1] == [s[0]] + s[1..][..|rest|];
    }
  }

  lemma HeadAndMore(head: string, whole: seq<string>, outer: seq<string>)
    ensures |[head] + outer| < |[head] + whole| && ([head] + whole)[..|[head] + outer|] == [head] + outer
      <==> |outer| < |whole| && whole[..|outer|] == outer
  {
    if |outer| < |whole| {
      assert ([head] + whole)[..|outer| + 1] == [head] + whole[..|outer|];
      assert ([head] + whole[..|outer|])[1..] == whole[..|outer|] && ([head] + outer)[1..] == outer;
    }
  }

  lemma FirstsDiffer(whole: seq<string>, outer: seq<string>)
    requires whole != [] && outer != [] && whole[0] != outer[0]
    ensures !(|outer| < |whole| && whole[..|outer|] == outer)
  {
    if |outer| < |whole| { assert whole[..|outer|][0] == whole[0]; }
  }

  lemma FirstLonger(a: char, b: char, whole: seq<string>, outer: seq<string>)
    requires whole != [] && outer != []
    ensures |[[b] + outer[0]] + outer[1..]| < |[[a] + whole[0]] + whole[1..]|
            && ([[a] + whole[0]] + whole[1..])[..|[[b] + outer[0]] + outer[1..]|] == [[b] + outer[0]] + outer[1..]
      <==> a == b && |outer| < |whole| && whole[..|outer|] == outer
  {
    assert [whole[0]] + whole[1..] == whole && [outer[0]] + outer[1..] == outer;
    if a == b && whole[0] == outer[0] {
      HeadAndMore([a] + whole[0], whole[1..], outer[1..]);
      HeadAndMore(whole[0], whole[1..], outer[1..]);
    } else {
      assert ([a] + whole[0])[0] == a && ([b] + outer[0])[0] == b;
      assert ([a] + whole[0])[1..] == whole[0] && ([b] + outer[0])[1..] == outer[0];
      FirstsDiffer([[a] + whole[0]] + whole[1..], [[b] + outer[0]] + outer[1..]);
      if whole[0] != outer[0] { FirstsDiffer(whole, outer); }
    }
  }

  // Selecting tests

  /** A checkout: its files, what each imports, what each runner config names, and what its files are. */
  datatype Repo = Repo(files: seq<string>, imports: map<string, set<string>>, named: map<string, set<string>>,
                       readers: set<string>, configs: seq<string>, tests: seq<string>)

  datatype Change = Change(status: char, path: string)

  /** A file imports another, or is a config that names it. */
  ghost function ImportEdge(repo: Repo): Edge<string>
  {
    (a, b) => a in repo.files
              && ((a in repo.imports && b in repo.imports[a]) || (a in repo.named && b in repo.named[a]))
  }

  /** As above, and from each test to every config that runs before it. */
  ghost function RunEdge(repo: Repo): Edge<string>
  {
    (a, b) => ImportEdge(repo)(a, b) || (b in repo.configs && a in repo.tests && RunsBefore(b, a))
  }

  lemma SameEdges<F(!new)>(edge: Edge<F>, other: Edge<F>, starts: set<F>)
    requires forall a, b :: edge(a, b) <==> other(a, b)
    ensures forall file :: Reaches(edge, file, starts) <==> Reaches(other, file, starts)
  {
    forall file | Reaches(edge, file, starts)
      ensures Reaches(other, file, starts)
    {
      ReachesMore(edge, other, file, starts, starts);
    }
    forall file | Reaches(other, file, starts)
      ensures Reaches(edge, file, starts)
    {
      ReachesMore(other, edge, file, starts, starts);
    }
  }

  function Under(config: string, tests: seq<string>): (r: set<string>)
    ensures forall test :: test in r <==> test in tests && RunsBefore(config, test)
  {
    set test | test in tests && RunsBefore(config, test)
  }

  /** Adds to each config's importers the tests it runs before. */
  method AddConfigs(before: Importers<string>, configs: seq<string>, tests: seq<string>) returns (importers: Importers<string>)
    ensures forall b :: Of(importers, b) == Of(before, b) + if b in configs then Under(b, tests) else {}
  {
    importers := before;
    for i := 0 to |configs|
      invariant forall b :: Of(importers, b) == Of(before, b) + if b in configs[..i] then Under(b, tests) else {}
    {
      var config := configs[i];
      ghost var was := importers;
      importers := importers[config := Of(importers, config) + Under(config, tests)];
      forall b
        ensures Of(importers, b) == Of(before, b) + if b in configs[..i + 1] then Under(b, tests) else {}
      {
        InOneMore(configs, i, b);
        assert Of(was, b) == Of(before, b) + if b in configs[..i] then Under(b, tests) else {};
      }
    }
    assert configs[..|configs|] == configs;
  }

  lemma InOneMore<T>(s: seq<T>, i: nat, x: T)
    requires i < |s|
    ensures x in s[..i + 1] <==> x in s[..i] || x == s[i]
  {
    assert s[..i + 1] == s[..i] + [s[i]];
  }

  /** What a change reaches, and what reaches a file that reads files: the second before any config edge is added. */
  method Reached(repo: Repo, changed: set<string>) returns (affected: set<string>, always: set<string>)
    ensures forall file :: file in affected <==> Reaches(RunEdge(repo), file, changed)
    ensures forall file :: file in always <==> Reaches(ImportEdge(repo), file, repo.readers)
  {
    var importers := ImportersOf(repo.files, repo.imports, repo.named);
    always := Reach(importers, repo.readers);
    SameEdges(EdgeOf(importers), ImportEdge(repo), repo.readers);
    importers := AddConfigs(importers, repo.configs, repo.tests);
    affected := Reach(importers, changed);
    SameEdges(EdgeOf(importers), RunEdge(repo), changed);
  }

  function Paths(changes: seq<Change>): (r: set<string>)
    ensures forall path :: path in r <==> exists change :: change in changes && change.path == path
  {
    set change | change in changes :: change.path
  }

  /** Every test runs: there is no base to compare with, or a change is of a kind that no import shows. */
  predicate RunsAll(known: bool, changes: seq<Change>, trigger: Change -> bool)
  {
    !known || exists change :: change in changes && trigger(change)
  }

  /** What it means for a test to be listed. */
  ghost predicate Listing(repo: Repo, known: bool, changes: seq<Change>, trigger: Change -> bool, kept: string -> bool, test: string)
  {
    && test in repo.tests
    && (|| !known
        || (exists change :: change in changes && trigger(change))
        || kept(test)
        || Reaches(ImportEdge(repo), test, repo.readers)
        || Reaches(RunEdge(repo), test, Paths(changes)))
  }

  method Select(repo: Repo, known: bool, changes: seq<Change>, trigger: Change -> bool, kept: string -> bool)
      returns (listed: set<string>)
    ensures forall test :: test in listed <==> Listing(repo, known, changes, trigger, kept, test)
  {
    if RunsAll(known, changes, trigger) {
      return set test | test in repo.tests;
    }
    var affected, always := Reached(repo, Paths(changes));
    listed := set test | test in repo.tests && (test in affected || test in always || kept(test));
  }

  /** For a fixed checkout, a larger change lists no fewer tests. */
  lemma MoreChangesListMore(repo: Repo, known: bool, changes: seq<Change>, more: seq<Change>, trigger: Change -> bool,
                            kept: string -> bool, test: string)
    requires Listing(repo, known, changes, trigger, kept, test)
    requires forall change :: change in changes ==> change in more
    ensures Listing(repo, known, more, trigger, kept, test)
  {
    if Reaches(RunEdge(repo), test, Paths(changes)) {
      assert Paths(changes) <= Paths(more);
      ReachesMore(RunEdge(repo), RunEdge(repo), test, Paths(changes), Paths(more));
    }
  }

  /** A changed test is listed, and so is every test under the directories of a changed config, or every test when it stands
      at the top, whatever they import. */
  lemma ChangedTestsAreListed(repo: Repo, known: bool, changes: seq<Change>, trigger: Change -> bool, kept: string -> bool,
                              test: string, changed: string)
    requires test in repo.tests && changed in Paths(changes)
    requires test == changed
      || (changed in repo.configs && |Glob.Split(changed)| == 1)
      || (changed in repo.configs && |Dirs(changed)| < |Glob.Split(test)| && Glob.Split(test)[..|Dirs(changed)|] == Dirs(changed))
    ensures Listing(repo, known, changes, trigger, kept, test)
  {
    ReachesItself(RunEdge(repo), changed, Paths(changes));
    if test != changed {
      RunsBeforeMeansSegments(changed, test);
      assert RunEdge(repo)(test, changed);
      ReachesNext(RunEdge(repo), test, changed, Paths(changes));
    }
  }

  // What a tsconfig inherits

  /** What a tsconfig itself says: its aliases when it has a `paths` map, its baseUrl, and the relative files it extends. */
  datatype Tsconfig<F> = Tsconfig(paths: Option<seq<string>>, base: Option<string>, parents: seq<F>)

  type Configs<F> = map<F, Tsconfig<F>>

  datatype Found = Found(aliases: seq<string>, base: Option<string>)

  const NOTHING := Found([], None)

  /** A config that gives neither an alias nor a baseUrl. */
  predicate Bare<F>(config: Tsconfig<F>)
  {
    config.base.None? && (config.paths.None? || config.paths == Some([]))
  }

  /** What a config gives over what it inherits: its own baseUrl wins. */
  function Over(base: Option<string>, found: Found): Found
  {
    Found(found.aliases, if base.Some? then base else found.base)
  }

  /** The search each branch would make on its own: depth first, the first parent that gives anything, going
      back to none of the configs above. */
  function Alone<F(==)>(configs: Configs<F>, path: F, above: set<F>): Found
    requires path in configs && path !in above
    decreases configs.Keys - above, 0
  {
    var own := configs[path];
    if own.paths.Some? then Found(own.paths.value, own.base)
    else Over(own.base, FirstAlone(configs, own.parents, above + {path}))
  }

  function FirstAlone<F(==)>(configs: Configs<F>, parents: seq<F>, above: set<F>): Found
    decreases configs.Keys - above, |parents|
  {
    if parents == [] then NOTHING
    else
      var here := if parents[0] in configs && parents[0] !in above then Alone(configs, parents[0], above) else NOTHING;
      if here != NOTHING then here else FirstAlone(configs, parents[1..], above)
  }

  /** A config without a `paths` map of its own is read on through a parent that is in the repository. */
  ghost function Inherits<F>(configs: Configs<F>): Edge<F>
  {
    (a, b) => a in configs && configs[a].paths.None? && b in configs[a].parents && b in configs
  }

  /** Whatever was seen and is not above is bare and inherits only from what was seen. */
  ghost predicate Spent<F(!new)>(configs: Configs<F>, above: set<F>, seen: set<F>)
  {
    forall a :: a in seen && a !in above ==>
      && a in configs && Bare(configs[a])
      && forall b :: Inherits(configs)(a, b) ==> b in seen
  }

  lemma {:induction false} SpentGivesNothing<F(!new)>(configs: Configs<F>, path: F, above: set<F>, seen: set<F>)
    requires path in configs && path !in above && path in seen && Spent(configs, above, seen)
    ensures Alone(configs, path, above) == NOTHING
    decreases configs.Keys - above, 0
  {
    var own := configs[path];
    if own.paths.None? {
      assert forall b :: b in own.parents && b in configs ==> Inherits(configs)(path, b);
      NoneSpentGives(configs, own.parents, above + {path}, seen);
    }
  }

  lemma {:induction false} NoneSpentGives<F(!new)>(configs: Configs<F>, parents: seq<F>, above: set<F>, seen: set<F>)
    requires Spent(configs, above, seen) && forall b :: b in parents && b in configs ==> b in seen
    ensures FirstAlone(configs, parents, above) == NOTHING
    decreases configs.Keys - above, |parents|
  {
    if parents != [] {
      if parents[0] in configs && parents[0] !in above {
        SpentGivesNothing(configs, parents[0], above, seen);
      }
      NoneSpentGives(configs, parents[1..], above, seen);
    }
  }

  /** The aliases and baseUrl of a tsconfig, from it or what it extends. One seen set is shared by every branch, so a
      cycle ends and nothing is searched twice, and yet each branch finds what it would find on its own. */
  method CompilerPaths<F(!new, ==)>(configs: Configs<F>, path: F, before: set<F>, ghost above: set<F>)
      returns (found: Found, seen: set<F>)
    requires path in configs && path !in before && above <= before && Spent(configs, above, before)
    ensures found == Alone(configs, path, above)
    ensures before + {path} <= seen && (found == NOTHING ==> Spent(configs, above, seen))
    decreases configs.Keys - before
  {
    seen := before + {path};
    var own := configs[path];
    if own.paths.Some? {
      return Found(own.paths.value, own.base), seen;
    }
    ghost var here := above + {path};
    for i := 0 to |own.parents|
      invariant before + {path} <= seen && Spent(configs, here, seen)
      invariant forall j :: 0 <= j < i && own.parents[j] in configs ==> own.parents[j] in seen
      invariant FirstAlone(configs, own.parents, here) == FirstAlone(configs, own.parents[i..], here)
    {
      var parent := own.parents[i];
      assert own.parents[i..][1..] == own.parents[i + 1..];
      if parent in configs && parent !in seen {
        var inherited;
        inherited, seen := CompilerPaths(configs, parent, seen, here);
        if inherited != NOTHING {
          return Over(own.base, inherited), seen;
        }
      } else if parent in configs && parent !in here {
        SpentGivesNothing(configs, parent, here, seen);
      }
    }
    found := Found([], own.base);
  }

  // Which config that is

  ghost function Giving<F>(configs: Configs<F>): set<F>
  {
    set path | path in configs && !Bare(configs[path])
  }

  ghost function GivingPaths<F>(configs: Configs<F>, aliases: seq<string>): set<F>
  {
    set path | path in configs && configs[path].paths == Some(aliases)
  }

  ghost function GivingBase<F>(configs: Configs<F>, base: Option<string>): set<F>
  {
    set path | path in configs && configs[path].base == base
  }

  /** A config on a chain of inheritance gives these aliases, and one gives this baseUrl. */
  ghost predicate Inherited<F(!new)>(configs: Configs<F>, path: F, found: Found)
  {
    var edge := Inherits(configs);
    && (found != NOTHING ==> Reaches(edge, path, Giving(configs)))
    && (found.aliases != [] ==> Reaches(edge, path, GivingPaths(configs, found.aliases)))
    && (found.base.Some? ==> Reaches(edge, path, GivingBase(configs, found.base)))
  }

  lemma InheritsFrom<F(!new)>(configs: Configs<F>, path: F, parent: F, found: Found)
    requires Inherits(configs)(path, parent) && Inherited(configs, parent, found)
    ensures Inherited(configs, path, found)
  {
    var edge := Inherits(configs);
    if found != NOTHING { ReachesNext(edge, path, parent, Giving(configs)); }
    if found.aliases != [] { ReachesNext(edge, path, parent, GivingPaths(configs, found.aliases)); }
    if found.base.Some? { ReachesNext(edge, path, parent, GivingBase(configs, found.base)); }
  }

  lemma GivesItself<F(!new)>(configs: Configs<F>, path: F)
    requires path in configs
    ensures Inherited(configs, path, Found([], configs[path].base))
    ensures configs[path].paths.Some? ==> Inherited(configs, path, Found(configs[path].paths.value, configs[path].base))
  {
    var edge, own := Inherits(configs), configs[path];
    ReachesItself(edge, path, GivingBase(configs, own.base));
    if !Bare(own) { ReachesItself(edge, path, Giving(configs)); }
    if own.paths.Some? { ReachesItself(edge, path, GivingPaths(configs, own.paths.value)); }
  }

  lemma OverIsInherited<F(!new)>(configs: Configs<F>, path: F, found: Found)
    requires path in configs && Inherited(configs, path, found)
    ensures Inherited(configs, path, Over(configs[path].base, found))
  {
    GivesItself(configs, path);
  }

  lemma {:induction false} AloneIsInherited<F(!new)>(configs: Configs<F>, path: F, above: set<F>)
    requires path in configs && path !in above
    ensures Inherited(configs, path, Alone(configs, path, above))
    decreases configs.Keys - above, 0
  {
    GivesItself(configs, path);
    var own := configs[path];
    if own.paths.None? {
      FirstIsInherited(configs, path, own.parents, above + {path});
      OverIsInherited(configs, path, FirstAlone(configs, own.parents, above + {path}));
    }
  }

  lemma {:induction false} FirstIsInherited<F(!new)>(configs: Configs<F>, path: F, parents: seq<F>, above: set<F>)
    requires path in configs && forall b :: b in parents && b in configs ==> Inherits(configs)(path, b)
    ensures Inherited(configs, path, FirstAlone(configs, parents, above))
    decreases configs.Keys - above, |parents|
  {
    if parents != [] {
      if parents[0] in configs && parents[0] !in above {
        AloneIsInherited(configs, parents[0], above);
        InheritsFrom(configs, path, parents[0], Alone(configs, parents[0], above));
      }
      FirstIsInherited(configs, path, parents[1..], above);
    }
  }

  lemma NothingMeansNone<F(!new)>(configs: Configs<F>, path: F, seen: set<F>)
    requires Spent(configs, {}, seen) && path in seen
    ensures !Reaches(Inherits(configs), path, Giving(configs))
  {
    var edge := Inherits(configs);
    if Reaches(edge, path, Giving(configs)) {
      var chain :| chain != [] && chain[0] == path && chain[|chain| - 1] in Giving(configs) && Leads(edge, chain);
      StaysSpent(configs, chain, seen);
    }
  }

  lemma {:induction false} StaysSpent<F(!new)>(configs: Configs<F>, chain: seq<F>, seen: set<F>)
    requires Spent(configs, {}, seen) && chain != [] && chain[0] in seen && Leads(Inherits(configs), chain)
    ensures chain[|chain| - 1] in seen
  {
    if |chain| > 1 {
      var later := chain[1..];
      assert Inherits(configs)(chain[0], chain[1]);
      assert forall i :: 0 <= i < |later| ==> later[i] == chain[i + 1];
      StaysSpent(configs, later, seen);
    }
  }

  /** What a tsconfig's own search finds is the first thing depth first, and it finds something exactly when something
      it inherits from gives something, cycles or not. */
  method SearchFrom<F(!new, ==)>(configs: Configs<F>, path: F) returns (found: Found)
    requires path in configs
    ensures found == Alone(configs, path, {}) && Inherited(configs, path, found)
    ensures found != NOTHING <==> Reaches(Inherits(configs), path, Giving(configs))
  {
    var seen;
    found, seen := CompilerPaths(configs, path, {}, {});
    AloneIsInherited(configs, path, {});
    if found == NOTHING { NothingMeansNone(configs, path, seen); }
  }

  // The scope of a directory

  function Add(have: Found, more: Found): Found
  {
    Found(have.aliases + more.aliases, if have.base.Some? then have.base else more.base)
  }

  /** What the tsconfigs of one directory give together: every alias, and the first baseUrl. */
  function Joined(configs: Configs<string>, files: seq<string>, directory: string): Found
    requires forall file :: file in files ==> file in configs
    decreases |files|
  {
    if files == [] then NOTHING
    else
      var last := files[|files| - 1];
      var have := Joined(configs, files[..|files| - 1], directory);
      if Dirname(last) == directory then Add(have, Alone(configs, last, {})) else have
  }

  lemma JoinedOneMore(configs: Configs<string>, files: seq<string>, i: nat, directory: string)
    requires i < |files| && forall file :: file in files ==> file in configs
    ensures Joined(configs, files[..i + 1], directory) ==
      if Dirname(files[i]) == directory then Add(Joined(configs, files[..i], directory), Alone(configs, files[i], {}))
      else Joined(configs, files[..i], directory)
  {
    SplitAt(files, i);
    assert files[..i + 1][..i] == files[..i];
  }

  function ScopeAt(scopes: map<string, Found>, directory: string): Found
  {
    if directory in scopes then scopes[directory] else NOTHING
  }

  method AddScope(before: map<string, Found>, directory: string, found: Found) returns (scopes: map<string, Found>)
    requires forall other :: other in before ==> before[other] != NOTHING
    ensures forall other :: ScopeAt(scopes, other) == if other == directory then Add(ScopeAt(before, other), found) else ScopeAt(before, other)
    ensures forall other :: other in scopes ==> scopes[other] != NOTHING
  {
    scopes := before;
    if found != NOTHING {
      scopes := scopes[directory := Add(ScopeAt(scopes, directory), found)];
    }
  }

  method TsconfigScopes(configs: Configs<string>, files: seq<string>) returns (scopes: map<string, Found>)
    requires forall file :: file in files ==> file in configs
    ensures forall directory :: ScopeAt(scopes, directory) == Joined(configs, files, directory)
    ensures forall directory :: directory in scopes ==> scopes[directory] != NOTHING
  {
    scopes := map[];
    for i := 0 to |files|
      invariant forall directory :: ScopeAt(scopes, directory) == Joined(configs, files[..i], directory)
      invariant forall directory :: directory in scopes ==> scopes[directory] != NOTHING
    {
      ghost var was := scopes;
      var found := SearchFrom(configs, files[i]);
      scopes := AddScope(scopes, Dirname(files[i]), found);
      forall directory
        ensures ScopeAt(scopes, directory) == Joined(configs, files[..i + 1], directory)
      {
        JoinedOneMore(configs, files, i, directory);
        assert ScopeAt(was, directory) == Joined(configs, files[..i], directory);
      }
    }
    Ends(files);
  }

  /** A directory has a scope exactly when a tsconfig in it inherits from one that gives something. */
  lemma {:induction false} ScopeMeansGiving(configs: Configs<string>, files: seq<string>, directory: string)
    requires forall file :: file in files ==> file in configs
    ensures Joined(configs, files, directory) != NOTHING <==>
      exists i :: 0 <= i < |files| && Dirname(files[i]) == directory && Alone(configs, files[i], {}) != NOTHING
    decreases |files|
  {
    if files != [] {
      var rest := files[..|files| - 1];
      ScopeMeansGiving(configs, rest, directory);
      assert forall i :: 0 <= i < |rest| ==> rest[i] == files[i];
    }
  }

  /** An alias is in a directory's scope exactly when some tsconfig in it finds it. */
  lemma {:induction false} ScopeHoldsEveryAlias(configs: Configs<string>, files: seq<string>, directory: string, alias: string)
    requires forall file :: file in files ==> file in configs
    ensures alias in Joined(configs, files, directory).aliases <==>
      exists i :: 0 <= i < |files| && Dirname(files[i]) == directory && alias in Alone(configs, files[i], {}).aliases
    decreases |files|
  {
    if files != [] {
      var rest := files[..|files| - 1];
      ScopeHoldsEveryAlias(configs, rest, directory, alias);
      assert forall i :: 0 <= i < |rest| ==> rest[i] == files[i];
    }
  }
}
