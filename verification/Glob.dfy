/** Globs compiled to patterns (gates/_contract.py) and what they mean segment by segment. */
module Glob {
  import opened Common

  /** The pieces a glob compiles to: `(?:.*` + `/)?`, `.*`, `[^/]*`, `[^/]` and one escaped character. */
  datatype Node = AnyDirs | AnyText | InSegment | OneChar | Lit(c: char)

  // The pattern language, as Python's re reads it

  predicate Free(s: string, c: char)
  {
    forall i :: 0 <= i < |s| ==> s[i] != c
  }

  /** A dot stops at a newline, a bracket does not, and the closing `$` also accepts one trailing newline. */
  predicate Accepts(nodes: seq<Node>, s: string)
    decreases |nodes|
  {
    if nodes == [] then s == "" || s == "\n"
    else
      var rest := nodes[1..];
      match nodes[0]
      case AnyDirs =>
        Accepts(rest, s) || exists k :: 0 < k <= |s| && s[k - 1] == '/' && Free(s[..k - 1], '\n') && Accepts(rest, s[k..])
      case AnyText => exists k :: 0 <= k <= |s| && Free(s[..k], '\n') && Accepts(rest, s[k..])
      case InSegment => exists k :: 0 <= k <= |s| && Free(s[..k], '/') && Accepts(rest, s[k..])
      case OneChar => s != "" && s[0] != '/' && Accepts(rest, s[1..])
      case Lit(c) => s != "" && s[0] == c && Accepts(rest, s[1..])
  }

  // Compiling

  predicate StartsAt(s: string, part: string, i: nat)
  {
    i + |part| <= |s| && s[i..i + |part|] == part
  }

  /** The first piece of a non-empty glob, and how many characters it takes. */
  function Piece(glob: string): (r: (Node, nat))
    requires glob != ""
    ensures 1 <= r.1 <= |glob|
  {
    if StartsAt(glob, "**/", 0) then (AnyDirs, 3)
    else if StartsAt(glob, "**", 0) then (AnyText, 2)
    else if glob[0] == '*' then (InSegment, 1)
    else if glob[0] == '?' then (OneChar, 1)
    else (Lit(glob[0]), 1)
  }

  function Compiled(glob: string): seq<Node>
    decreases |glob|
  {
    if glob == "" then [] else [Piece(glob).0] + Compiled(glob[Piece(glob).1..])
  }

  lemma PieceAt(glob: string, i: nat)
    requires i < |glob|
    ensures Piece(glob[i..]) ==
      if StartsAt(glob, "**/", i) then (AnyDirs, 3)
      else if StartsAt(glob, "**", i) then (AnyText, 2)
      else if glob[i] == '*' then (InSegment, 1)
      else if glob[i] == '?' then (OneChar, 1)
      else (Lit(glob[i]), 1)
  {
    if i + 3 <= |glob| { assert glob[i..][0..3] == glob[i..i + 3]; }
    if i + 2 <= |glob| { assert glob[i..][0..2] == glob[i..i + 2]; }
  }

  lemma PieceTaken(glob: string, i: nat, out: seq<Node>)
    requires i < |glob| && out + Compiled(glob[i..]) == Compiled(glob)
    ensures i + Piece(glob[i..]).1 <= |glob|
    ensures out + [Piece(glob[i..]).0] + Compiled(glob[i + Piece(glob[i..]).1..]) == Compiled(glob)
  {
    var piece := Piece(glob[i..]);
    DroppedTwice(glob, i, piece.1);
    Grouped(out, [piece.0], Compiled(glob[i + piece.1..]));
  }

  lemma DroppedTwice(s: string, i: nat, j: nat)
    requires i + j <= |s|
    ensures s[i..][j..] == s[i + j..]
  {
  }

  method GlobToRegex(glob: string) returns (out: seq<Node>)
    ensures out == Compiled(glob)
  {
    var i := 0;
    out := [];
    Ends(glob);
    while i < |glob|
      invariant i <= |glob|
      invariant out + Compiled(glob[i..]) == Compiled(glob)
    {
      PieceAt(glob, i);
      PieceTaken(glob, i, out);
      if StartsAt(glob, "**/", i) {
        out, i := out + [AnyDirs], i + 3;
      } else if StartsAt(glob, "**", i) {
        out, i := out + [AnyText], i + 2;
      } else if glob[i] == '*' {
        out, i := out + [InSegment], i + 1;
      } else if glob[i] == '?' {
        out, i := out + [OneChar], i + 1;
      } else {
        out, i := out + [Lit(glob[i])], i + 1;
      }
    }
    assert glob[i..] == "" && out + [] == out;
  }

  // What a glob means

  function Split(s: string): (r: seq<string>)
    ensures r != []
    ensures forall i :: 0 <= i < |r| ==> Free(r[i], '/')
  {
    if s == "" then [""]
    else if s[0] == '/' then [""] + Split(s[1..])
    else var r := Split(s[1..]); [[s[0]] + r[0]] + r[1..]
  }

  /** One segment against one: a star is any run, a question mark any one character. */
  predicate Wild(glob: string, segment: string)
    decreases |glob|
  {
    if glob == "" then segment == ""
    else if glob[0] == '*' then exists k :: 0 <= k <= |segment| && Wild(glob[1..], segment[k..])
    else segment != "" && (glob[0] == '?' || glob[0] == segment[0]) && Wild(glob[1..], segment[1..])
  }

  /** Segment by segment: `**` before others skips zero or more whole segments, and a last one takes all that is left. */
  predicate Fits(globs: seq<string>, segments: seq<string>)
    decreases |globs|
  {
    if globs == [] then segments == []
    else if globs == ["**"] then segments != []
    else if globs[0] == "**" then exists k :: 0 <= k < |segments| && Fits(globs[1..], segments[k..])
    else segments != [] && Wild(globs[0], segments[0]) && Fits(globs[1..], segments[1..])
  }

  predicate NoDouble(s: string)
  {
    forall i :: 0 <= i < |s| - 1 ==> !(s[i] == '*' && s[i + 1] == '*')
  }

  /** Every `**` is a whole segment. */
  predicate WholeStars(globs: seq<string>)
  {
    forall i :: 0 <= i < |globs| ==> globs[i] == "**" || NoDouble(globs[i])
  }

  // The compiled form against the meaning

  /** Dropping what stands before a slash drops whole segments. */
  lemma {:induction false} AfterSlash(s: string, k: nat) returns (j: nat)
    requires k == 0 || (k <= |s| && s[k - 1] == '/')
    ensures j < |Split(s)| && Split(s[k..]) == Split(s)[j..]
  {
    if k == 0 {
      assert s[0..] == s;
      j := 0;
      assert Split(s)[0..] == Split(s);
    } else {
      assert s[1..][k - 1..] == s[k..];
      if s[0] == '/' {
        var i := AfterSlash(s[1..], k - 1);
        j := i + 1;
      } else {
        assert s[1..][k - 2] == s[k - 1];
        var i := AfterSlash(s[1..], k - 1);
        j := if i == 0 then 0 else i;
        if i == 0 { FirstIsShorter(s[1..], k - 1); }
      }
    }
  }

  /** Past a slash there are fewer segments than before it. */
  lemma {:induction false} FirstIsShorter(s: string, k: nat)
    requires 0 < k <= |s| && s[k - 1] == '/'
    ensures |Split(s[k..])| < |Split(s)|
  {
    assert s[1..][k - 1..] == s[k..];
    if k > 1 {
      assert s[1..][k - 2] == s[k - 1];
      FirstIsShorter(s[1..], k - 1);
    } else {
      assert s[1..] == s[k..];
    }
  }

  /** Every run of whole segments left at the end starts the text or follows a slash. */
  lemma {:induction false} BeforeSegment(s: string, j: nat) returns (k: nat)
    requires j < |Split(s)|
    ensures k <= |s| && (k == 0 || s[k - 1] == '/') && Split(s[k..]) == Split(s)[j..]
  {
    if j == 0 {
      k := 0;
      assert s[0..] == s && Split(s)[0..] == Split(s);
    } else if s[0] == '/' {
      var i := BeforeSegment(s[1..], j - 1);
      k := i + 1;
      assert s[1..][i..] == s[k..];
    } else {
      var i := BeforeSegment(s[1..], j);
      k := i + 1;
      assert s[1..][i..] == s[k..];
      assert s[1..][0..] == s[1..] && |Split(s[1..])[j..]| < |Split(s[1..])|;
    }
  }

  lemma FreeLater(s: string, k: nat, c: char)
    requires 0 < k <= |s|
    ensures Free(s[..k], c) <==> s[0] != c && Free(s[1..][..k - 1], c)
  {
    var later := s[1..][..k - 1];
    if Free(s[..k], c) {
      assert s[..k][0] == s[0];
      forall i | 0 <= i < |later|
        ensures later[i] != c
      {
        assert later[i] == s[..k][i + 1];
      }
    } else {
      var i :| 0 <= i < k && s[..k][i] == c;
      assert i > 0 ==> later[i - 1] == c;
    }
  }

  lemma SplitOff(s: string)
    requires s != "" && s[0] != '/'
    ensures Split(s)[0] == [s[0]] + Split(s[1..])[0] && Split(s)[1..] == Split(s[1..])[1..]
  {
  }

  /** Dropping part of the first segment shortens that segment alone. */
  lemma {:induction false} WithinFirst(s: string, k: nat)
    requires k <= |s|
    ensures Free(s[..k], '/') <==> k <= |Split(s)[0]|
    ensures k <= |Split(s)[0]| ==> Split(s[k..]) == [Split(s)[0][k..]] + Split(s)[1..]
  {
    if k == 0 {
      assert s[0..] == s && Split(s)[0][0..] == Split(s)[0];
    } else if s[0] == '/' {
      assert s[..k][0] == '/';
    } else {
      WithinFirst(s[1..], k - 1);
      assert s[1..][k - 1..] == s[k..];
      FreeLater(s, k, '/');
      var rest := Split(s[1..]);
      SplitOff(s);
      assert k <= |Split(s)[0]| ==> Split(s)[0][k..] == rest[0][k - 1..];
    }
  }

  lemma {:induction false} NoSlashIsOne(s: string)
    requires Free(s, '/')
    ensures Split(s) == [s]
  {
    if s != "" {
      NoSlashIsOne(s[1..]);
      assert [s[0]] + s[1..] == s;
    }
  }

  lemma NoDoubleLater(s: string)
    requires s != "" && NoDouble(s)
    ensures NoDouble(s[1..]) && s[1..] != "**"
  {
    var later := s[1..];
    forall i | 0 <= i < |later| - 1
      ensures !(later[i] == '*' && later[i + 1] == '*')
    {
      assert later[i] == s[i + 1] && later[i + 1] == s[i + 2];
    }
    assert |later| == 2 ==> !(later[0] == '*' && later[1] == '*');
  }

  lemma WholeLater(globs: seq<string>, later: seq<string>)
    requires globs != [] && |later| == |globs| && WholeStars(globs) && later[1..] == globs[1..]
    requires later[0] == "**" || NoDouble(later[0])
    ensures WholeStars(later)
  {
    forall i | 0 <= i < |later|
      ensures later[i] == "**" || NoDouble(later[i])
    {
      if i > 0 {
        assert later[i] == later[1..][i - 1] && globs[i] == globs[1..][i - 1];
      }
    }
  }

  /** Past a character that does not open a `**`, the rest of its segment is not one either. */
  lemma FirstOf(glob: string)
    requires glob != "" && glob[0] != '/' && WholeStars(Split(glob)) && !StartsAt(glob, "**", 0)
    ensures WholeStars(Split(glob[1..]))
    ensures Split(glob)[0] != "**" && Split(glob[1..])[0] != "**"
  {
    var first, rest := Split(glob)[0], Split(glob[1..]);
    SplitOff(glob);
    FirstIsPrefix(glob);
    assert |first| == 2 ==> glob[0..2] == first;
    NoDoubleLater(first);
    assert first[1..] == rest[0];
    assert |Split(glob)| == |rest|;
    WholeLater(Split(glob), rest);
  }

  lemma {:induction false} FirstIsPrefix(s: string)
    ensures |Split(s)[0]| <= |s| && s[..|Split(s)[0]|] == Split(s)[0]
  {
    if s != "" && s[0] != '/' {
      FirstIsPrefix(s[1..]);
    }
  }

  lemma FreeSlice(s: string, c: char, a: nat, b: nat)
    requires Free(s, c) && a <= b <= |s|
    ensures Free(s[a..b], c)
  {
    forall i | 0 <= i < b - a
      ensures s[a..b][i] != c
    {
      assert s[a..b][i] == s[a + i];
    }
  }

  /** A compiled glob accepts exactly the newline-free paths its segments fit. */
  lemma {:induction false} CompiledMeansSegments(glob: string, path: string)
    requires WholeStars(Split(glob)) && Free(path, '\n')
    ensures Accepts(Compiled(glob), path) <==> Fits(Split(glob), Split(path))
    decreases |glob|, 1
  {
    if glob == "" {
      NothingFits(path);
    } else if StartsAt(glob, "**/", 0) {
      DirsMean(glob, path);
    } else if StartsAt(glob, "**", 0) {
      LastStarsMean(glob, path);
    } else if glob[0] == '/' {
      SlashMeans(glob, path);
    } else if glob[0] == '*' {
      StarMeans(glob, path);
    } else {
      CharMeans(glob, path);
    }
  }

  lemma NothingFits(path: string)
    requires Free(path, '\n')
    ensures Accepts([], path) <==> Fits(Split(""), Split(path))
  {
    OnlyEmpty(path);
    assert !Free("\n", '\n') by { assert "\n"[0] == '\n'; }
    assert [""][1..] == [];
    assert Split(path)[1..] == [] ==> Split(path) == [Split(path)[0]];
  }

  lemma OnlyEmpty(s: string)
    ensures Split(s) == [""] <==> s == ""
  {
    if s != "" && s[0] != '/' { SplitOff(s); }
  }

  /** The rest of a glob accepts what the rest of its segments fit, wherever the path is cut. */
  lemma {:induction false} RestMeans(rest: string, path: string, k: nat)
    requires WholeStars(Split(rest)) && Free(path, '\n') && k <= |path|
    ensures Accepts(Compiled(rest), path[k..]) <==> Fits(Split(rest), Split(path[k..]))
    decreases |rest|, 2
  {
    FreeSlice(path, '\n', k, |path|);
    CompiledMeansSegments(rest, path[k..]);
  }

  lemma DirsSplit(glob: string)
    requires StartsAt(glob, "**/", 0)
    ensures Split(glob) == ["**"] + Split(glob[3..]) && (WholeStars(Split(glob)) ==> WholeStars(Split(glob[3..])))
    ensures Split(glob)[1..] == Split(glob[3..]) && |Split(glob)| > 1
    ensures Compiled(glob) != [] && Compiled(glob)[0] == AnyDirs && Compiled(glob)[1..] == Compiled(glob[3..])
  {
    assert glob[0..3] == "**/";
    assert glob[0] == glob[0..3][0] && glob[1] == glob[0..3][1] && glob[2] == glob[0..3][2];
    assert glob[1..][1..] == glob[2..] && glob[2..][1..] == glob[3..];
    assert Split(glob[2..]) == [""] + Split(glob[3..]);
    SplitOff(glob);
    SplitOff(glob[1..]);
    assert Split(glob)[0] == "**";
    assert Split(glob)[1..] == Split(glob[3..]);
    if WholeStars(Split(glob)) { WholeRest("**", Split(glob[3..])); }
  }

  lemma {:induction false} DirsMean(glob: string, path: string)
    requires WholeStars(Split(glob)) && Free(path, '\n') && StartsAt(glob, "**/", 0)
    ensures Accepts(Compiled(glob), path) <==> Fits(Split(glob), Split(path))
    decreases |glob|, 0
  {
    DirsSplit(glob);
    var rest := glob[3..];
    forall k | 0 <= k <= |path|
      ensures Accepts(Compiled(rest), path[k..]) <==> Fits(Split(rest), Split(path[k..]))
    {
      RestMeans(rest, path, k);
    }
    if Accepts(Compiled(glob), path) { SkipsDirs(glob, path); }
    if Fits(Split(glob), Split(path)) { DirsSkipped(glob, path); }
  }

  lemma SkipsDirs(glob: string, path: string)
    requires Compiled(glob) != [] && Compiled(glob)[0] == AnyDirs && |Split(glob)| > 1 && Split(glob)[0] == "**"
    requires Accepts(Compiled(glob), path)
    requires forall k :: 0 <= k <= |path| ==>
      (Accepts(Compiled(glob)[1..], path[k..]) <==> Fits(Split(glob)[1..], Split(path[k..])))
    ensures Fits(Split(glob), Split(path))
  {
    var rest, k := Compiled(glob)[1..], 0;
    if Accepts(rest, path) {
      assert path[0..] == path;
    } else {
      k :| 0 < k <= |path| && path[k - 1] == '/' && Free(path[..k - 1], '\n') && Accepts(rest, path[k..]);
    }
    var j := AfterSlash(path, k);
    assert Fits(Split(glob)[1..], Split(path)[j..]);
  }

  lemma DirsSkipped(glob: string, path: string)
    requires Compiled(glob) != [] && Compiled(glob)[0] == AnyDirs && |Split(glob)| > 1 && Split(glob)[0] == "**"
    requires Fits(Split(glob), Split(path)) && Free(path, '\n')
    requires forall k :: 0 <= k <= |path| ==>
      (Accepts(Compiled(glob)[1..], path[k..]) <==> Fits(Split(glob)[1..], Split(path[k..])))
    ensures Accepts(Compiled(glob), path)
  {
    var j :| 0 <= j < |Split(path)| && Fits(Split(glob)[1..], Split(path)[j..]);
    var k := BeforeSegment(path, j);
    if k == 0 {
      assert path[0..] == path;
    } else {
      FreeSlice(path, '\n', 0, k - 1);
      assert path[0..k - 1] == path[..k - 1];
      assert Accepts(Compiled(glob)[1..], path[k..]);
    }
  }

  lemma WholeRest(first: string, globs: seq<string>)
    requires WholeStars([first] + globs)
    ensures WholeStars(globs)
  {
    forall i | 0 <= i < |globs|
      ensures globs[i] == "**" || NoDouble(globs[i])
    {
      assert ([first] + globs)[i + 1] == globs[i];
    }
  }

  lemma DoubleOpens(glob: string)
    requires StartsAt(glob, "**/", 0)
    ensures StartsAt(glob, "**", 0)
  {
    assert glob[0..2] == glob[0..3][0..2];
  }

  /** A glob longer than its first segment has a slash after it. */
  lemma SlashEndsFirst(glob: string)
    requires Split(glob)[0] == "**" && |glob| > 2
    ensures StartsAt(glob, "**/", 0)
  {
    FirstIsPrefix(glob);
    WithinFirst(glob, 2);
    WithinFirst(glob, 3);
    assert glob[..3] == glob[..2] + [glob[2]];
    assert glob[0..3] == glob[..2] + [glob[2]];
  }

  lemma TakesAll(s: string)
    requires Free(s, '\n')
    ensures Accepts([AnyText], s)
  {
    assert [AnyText][1..] == [];
    assert s[|s|..] == "" && s[..|s|] == s && Accepts([], "");
  }

  lemma LastStarsMean(glob: string, path: string)
    requires WholeStars(Split(glob)) && Free(path, '\n') && StartsAt(glob, "**", 0) && !StartsAt(glob, "**/", 0)
    ensures Accepts(Compiled(glob), path) && Fits(Split(glob), Split(path))
  {
    assert glob[0..2] == "**" && glob[0] == glob[0..2][0] && glob[1] == glob[0..2][1];
    SplitOff(glob);
    SplitOff(glob[1..]);
    var first := Split(glob)[0];
    assert first[0] == '*' && first[1] == '*';
    assert first == "**";
    if |glob| > 2 { SlashEndsFirst(glob); }
    assert glob == "**" && glob[2..] == "";
    assert Compiled(glob) == [AnyText] && [AnyText][1..] == [];
    NoSlashIsOne(glob);
    TakesAll(path);
  }

  lemma {:induction false} SlashMeans(glob: string, path: string)
    requires WholeStars(Split(glob)) && Free(path, '\n') && glob != "" && glob[0] == '/'
    ensures Accepts(Compiled(glob), path) <==> Fits(Split(glob), Split(path))
    decreases |glob|, 0
  {
    var rest := glob[1..];
    WholeRest("", Split(rest));
    assert Compiled(glob)[0] == Lit('/') && Compiled(glob)[1..] == Compiled(rest);
    EmptyFirst(Split(rest), Split(path));
    if path != "" && path[0] == '/' {
      RestMeans(rest, path, 1);
      assert ([""] + Split(path[1..]))[1..] == Split(path[1..]);
    } else if path != "" {
      SplitOff(path);
    }
  }

  /** An empty segment fits an empty one, and there must be more after it when the glob goes on. */
  lemma EmptyFirst(globs: seq<string>, segments: seq<string>)
    requires globs != [] && segments != []
    ensures Fits([""] + globs, segments) <==> segments[0] == "" && |segments| > 1 && Fits(globs, segments[1..])
  {
    assert ([""] + globs)[1..] == globs;
    assert !Fits(globs, []);
  }

  lemma {:induction false} StarMeans(glob: string, path: string)
    requires WholeStars(Split(glob)) && Free(path, '\n') && glob != "" && glob[0] == '*' && !StartsAt(glob, "**", 0)
    ensures Accepts(Compiled(glob), path) <==> Fits(Split(glob), Split(path))
    decreases |glob|, 0
  {
    FirstOf(glob);
    SplitOff(glob);
    if StartsAt(glob, "**/", 0) { DoubleOpens(glob); }
    var rest := Compiled(glob)[1..];
    assert rest == Compiled(glob[1..]);
    forall k | 0 <= k <= |path|
      ensures Accepts(rest, path[k..]) <==> Fits(Split(glob[1..]), Split(path[k..]))
    {
      RestMeans(glob[1..], path, k);
    }
    assert Split(glob)[0][1..] == Split(glob[1..])[0];
    if Accepts(Compiled(glob), path) { StarTakes(rest, Split(glob), Split(glob[1..]), path); }
    if Fits(Split(glob), Split(path)) { StarTaken(rest, Split(glob), Split(glob[1..]), path); }
  }

  predicate StarAhead(rest: seq<Node>, globs: seq<string>, later: seq<string>, path: string)
  {
    && |globs| == |later| > 0 && globs[0] != "**" && later[0] != "**"
    && globs[0] != "" && globs[0][0] == '*' && globs[0][1..] == later[0] && globs[1..] == later[1..]
    && forall k :: 0 <= k <= |path| ==> (Accepts(rest, path[k..]) <==> Fits(later, Split(path[k..])))
  }

  lemma StarTakes(rest: seq<Node>, globs: seq<string>, later: seq<string>, path: string)
    requires StarAhead(rest, globs, later, path)
    requires exists k :: 0 <= k <= |path| && Free(path[..k], '/') && Accepts(rest, path[k..])
    ensures Fits(globs, Split(path))
  {
    var k :| 0 <= k <= |path| && Free(path[..k], '/') && Accepts(rest, path[k..]);
    WithinFirst(path, k);
    assert Wild(later[0], Split(path)[0][k..]);
    assert ([Split(path)[0][k..]] + Split(path)[1..])[1..] == Split(path)[1..];
  }

  lemma StarTaken(rest: seq<Node>, globs: seq<string>, later: seq<string>, path: string)
    requires StarAhead(rest, globs, later, path) && Fits(globs, Split(path))
    ensures exists k :: 0 <= k <= |path| && Free(path[..k], '/') && Accepts(rest, path[k..])
  {
    var k :| 0 <= k <= |Split(path)[0]| && Wild(later[0], Split(path)[0][k..]);
    FirstIsPrefix(path);
    WithinFirst(path, k);
    assert ([Split(path)[0][k..]] + Split(path)[1..])[1..] == Split(path)[1..];
    assert Accepts(rest, path[k..]);
  }

  lemma {:induction false} CharMeans(glob: string, path: string)
    requires WholeStars(Split(glob)) && Free(path, '\n') && glob != "" && glob[0] != '*' && glob[0] != '/'
    ensures Accepts(Compiled(glob), path) <==> Fits(Split(glob), Split(path))
    decreases |glob|, 0
  {
    CharCompiled(glob);
    FirstOf(glob);
    SplitOff(glob);
    assert Split(glob)[0][1..] == Split(glob[1..])[0];
    if path != "" && path[0] != '/' {
      RestMeans(glob[1..], path, 1);
      SplitOff(path);
      CharGoesOn(glob[0], Split(glob), Split(glob[1..]), Split(path), Split(path[1..]));
    } else if path != "" {
      assert Split(path)[0] == "";
    }
    if Fits(Split(glob), Split(path)) { CharFits(glob[0], Split(glob), Split(path)); }
  }

  /** One plain character less on both sides. */
  lemma CharGoesOn(c: char, globs: seq<string>, later: seq<string>, segments: seq<string>, left: seq<string>)
    requires globs != [] && later != [] && segments != [] && left != [] && c != '*'
    requires globs[0] != "" && globs[0][0] == c && globs[0][1..] == later[0] && globs[1..] == later[1..] && later[0] != "**"
    requires segments[0] != "" && segments[0][1..] == left[0] && segments[1..] == left[1..]
    ensures Fits(globs, segments) <==> (c == '?' || c == segments[0][0]) && Fits(later, left)
  {
  }

  // Any glob at all: what fits is accepted

  /** The rest of a first segment that has begun, and the segments after it. */
  predicate FitsOn(globs: seq<string>, segments: seq<string>)
  {
    globs != [] && segments != [] && Wild(globs[0], segments[0]) && Fits(globs[1..], segments[1..])
  }

  /** Fitting on is fitting, even where the rest of a segment happens to be `**`. */
  lemma FittingOnFits(globs: seq<string>, segments: seq<string>)
    requires FitsOn(globs, segments)
    ensures Fits(globs, segments)
  {
    if globs[0] == "**" && |globs| > 1 {
      assert |segments| > 1;
      assert Fits(globs[1..], segments[1..]);
    }
  }

  /** Whatever its stars, a glob's pattern accepts each newline-free path its segments fit. */
  lemma {:induction false} FittingIsAccepted(glob: string, path: string)
    requires Free(path, '\n') && Fits(Split(glob), Split(path))
    ensures Accepts(Compiled(glob), path)
    decreases |glob|, 1
  {
    if glob == "" {
      NothingFits(path);
    } else if StartsAt(glob, "**/", 0) {
      DirsAccept(glob, path);
    } else if StartsAt(glob, "**", 0) {
      DoubleAccepts(glob, path);
    } else if glob[0] == '/' {
      SlashAccepts(glob, path);
    } else if glob[0] == '*' {
      StarAccepts(glob, path);
    } else {
      CharAccepts(glob, path);
    }
  }

  lemma {:induction false} RestAccepts(rest: string, path: string, k: nat)
    requires Free(path, '\n') && k <= |path| && Fits(Split(rest), Split(path[k..]))
    ensures Accepts(Compiled(rest), path[k..])
    decreases |rest|, 2
  {
    FreeSlice(path, '\n', k, |path|);
    FittingIsAccepted(rest, path[k..]);
  }

  lemma {:induction false} DirsAccept(glob: string, path: string)
    requires Free(path, '\n') && StartsAt(glob, "**/", 0) && Fits(Split(glob), Split(path))
    ensures Accepts(Compiled(glob), path)
    decreases |glob|, 0
  {
    DirsSplit(glob);
    var j :| 0 <= j < |Split(path)| && Fits(Split(glob)[1..], Split(path)[j..]);
    var k := BeforeSegment(path, j);
    RestAccepts(glob[3..], path, k);
    if k == 0 {
      assert path[0..] == path;
    } else {
      FreeSlice(path, '\n', 0, k - 1);
      assert path[0..k - 1] == path[..k - 1];
    }
  }

  /** Part of a path's first segment taken, the rest of it and of the path. */
  lemma SegmentLeft(path: string, k: nat)
    requires k <= |Split(path)[0]|
    ensures k <= |path| && Free(path[..k], '/')
    ensures Split(path[k..])[0] == Split(path)[0][k..] && Split(path[k..])[1..] == Split(path)[1..]
  {
    FirstIsPrefix(path);
    WithinFirst(path, k);
    assert ([Split(path)[0][k..]] + Split(path)[1..])[1..] == Split(path)[1..];
  }

  lemma {:induction false} DoubleAccepts(glob: string, path: string)
    requires Free(path, '\n') && StartsAt(glob, "**", 0) && !StartsAt(glob, "**/", 0) && Fits(Split(glob), Split(path))
    ensures Accepts(Compiled(glob), path)
    decreases |glob|, 0
  {
    var rest := glob[2..];
    assert glob[0..2] == "**" && glob[0] == glob[0..2][0] && glob[1] == glob[0..2][1];
    assert Compiled(glob)[0] == AnyText && Compiled(glob)[1..] == Compiled(rest);
    var k := DoubleTakes(glob, path);
    RestAccepts(rest, path, k);
    FreeSlice(path, '\n', 0, k);
    assert path[0..k] == path[..k];
  }

  /** How much of the path's first segment two stars take. */
  lemma DoubleTakes(glob: string, path: string) returns (k: nat)
    requires |glob| >= 2 && glob[0] == '*' && glob[1] == '*' && !StartsAt(glob, "**/", 0) && Fits(Split(glob), Split(path))
    ensures k <= |path| && Fits(Split(glob[2..]), Split(path[k..]))
  {
    DoubleOff(glob);
    if Split(glob)[0] == "**" {
      if |glob| > 2 { SlashEndsFirst(glob); }
      k := |path|;
      assert glob[2..] == "" && path[|path|..] == "" && [""][1..] == [];
    } else {
      var i := WildTakesTwo(Split(glob)[0], Split(path)[0]);
      k := i;
      SegmentLeft(path, k);
      FittingOnFits(Split(glob[2..]), Split(path[k..]));
    }
  }

  lemma DoubleOff(glob: string)
    requires |glob| >= 2 && glob[0] == '*' && glob[1] == '*'
    ensures |Split(glob)[0]| >= 2 && Split(glob)[0][0] == Split(glob)[0][1] == '*'
    ensures Split(glob)[0][2..] == Split(glob[2..])[0] && Split(glob)[1..] == Split(glob[2..])[1..]
    ensures |Split(glob)| == |Split(glob[2..])|
  {
    SplitOff(glob);
    SplitOff(glob[1..]);
    assert glob[1..][1..] == glob[2..];
    assert Split(glob)[0][1..] == Split(glob[1..])[0];
    DroppedTwice(Split(glob)[0], 1, 1);
  }

  lemma WildTakesTwo(first: string, segment: string) returns (k: nat)
    requires |first| >= 2 && first[0] == '*' && first[1] == '*' && Wild(first, segment)
    ensures k <= |segment| && Wild(first[2..], segment[k..])
  {
    var i := WildTakesOne(first, segment);
    var j := WildTakesOne(first[1..], segment[i..]);
    DroppedTwice(first, 1, 1);
    DroppedTwice(segment, i, j);
    k := i + j;
  }

  lemma WildTakesOne(first: string, segment: string) returns (k: nat)
    requires first != "" && first[0] == '*' && Wild(first, segment)
    ensures k <= |segment| && Wild(first[1..], segment[k..])
  {
    k :| k <= |segment| && Wild(first[1..], segment[k..]);
  }

  lemma {:induction false} SlashAccepts(glob: string, path: string)
    requires Free(path, '\n') && glob != "" && glob[0] == '/' && Fits(Split(glob), Split(path))
    ensures Accepts(Compiled(glob), path)
    decreases |glob|, 0
  {
    var rest := glob[1..];
    assert Compiled(glob)[0] == Lit('/') && Compiled(glob)[1..] == Compiled(rest);
    EmptyFirst(Split(rest), Split(path));
    OnlyEmpty(path);
    if path != "" && path[0] != '/' { SplitOff(path); }
    assert ([""] + Split(path[1..]))[1..] == Split(path[1..]);
    RestAccepts(rest, path, 1);
  }

  lemma {:induction false} StarAccepts(glob: string, path: string)
    requires Free(path, '\n') && glob != "" && glob[0] == '*' && !StartsAt(glob, "**", 0) && Fits(Split(glob), Split(path))
    ensures Accepts(Compiled(glob), path)
    decreases |glob|, 0
  {
    var rest := glob[1..];
    if StartsAt(glob, "**/", 0) { DoubleOpens(glob); }
    assert Compiled(glob)[0] == InSegment && Compiled(glob)[1..] == Compiled(rest);
    SplitOff(glob);
    FirstIsPrefix(glob);
    var first := Split(glob)[0];
    assert |first| == 2 ==> glob[0..2] == first;
    assert first[1..] == Split(rest)[0];
    var k :| 0 <= k <= |Split(path)[0]| && Wild(first[1..], Split(path)[0][k..]);
    SegmentLeft(path, k);
    FittingOnFits(Split(rest), Split(path[k..]));
    RestAccepts(rest, path, k);
  }

  lemma {:induction false} CharAccepts(glob: string, path: string)
    requires Free(path, '\n') && glob != "" && glob[0] != '*' && glob[0] != '/' && Fits(Split(glob), Split(path))
    ensures Accepts(Compiled(glob), path)
    decreases |glob|, 0
  {
    SplitOff(glob);
    CharFits(glob[0], Split(glob), Split(path));
    PathStarts(path);
    SegmentLeft(path, 1);
    assert Split(glob)[0][1..] == Split(glob[1..])[0];
    FittingOnFits(Split(glob[1..]), Split(path[1..]));
    RestAccepts(glob[1..], path, 1);
    CharCompiled(glob);
  }

  lemma CharCompiled(glob: string)
    requires glob != "" && glob[0] != '*'
    ensures Compiled(glob) == [if glob[0] == '?' then OneChar else Lit(glob[0])] + Compiled(glob[1..])
  {
    assert |glob| >= 2 ==> glob[0..2][0] == glob[0];
    assert |glob| >= 3 ==> glob[0..3][0] == glob[0];
  }

  lemma CharFits(c: char, globs: seq<string>, segments: seq<string>)
    requires globs != [] && globs[0] != "" && globs[0][0] == c && c != '*' && Fits(globs, segments)
    ensures segments != [] && segments[0] != "" && (c == '?' || c == segments[0][0])
    ensures Wild(globs[0][1..], segments[0][1..]) && Fits(globs[1..], segments[1..])
  {
    assert globs[0] != "**";
  }

  lemma PathStarts(path: string)
    requires Split(path)[0] != ""
    ensures path != "" && path[0] == Split(path)[0][0] && path[0] != '/'
  {
    FirstIsPrefix(path);
    assert path[0] == path[..|Split(path)[0]|][0];
  }

  // What follows from it

  predicate AnyAccepts(path: string, globs: seq<string>)
  {
    exists i :: 0 <= i < |globs| && Accepts(Compiled(globs[i]), path)
  }

  predicate AnyFits(path: string, globs: seq<string>)
  {
    exists i :: 0 <= i < |globs| && Fits(Split(globs[i]), Split(path))
  }

  /** A path is matched when any of the globs compiles to a pattern that accepts it: on newline-free paths, whenever its
      segments fit one, and only then when every `**` is a whole segment. */
  method Matches(path: string, globs: seq<string>) returns (any: bool)
    ensures any == AnyAccepts(path, globs)
    ensures Free(path, '\n') && AnyFits(path, globs) ==> any
    ensures Free(path, '\n') && (forall i :: 0 <= i < |globs| ==> WholeStars(Split(globs[i]))) ==> any == AnyFits(path, globs)
  {
    any := false;
    for i := 0 to |globs|
      invariant !any && forall j :: 0 <= j < i ==> !Accepts(Compiled(globs[j]), path)
    {
      var pattern := GlobToRegex(globs[i]);
      if Accepts(pattern, path) {
        any := true;
        break;
      }
    }
    if Free(path, '\n') { AcceptedMeansFits(path, globs); }
  }

  lemma AcceptedMeansFits(path: string, globs: seq<string>)
    requires Free(path, '\n')
    ensures AnyFits(path, globs) ==> AnyAccepts(path, globs)
    ensures (forall i :: 0 <= i < |globs| ==> WholeStars(Split(globs[i]))) ==> AnyAccepts(path, globs) == AnyFits(path, globs)
  {
    forall i | 0 <= i < |globs|
      ensures Fits(Split(globs[i]), Split(path)) ==> Accepts(Compiled(globs[i]), path)
      ensures WholeStars(Split(globs[i])) ==> (Accepts(Compiled(globs[i]), path) <==> Fits(Split(globs[i]), Split(path)))
    {
      if Fits(Split(globs[i]), Split(path)) { FittingIsAccepted(globs[i], path); }
      if WholeStars(Split(globs[i])) { CompiledMeansSegments(globs[i], path); }
    }
  }

  /** `**` and a name, as in the Python test globs: the last segment alone decides, at any depth. */
  lemma AnywhereMeansLast(name: string, path: string)
    requires Free(name, '/') && NoDouble(name) && Free(path, '\n')
    ensures Accepts(Compiled("**/" + name), path) <==> Wild(name, Split(path)[|Split(path)| - 1])
  {
    OpensWithDirs("**/" + name, name);
    OpenedMeansLast("**/" + name, name, path);
  }

  lemma OpenedMeansLast(glob: string, name: string, path: string)
    requires Split(glob) == ["**", name] && WholeStars(Split(glob)) && name != "**" && Free(path, '\n')
    ensures Accepts(Compiled(glob), path) <==> Wild(name, Split(path)[|Split(path)| - 1])
  {
    CompiledMeansSegments(glob, path);
    LastDecides(name, Split(path));
  }

  lemma LastDecides(name: string, segments: seq<string>)
    requires segments != [] && name != "**"
    ensures Fits(["**", name], segments) <==> Wild(name, segments[|segments| - 1])
  {
    assert ["**", name][1..] == [name] && [name][1..] == [];
    forall k | 0 <= k < |segments|
      ensures Fits([name], segments[k..]) <==> k == |segments| - 1 && Wild(name, segments[k])
    {
      assert segments[k..][1..] == segments[k + 1..];
    }
    assert Fits([name], segments[|segments| - 1..]) <==> Wild(name, segments[|segments| - 1]);
  }

  lemma OpensWithDirs(glob: string, name: string)
    requires glob == "**/" + name && Free(name, '/') && NoDouble(name)
    ensures Split(glob) == ["**", name] && WholeStars(Split(glob))
  {
    assert glob[1..][1..] == "/" + name && ("/" + name)[1..] == name;
    NoSlashIsOne(name);
    assert Split("/" + name) == [""] + [name];
    SplitOff(glob);
    SplitOff(glob[1..]);
    assert Split(glob)[0] == "**";
    assert Split(glob)[1..] == [name];
  }

  // Where the two readings part

  predicate Agree(glob: string, path: string)
  {
    Accepts(Compiled(glob), path) <==> Fits(Split(glob), Split(path))
  }

  /** A path on which every glob of whole-segment stars is read alike is a path without a newline, and only such a one. */
  lemma PathsReadAlike(path: string)
    ensures (forall glob :: WholeStars(Split(glob)) ==> Agree(glob, path)) <==> Free(path, '\n')
  {
    if Free(path, '\n') {
      forall glob | WholeStars(Split(glob))
        ensures Agree(glob, path)
      {
        CompiledMeansSegments(glob, path);
      }
    } else {
      var glob := ReadApart(path);
      assert WholeStars(Split(glob)) && !Agree(glob, path);
    }
  }

  lemma ReadApart(path: string) returns (glob: string)
    requires !Free(path, '\n')
    ensures WholeStars(Split(glob)) && !Agree(glob, path)
  {
    var i :| 0 <= i < |path| && path[i] == '\n';
    var shorter := path[..|path| - 1];
    if !Free(shorter, '\n') {
      glob := "**";
      NoSlashIsOne(glob);
      StarsCompile();
      StopsAtNewline(path);
    } else {
      assert forall j :: 0 <= j < |shorter| ==> shorter[j] == path[j];
      glob := Masked(shorter);
      FreeSegments(glob, '*');
      assert shorter + "\n" == path;
      MaskedAccepts(shorter);
      if Fits(Split(glob), Split(path)) { MaskedFits(shorter, path); }
    }
  }

  lemma StopsAtNewline(path: string)
    requires path != "" && !Free(path[..|path| - 1], '\n')
    ensures !Accepts([AnyText], path)
  {
    var i :| 0 <= i < |path| - 1 && path[..|path| - 1][i] == '\n';
    assert [AnyText][1..] == [];
    forall k | 0 <= k <= |path| && Free(path[..k], '\n')
      ensures !Accepts([], path[k..])
    {
      PrefixStops(path, i, k);
    }
  }

  lemma PrefixStops(path: string, i: nat, k: nat)
    requires i < |path| && path[i] == '\n' && k <= |path| && Free(path[..k], '\n')
    ensures k <= i
  {
    assert forall j :: 0 <= j < k ==> path[..k][j] == path[j];
  }

  /** A path with every character but its slashes turned into a question mark. */
  function Masked(path: string): (r: string)
    ensures |r| == |path| && Free(r, '*')
  {
    if path == "" then "" else [if path[0] == '/' then '/' else '?'] + Masked(path[1..])
  }

  lemma {:induction false} FreeSegments(s: string, c: char)
    requires Free(s, c)
    ensures forall i :: 0 <= i < |Split(s)| ==> Free(Split(s)[i], c)
  {
    if s != "" {
      FreeSlice(s, c, 1, |s|);
      FreeSegments(s[1..], c);
    }
  }

  lemma {:induction false} MaskedAccepts(path: string)
    requires Free(path, '\n')
    ensures Accepts(Compiled(Masked(path)), path + "\n")
  {
    if path == "" {
      assert "" + "\n" == "\n";
    } else {
      FreeSlice(path, '\n', 1, |path|);
      MaskedAccepts(path[1..]);
      CharCompiled(Masked(path));
      assert Masked(path)[1..] == Masked(path[1..]) && (path + "\n")[1..] == path[1..] + "\n";
    }
  }

  /** What fits a masked path is as long as it. */
  lemma {:induction false} MaskedFits(path: string, other: string)
    requires Fits(Split(Masked(path)), Split(other))
    ensures |other| == |path|
  {
    var glob, segments := Masked(path), Split(other);
    OnlyEmpty(other);
    if path == "" {
      assert [""][1..] == [] && segments[1..] == [] && segments == [segments[0]];
    } else {
      assert glob[1..] == Masked(path[1..]);
      if path[0] == '/' {
        EmptyFirst(Split(glob[1..]), segments);
        if other[0] != '/' { SplitOff(other); }
        assert segments[1..] == Split(other[1..]);
      } else {
        SplitOff(glob);
        CharFits('?', Split(glob), segments);
        PathStarts(other);
        SegmentLeft(other, 1);
        assert Split(glob)[0][1..] == Split(glob[1..])[0];
        FittingOnFits(Split(glob[1..]), Split(other[1..]));
      }
      MaskedFits(path[1..], other[1..]);
    }
  }

  /** A glob without a `**` segment is read alike on every newline-free path exactly when no two of its stars are adjacent, or
      when it names a newline and so matches none of them. */
  lemma GlobsReadAlike(glob: string)
    requires "**" !in Split(glob)
    ensures (forall path :: Free(path, '\n') ==> Agree(glob, path)) <==> NoDouble(glob) || !Free(glob, '\n')
  {
    if NoDouble(glob) || !Free(glob, '\n') {
      forall path | Free(path, '\n')
        ensures Agree(glob, path)
      {
        if Free(glob, '\n') {
          SegmentsNoDouble(glob);
          CompiledMeansSegments(glob, path);
        } else {
          NewlineAcceptsNone(glob, path);
          if Fits(Split(glob), Split(path)) { FittingIsAccepted(glob, path); }
        }
      }
    } else {
      var path := Crossing(Compiled(glob));
      LitsAreTaken(glob);
      CrossingIsAccepted(Compiled(glob));
      CrossingAddsSlashes(glob);
      SplitCounts(glob);
      SplitCounts(path);
      if Fits(Split(glob), Split(path)) { FitsOneByOne(Split(glob), Split(path)); }
      assert Free(path, '\n') && !Agree(glob, path);
    }
  }

  /** A glob of one segment: it may also be `**` itself. */
  lemma SegmentsReadAlike(glob: string)
    requires Free(glob, '/')
    ensures (forall path :: Free(path, '\n') ==> Agree(glob, path)) <==> glob == "**" || NoDouble(glob) || !Free(glob, '\n')
  {
    NoSlashIsOne(glob);
    if glob == "**" {
      forall path | Free(path, '\n')
        ensures Agree(glob, path)
      {
        CompiledMeansSegments(glob, path);
      }
    } else {
      GlobsReadAlike(glob);
    }
  }

  lemma SegmentsNoDouble(glob: string)
    requires NoDouble(glob)
    ensures WholeStars(Split(glob))
  {
    forall i | 0 <= i < |Split(glob)|
      ensures NoDouble(Split(glob)[i])
    {
      SegmentNoDouble(glob, i);
    }
  }

  lemma {:induction false} SegmentNoDouble(s: string, i: nat)
    requires NoDouble(s) && i < |Split(s)|
    ensures NoDouble(Split(s)[i])
  {
    if i == 0 {
      FirstIsPrefix(s);
      assert forall j :: 0 <= j < |Split(s)[0]| ==> Split(s)[0][j] == s[j];
    } else {
      NoDoubleLater(s);
      SegmentNoDouble(s[1..], if s[0] == '/' then i - 1 else i);
    }
  }

  function Slashes(s: string): nat
  {
    if s == "" then 0 else (if s[0] == '/' then 1 else 0) + Slashes(s[1..])
  }

  lemma {:induction false} SplitCounts(s: string)
    ensures |Split(s)| == Slashes(s) + 1
  {
    if s != "" { SplitCounts(s[1..]); }
  }

  /** Without a `**` segment there is one segment for each of the glob's. */
  lemma {:induction false} FitsOneByOne(globs: seq<string>, segments: seq<string>)
    requires "**" !in globs && Fits(globs, segments)
    ensures |segments| == |globs|
  {
    if globs != [] { FitsOneByOne(globs[1..], segments[1..]); }
  }

  /** A pattern that names a newline accepts no path without one. */
  lemma {:induction false} NewlineAcceptsNone(glob: string, path: string)
    requires !Free(glob, '\n') && Free(path, '\n')
    ensures !Accepts(Compiled(glob), path)
    decreases |glob|
  {
    var piece := Piece(glob);
    var rest := glob[piece.1..];
    var i :| 0 <= i < |glob| && glob[i] == '\n';
    if i >= piece.1 {
      assert rest[i - piece.1] == '\n';
      forall k | 0 <= k <= |path|
        ensures !Accepts(Compiled(rest), path[k..])
      {
        FreeSlice(path, '\n', k, |path|);
        NewlineAcceptsNone(rest, path[k..]);
      }
      assert path[0..] == path;
    } else {
      NewlineIsLit(glob, i);
    }
  }

  lemma NewlineIsLit(glob: string, i: nat)
    requires i < |glob| && glob[i] == '\n' && i < Piece(glob).1
    ensures Piece(glob) == (Lit('\n'), 1)
  {
    assert |glob| >= 3 ==> forall j :: 0 <= j < 3 ==> glob[0..3][j] == glob[j];
    assert |glob| >= 2 ==> forall j :: 0 <= j < 2 ==> glob[0..2][j] == glob[j];
  }

  /** Text that a piece accepts, with a slash more than the glob has there when the piece is two stars. */
  function Crossed(node: Node): string
  {
    match node
    case AnyDirs => "//"
    case AnyText => "/"
    case InSegment => ""
    case OneChar => "x"
    case Lit(c) => [c]
  }

  function Crossing(nodes: seq<Node>): string
  {
    if nodes == [] then "" else Crossed(nodes[0]) + Crossing(nodes[1..])
  }

  lemma {:induction false} CrossingIsAccepted(nodes: seq<Node>)
    requires Lit('\n') !in nodes
    ensures Accepts(nodes, Crossing(nodes)) && Free(Crossing(nodes), '\n')
  {
    if nodes != [] {
      var rest, path := Crossing(nodes[1..]), Crossing(nodes);
      CrossingIsAccepted(nodes[1..]);
      assert path[|Crossed(nodes[0])|..] == rest && path[..|Crossed(nodes[0])|] == Crossed(nodes[0]);
      if nodes[0].AnyDirs? { assert path[1] == '/' && Free(path[..1], '\n'); }
    }
  }

  lemma {:induction false} SlashesAdd(a: string, b: string)
    ensures Slashes(a + b) == Slashes(a) + Slashes(b)
  {
    if a == "" {
      assert a + b == b;
    } else {
      TailOfSum(a, b);
      SlashesAdd(a[1..], b);
    }
  }

  /** Two stars and a slash, or two stars, taken from a glob. */
  lemma SlashesTaken(glob: string, part: string)
    requires StartsAt(glob, part, 0)
    ensures Slashes(glob) == Slashes(part) + Slashes(glob[|part|..])
  {
    assert glob == part + glob[|part|..];
    SlashesAdd(part, glob[|part|..]);
  }

  lemma FewSlashes()
    ensures Slashes("**/") == 1 && Slashes("**") == 0 && Slashes("//") == 2 && Slashes("/") == 1
    ensures forall c :: Slashes([c]) == if c == '/' then 1 else 0
  {
    assert "**/"[1..] == "*/" && "*/"[1..] == "/" && "/"[1..] == "" && "**"[1..] == "*" && "*"[1..] == "" && "//"[1..] == "/";
    forall c
      ensures Slashes([c]) == if c == '/' then 1 else 0
    {
      assert [c][1..] == "";
    }
  }

  /** A piece gives a crossing path as many slashes as it takes from the glob, and one more for two stars. */
  lemma PieceSlashes(glob: string)
    requires glob != ""
    ensures var piece := Piece(glob);
      Slashes(Crossed(piece.0)) + Slashes(glob[piece.1..])
      == Slashes(glob) + if piece.0.AnyDirs? || piece.0.AnyText? then 1 else 0
  {
    FewSlashes();
    if StartsAt(glob, "**/", 0) {
      SlashesTaken(glob, "**/");
    } else if StartsAt(glob, "**", 0) {
      SlashesTaken(glob, "**");
    }
  }

  /** One that is not two stars begins no two stars. */
  lemma SinglePiece(glob: string)
    requires glob != "" && !Piece(glob).0.AnyDirs? && !Piece(glob).0.AnyText?
    ensures Piece(glob).1 == 1 && (NoDouble(glob[1..]) ==> NoDouble(glob))
  {
    var later := glob[1..];
    assert |glob| >= 2 ==> glob[0..2] == [glob[0], glob[1]];
    assert forall i :: 0 <= i < |later| ==> later[i] == glob[i + 1];
    if NoDouble(later) {
      forall i | 0 <= i < |glob| - 1
        ensures !(glob[i] == '*' && glob[i + 1] == '*')
      {
        if i > 0 { assert later[i - 1] == glob[i] && later[i] == glob[i + 1]; }
      }
    }
  }

  lemma CompiledFirst(glob: string)
    requires glob != ""
    ensures Crossing(Compiled(glob)) == Crossed(Piece(glob).0) + Crossing(Compiled(glob[Piece(glob).1..]))
  {
    assert Compiled(glob)[0] == Piece(glob).0 && Compiled(glob)[1..] == Compiled(glob[Piece(glob).1..]);
  }

  lemma {:induction false} CrossingAddsSlashes(glob: string)
    ensures Slashes(Crossing(Compiled(glob))) >= Slashes(glob) + if NoDouble(glob) then 0 else 1
    decreases |glob|
  {
    if glob != "" {
      var piece := Piece(glob);
      CrossingAddsSlashes(glob[piece.1..]);
      PieceSlashes(glob);
      CompiledFirst(glob);
      SlashesAdd(Crossed(piece.0), Crossing(Compiled(glob[piece.1..])));
      if !piece.0.AnyDirs? && !piece.0.AnyText? { SinglePiece(glob); }
    }
  }

  lemma {:induction false} LitsAreTaken(glob: string)
    requires Free(glob, '\n')
    ensures Lit('\n') !in Compiled(glob)
    decreases |glob|
  {
    if glob != "" {
      FreeSlice(glob, '\n', Piece(glob).1, |glob|);
      LitsAreTaken(glob[Piece(glob).1..]);
    }
  }

  /** For one, two stars after a letter cross a slash. */
  lemma StarsInsideCross()
    ensures Accepts(Compiled("a**"), "ab/c") && !Fits(Split("a**"), Split("ab/c"))
  {
    InsideCompile();
    assert [Lit('a'), AnyText][1..] == [AnyText] && "ab/c"[1..] == "b/c";
    TakesAll("b/c");
    NoSlashIsOne("a**");
    TwoSegments();
    OneFitsOne("a**", Split("ab/c"));
  }

  lemma OneFitsOne(glob: string, segments: seq<string>)
    requires glob != "**" && |segments| > 1
    ensures !Fits([glob], segments)
  {
    assert [glob][1..] == [];
  }

  lemma InsideCompile()
    ensures Compiled("a**") == [Lit('a'), AnyText]
  {
    assert "a**"[0..3][0] == 'a' && "a**"[0..2][0] == 'a' && "a**"[1..] == "**";
    StarsCompile();
  }

  lemma StarsCompile()
    ensures Compiled("**") == [AnyText]
  {
    assert "**"[2..] == "" && "**"[0..2] == "**";
  }

  lemma TwoSegments()
    ensures |Split("ab/c")| > 1
  {
    WithinFirst("ab/c", 2);
    assert "ab/c"[2..][1..] == "c" && Split("ab/c"[2..]) == [""] + Split("c");
  }

  /** For one, the closing anchor stands before a last newline too. */
  lemma LastNewlineSlips()
    ensures Accepts(Compiled("a"), "a\n") && !Fits(Split("a"), Split("a\n"))
  {
    assert "a"[1..] == "" && Compiled("a") == [Lit('a')] && [Lit('a')][1..] == [];
    assert "a\n"[1..] == "\n";
    NoSlashIsOne("a");
    NoSlashIsOne("a\n");
    assert !Wild("", "\n");
  }
}
