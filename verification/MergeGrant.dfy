/** The line rules of a merge grant (gates/_merge_grant.py). Every line is put in the context of the
    less-indented lines above it, the contexts are diffed, and a grant holds only when no changed line is
    one of an exclusion's. A pattern is any predicate on a line, and the diff is any valid alignment. */
module MergeGrant {
  import opened Common

  // Lines

  /** The characters Python's str.strip removes. */
  predicate IsSpace(c: char)
  {
    var n := c as int;
    9 <= n <= 13 || 28 <= n <= 32 || n == 0x85 || n == 0xA0 || n == 0x1680 || 0x2000 <= n <= 0x200A
    || n == 0x2028 || n == 0x2029 || n == 0x202F || n == 0x205F || n == 0x3000
  }

  /** All of them, by number. */
  lemma SpacesAre(c: char)
    ensures IsSpace(c) <==> c as int in {
      0x9, 0xA, 0xB, 0xC, 0xD, 0x1C, 0x1D, 0x1E, 0x1F, 0x20, 0x85, 0xA0, 0x1680, 0x2000, 0x2001, 0x2002, 0x2003, 0x2004, 0x2005,
      0x2006, 0x2007, 0x2008, 0x2009, 0x200A, 0x2028, 0x2029, 0x202F, 0x205F, 0x3000}
  {
  }

  function StripLeft(s: string): (r: string)
    ensures |r| <= |s| && forall c :: c in r ==> c in s
  {
    if s != [] && IsSpace(s[0]) then StripLeft(s[1..]) else s
  }

  function StripRight(s: string): (r: string)
    ensures forall c :: c in r ==> c in s
    decreases |s|
  {
    if s != [] && IsSpace(s[|s| - 1]) then StripRight(s[..|s| - 1]) else s
  }

  /** A line as written, the spaces before its text, and its text. */
  datatype Line = Line(raw: string, indent: nat, text: string)

  function ReadLine(raw: string): Line
  {
    Line(raw, |raw| - |StripLeft(raw)|, StripRight(StripLeft(raw)))
  }

  /** A blank line or a comment is nobody's context. */
  predicate Significant(line: Line) { line.text != [] && line.text[0] != '#' }

  function Split(text: string): (r: seq<string>)
    ensures r != []
    ensures forall line, c :: line in r && c in line ==> c in text
  {
    if text == [] then [""]
    else
      var rest := Split(text[1..]);
      if text[0] == '\n' then [""] + rest else [[text[0]] + rest[0]] + rest[1..]
  }

  /** The text of lines, a newline between each two. */
  function WithNewlines(lines: seq<string>): string
    requires lines != []
  {
    if |lines| == 1 then lines[0] else lines[0] + "\n" + WithNewlines(lines[1..])
  }

  lemma NewlineFirst(lines: seq<string>)
    requires lines != []
    ensures WithNewlines([""] + lines) == ['\n'] + WithNewlines(lines)
  {
    assert ([""] + lines)[1..] == lines;
    assert "" + "\n" == ['\n'];
  }

  lemma FirstLonger(c: char, lines: seq<string>)
    requires lines != []
    ensures WithNewlines([[c] + lines[0]] + lines[1..]) == [c] + WithNewlines(lines)
  {
    var longer := [[c] + lines[0]] + lines[1..];
    assert longer[1..] == lines[1..];
    if |lines| > 1 {
      var rest := WithNewlines(lines[1..]);
      Grouped([c], lines[0], "\n");
      Grouped([c], lines[0] + "\n", rest);
    }
  }

  /** A text is cut at its newlines and nowhere else. */
  lemma {:induction false} SplitAtNewlines(text: string)
    ensures WithNewlines(Split(text)) == text && forall line :: line in Split(text) ==> '\n' !in line
  {
    if text != [] {
      SplitAtNewlines(text[1..]);
      FirstApart(text);
      NewlineFirst(Split(text[1..]));
      FirstLonger(text[0], Split(text[1..]));
    }
  }

  // The context of a line

  /** The nearest significant line above `below` with a smaller indent. */
  function Opener(lines: seq<Line>, below: nat, indent: nat): (r: Option<nat>)
    requires below <= |lines|
    ensures r.Some? ==> r.value < below && Significant(lines[r.value]) && lines[r.value].indent < indent
    ensures forall j :: (if r.Some? then r.value + 1 else 0) <= j < below && Significant(lines[j]) ==> lines[j].indent >= indent
  {
    if below == 0 then None
    else if Significant(lines[below - 1]) && lines[below - 1].indent < indent then Some(below - 1)
    else Opener(lines, below - 1, indent)
  }

  /** That line, the nearest above it with a smaller indent than its own, and so on: outermost first. */
  function Chain(lines: seq<Line>, below: nat, indent: nat): (r: seq<nat>)
    requires below <= |lines|
    ensures forall k :: 0 <= k < |r| ==> r[k] < below && Significant(lines[r[k]])
    decreases below
  {
    var o := Opener(lines, below, indent);
    if o.None? then [] else Chain(lines, o.value, lines[o.value].indent) + [o.value]
  }

  function LastSignificant(lines: seq<Line>, upTo: nat): (r: Option<nat>)
    requires upTo <= |lines|
    ensures r.Some? ==> r.value < upTo && Significant(lines[r.value])
    ensures forall j :: (if r.Some? then r.value + 1 else 0) <= j < upTo ==> !Significant(lines[j])
  {
    if upTo == 0 then None
    else if Significant(lines[upTo - 1]) then Some(upTo - 1)
    else LastSignificant(lines, upTo - 1)
  }

  function Texts(lines: seq<Line>, chain: seq<nat>): (r: seq<string>)
    requires forall k :: 0 <= k < |chain| ==> chain[k] < |lines|
    ensures |r| == |chain|
  {
    seq(|chain|, k requires 0 <= k < |chain| => lines[chain[k]].text)
  }

  /** The enclosing keys of line i: the chain above the last significant line at or before it. */
  function Keys(lines: seq<Line>, i: nat): (r: seq<string>)
    requires i < |lines|
  {
    var last := LastSignificant(lines, i + 1);
    if last.None? then [] else Texts(lines, Chain(lines, last.value, lines[last.value].indent))
  }

  /** A line encloses line t exactly when every significant line after it, down to t, is deeper than it. */
  lemma {:induction false} ChainIsWhatEncloses(lines: seq<Line>, t: nat, j: nat)
    requires t < |lines| && Significant(lines[t])
    ensures j in Chain(lines, t, lines[t].indent) <==>
      j < t && Significant(lines[j]) && forall m :: j < m <= t && Significant(lines[m]) ==> lines[m].indent > lines[j].indent
  {
    var o := Opener(lines, t, lines[t].indent);
    if o.Some? {
      ChainIsWhatEncloses(lines, o.value, j);
    }
  }

  // The stack that keeps it

  function Popped(lines: seq<Line>, stack: seq<nat>, indent: nat): (r: seq<nat>)
    requires forall k :: 0 <= k < |stack| ==> stack[k] < |lines|
    ensures r <= stack
    decreases |stack|
  {
    if stack != [] && lines[stack[|stack| - 1]].indent >= indent then Popped(lines, stack[..|stack| - 1], indent) else stack
  }

  lemma {:induction false} NoOpener(lines: seq<Line>, below: nat, indent: nat)
    requires below <= |lines|
    requires forall j :: 0 <= j < below && Significant(lines[j]) ==> lines[j].indent >= indent
    ensures Chain(lines, below, indent) == []
  {
  }

  /** Popping what is not shallower leaves exactly the new line's chain. */
  lemma {:induction false} PoppedIsChain(lines: seq<Line>, t: nat, below: nat, indent: nat)
    requires t < below <= |lines| && Significant(lines[t])
    requires forall j :: t < j < below && Significant(lines[j]) ==> lines[j].indent >= indent
    ensures Popped(lines, Chain(lines, t, lines[t].indent) + [t], indent) == Chain(lines, below, indent)
    decreases t
  {
    var above := Chain(lines, t, lines[t].indent);
    var stack := above + [t];
    assert stack[|stack| - 1] == t && stack[..|stack| - 1] == above;
    if lines[t].indent < indent {
      assert Opener(lines, below, indent) == Some(t);
    } else {
      var o := Opener(lines, t, lines[t].indent);
      if o.Some? {
        PoppedIsChain(lines, o.value, below, indent);
      } else {
        NoOpener(lines, below, indent);
      }
    }
  }

  /** What the stack holds after the first n lines. */
  function StackAfter(lines: seq<Line>, n: nat): (r: seq<nat>)
    requires n <= |lines|
    ensures forall k :: 0 <= k < |r| ==> r[k] < |lines|
  {
    var last := LastSignificant(lines, n);
    if last.None? then [] else Chain(lines, last.value, lines[last.value].indent) + [last.value]
  }

  lemma PushKeepsStack(lines: seq<Line>, n: nat)
    requires n < |lines| && Significant(lines[n])
    ensures Popped(lines, StackAfter(lines, n), lines[n].indent) == Chain(lines, n, lines[n].indent)
    ensures StackAfter(lines, n + 1) == Chain(lines, n, lines[n].indent) + [n]
  {
    var last := LastSignificant(lines, n);
    if last.Some? {
      PoppedIsChain(lines, last.value, n, lines[n].indent);
    } else {
      NoOpener(lines, n, lines[n].indent);
    }
  }

  const UNIT := 31 as char
  const NUL := 0 as char

  function Joined(keys: seq<string>): string
  {
    if keys == [] then [] else if |keys| == 1 then keys[0] else keys[0] + [UNIT] + Joined(keys[1..])
  }

  function Keyed(keys: seq<string>, raw: string): string { Joined(keys) + [NUL] + raw }

  function KeyOf(lines: seq<Line>): nat -> string
  {
    (i: nat) => if i < |lines| then Keyed(Keys(lines, i), lines[i].raw) else ""
  }

  function KeyedLines(lines: seq<Line>): (r: seq<string>)
    ensures |r| == |lines|
  {
    Tabulated(KeyOf(lines), |lines|)
  }

  /** The stack holds the indent and text of these lines. */
  predicate Mirrors(lines: seq<Line>, stack: seq<(nat, string)>, at: seq<nat>)
  {
    && |stack| == |at|
    && forall k :: 0 <= k < |at| ==> at[k] < |lines| && stack[k] == (lines[at[k]].indent, lines[at[k]].text)
  }

  method Push(lines: seq<Line>, before: seq<(nat, string)>, i: nat) returns (stack: seq<(nat, string)>)
    requires i < |lines| && Significant(lines[i]) && Mirrors(lines, before, StackAfter(lines, i))
    ensures Mirrors(lines, stack, StackAfter(lines, i + 1))
  {
    PushKeepsStack(lines, i);
    stack := before;
    ghost var at := StackAfter(lines, i);
    while stack != [] && stack[|stack| - 1].0 >= lines[i].indent
      invariant Mirrors(lines, stack, at)
      invariant Popped(lines, at, lines[i].indent) == Chain(lines, i, lines[i].indent)
      decreases |stack|
    {
      stack := stack[..|stack| - 1];
      at := at[..|at| - 1];
    }
    stack := stack + [(lines[i].indent, lines[i].text)];
  }

  method KeyFrom(lines: seq<Line>, stack: seq<(nat, string)>, i: nat) returns (key: string)
    requires i < |lines| && Mirrors(lines, stack, StackAfter(lines, i + 1))
    ensures key == KeyOf(lines)(i)
  {
    var above := if stack == [] then [] else stack[..|stack| - 1];
    var texts := seq(|above|, k requires 0 <= k < |above| => above[k].1);
    assert texts == Keys(lines, i);
    key := Keyed(texts, lines[i].raw);
  }

  method Advance(lines: seq<Line>, before: seq<(nat, string)>, i: nat) returns (stack: seq<(nat, string)>)
    requires i < |lines| && Mirrors(lines, before, StackAfter(lines, i))
    ensures Mirrors(lines, stack, StackAfter(lines, i + 1))
  {
    stack := before;
    if Significant(lines[i]) {
      stack := Push(lines, before, i);
    }
  }

  /** The stack loop gives every line the key its enclosing lines spell. */
  method InContext(lines: seq<Line>) returns (keyed: seq<string>)
    ensures keyed == KeyedLines(lines)
  {
    var stack: seq<(nat, string)> := [];
    keyed := [];
    for i := 0 to |lines|
      invariant Mirrors(lines, stack, StackAfter(lines, i))
      invariant keyed == Tabulated(KeyOf(lines), i)
    {
      stack := Advance(lines, stack, i);
      var key := KeyFrom(lines, stack, i);
      keyed := keyed + [key];
    }
  }

  // What a key says of its line

  predicate Plain(text: string) { UNIT !in text && NUL !in text }

  predicate PlainLines(lines: seq<Line>) { forall k :: 0 <= k < |lines| ==> Plain(lines[k].text) }

  lemma {:induction false} FirstCut(c: char, x: string, y: string, rest: string, other: string)
    requires c !in x && c !in y && x + [c] + rest == y + [c] + other
    ensures x == y && rest == other
  {
    var s, t := x + [c] + rest, y + [c] + other;
    assert s[..|x|] == x && s[|x|] == c && s[|x| + 1..] == rest;
    assert t[..|y|] == y && t[|y|] == c && t[|y| + 1..] == other;
    assert forall k :: 0 <= k < |x| ==> s[k] == x[k] && x[k] != c;
    assert forall k :: 0 <= k < |y| ==> t[k] == y[k] && y[k] != c;
  }

  predicate PlainKeys(keys: seq<string>) { forall i :: 0 <= i < |keys| ==> keys[i] != [] && Plain(keys[i]) }

  lemma {:induction false} JoinedIsPlain(keys: seq<string>)
    requires PlainKeys(keys)
    ensures NUL !in Joined(keys) && (keys != [] ==> Joined(keys) != [])
    ensures |keys| == 1 ==> UNIT !in Joined(keys)
  {
    if |keys| > 1 { JoinedIsPlain(keys[1..]); }
  }

  lemma {:induction false} JoinedIsInjective(keys: seq<string>, other: seq<string>)
    requires PlainKeys(keys) && PlainKeys(other) && Joined(keys) == Joined(other)
    ensures keys == other
  {
    JoinedIsPlain(keys);
    JoinedIsPlain(other);
    if keys != [] && other != [] {
      assert |keys| > 1 ==> Joined(keys)[|keys[0]|] == UNIT;
      assert |other| > 1 ==> Joined(other)[|other[0]|] == UNIT;
      if |keys| > 1 && |other| > 1 {
        assert Joined(keys) == keys[0] + [UNIT] + Joined(keys[1..]);
        assert Joined(other) == other[0] + [UNIT] + Joined(other[1..]);
        FirstCut(UNIT, keys[0], other[0], Joined(keys[1..]), Joined(other[1..]));
        JoinedIsInjective(keys[1..], other[1..]);
      }
    }
  }

  lemma KeysArePlain(lines: seq<Line>, i: nat)
    requires i < |lines| && PlainLines(lines)
    ensures PlainKeys(Keys(lines, i))
  {
  }

  /** Without the two separators in any text, equal keys mean the same line under the same enclosing keys. */
  lemma KeyedIsInjective(base: seq<Line>, i: nat, head: seq<Line>, j: nat)
    requires i < |base| && j < |head| && PlainLines(base) && PlainLines(head)
    requires Keyed(Keys(base, i), base[i].raw) == Keyed(Keys(head, j), head[j].raw)
    ensures Keys(base, i) == Keys(head, j) && base[i].raw == head[j].raw
  {
    KeysArePlain(base, i);
    KeysArePlain(head, j);
    JoinedIsPlain(Keys(base, i));
    JoinedIsPlain(Keys(head, j));
    FirstCut(NUL, Joined(Keys(base, i)), Joined(Keys(head, j)), base[i].raw, head[j].raw);
    JoinedIsInjective(Keys(base, i), Keys(head, j));
  }

  // The diff and the rules

  /** One block of a diff: base lines [i1, i2) against head lines [j1, j2). */
  datatype Opcode = Opcode(equal: bool, i1: nat, i2: nat, j1: nat, j2: nat)

  /** The blocks tile both sequences from i and j on, and the equal ones are equal. */
  predicate Aligned(a: seq<string>, b: seq<string>, ops: seq<Opcode>, i: nat, j: nat)
    decreases |ops|
  {
    if ops == [] then i == |a| && j == |b|
    else
      var op := ops[0];
      && op.i1 == i && op.j1 == j && i <= op.i2 <= |a| && j <= op.j2 <= |b|
      && (op.equal ==> a[i..op.i2] == b[j..op.j2])
      && Aligned(a, b, ops[1..], op.i2, op.j2)
  }

  type Diff = (seq<string>, seq<string>) -> seq<Opcode>

  ghost predicate ValidDiff(diff: Diff) { forall a, b :: Aligned(a, b, diff(a, b), 0, 0) }

  /** An exclusion's patterns. `lower` folds a line's case, and `strip` blanks what the pattern ignores. */
  datatype Rules = Rules(
    changed: Option<string -> bool>, removed: Option<string -> bool>,
    lower: Option<string -> string>, strip: Option<string -> string>)

  function Prepare(rules: Rules, raw: string): string
  {
    var folded := if rules.lower.Some? then rules.lower.value(raw) else raw;
    if rules.strip.Some? then rules.strip.value(folded) else folded
  }

  predicate Hit(rules: Rules, pattern: string -> bool, raw: string) { pattern(Prepare(rules, raw)) }

  predicate AnyHit(rules: Rules, pattern: string -> bool, lines: seq<Line>, from: nat, upTo: nat)
    requires from <= upTo <= |lines|
  {
    exists k :: from <= k < upTo && Hit(rules, pattern, lines[k].raw)
  }

  /** A changed line of some unequal block is hit. */
  predicate LineHit(rules: Rules, base: seq<Line>, head: seq<Line>, ops: seq<Opcode>)
    requires forall op :: op in ops ==> op.i1 <= op.i2 <= |base| && op.j1 <= op.j2 <= |head|
  {
    exists op :: op in ops && !op.equal
      && ((rules.changed.Some?
           && (AnyHit(rules, rules.changed.value, base, op.i1, op.i2) || AnyHit(rules, rules.changed.value, head, op.j1, op.j2)))
          || (rules.removed.Some? && AnyHit(rules, rules.removed.value, base, op.i1, op.i2)))
  }

  lemma {:induction false} AlignedInRange(a: seq<string>, b: seq<string>, ops: seq<Opcode>, i: nat, j: nat)
    requires Aligned(a, b, ops, i, j)
    ensures forall op :: op in ops ==> op.i1 <= op.i2 <= |a| && op.j1 <= op.j2 <= |b|
    decreases |ops|
  {
    if ops != [] { AlignedInRange(a, b, ops[1..], ops[0].i2, ops[0].j2); }
  }

  function From(op: Opcode, head: bool): nat { if head then op.j1 else op.i1 }

  function UpTo(op: Opcode, head: bool): nat { if head then op.j2 else op.i2 }

  predicate InRange(ops: seq<Opcode>, size: nat, head: bool)
  {
    forall k :: 0 <= k < |ops| ==> From(ops[k], head) <= UpTo(ops[k], head) <= size
  }

  /** One side's lines of the unequal blocks among the first n, as the patterns see them. */
  function Unequal(rules: Rules, lines: seq<Line>, ops: seq<Opcode>, n: nat, head: bool): seq<string>
    requires n <= |ops| && InRange(ops, |lines|, head)
  {
    if n == 0 then []
    else if ops[n - 1].equal then Unequal(rules, lines, ops, n - 1, head)
    else Unequal(rules, lines, ops, n - 1, head) + Prepared(rules, lines, From(ops[n - 1], head), UpTo(ops[n - 1], head))
  }

  function Prepared(rules: Rules, lines: seq<Line>, from: nat, upTo: nat): seq<string>
    requires from <= upTo <= |lines|
    decreases upTo - from
  {
    if from == upTo then [] else [Prepare(rules, lines[from].raw)] + Prepared(rules, lines, from + 1, upTo)
  }

  /** The removed and added lines the diff of the contexts leaves, folded and stripped. */
  method ChangedLines(rules: Rules, base: seq<Line>, head: seq<Line>, ops: seq<Opcode>)
      returns (removed: seq<string>, added: seq<string>)
    requires InRange(ops, |base|, false) && InRange(ops, |head|, true)
    ensures removed == Unequal(rules, base, ops, |ops|, false) && added == Unequal(rules, head, ops, |ops|, true)
  {
    removed, added := [], [];
    for i := 0 to |ops|
      invariant removed == Unequal(rules, base, ops, i, false) && added == Unequal(rules, head, ops, i, true)
    {
      if !ops[i].equal {
        removed := removed + Prepared(rules, base, ops[i].i1, ops[i].i2);
        added := added + Prepared(rules, head, ops[i].j1, ops[i].j2);
      }
    }
  }

  predicate SomeText(pattern: string -> bool, texts: seq<string>)
  {
    exists i :: 0 <= i < |texts| && pattern(texts[i])
  }

  lemma SomeTextConcat(pattern: string -> bool, a: seq<string>, b: seq<string>)
    ensures SomeText(pattern, a + b) <==> SomeText(pattern, a) || SomeText(pattern, b)
  {
    if SomeText(pattern, b) {
      var i :| 0 <= i < |b| && pattern(b[i]);
      assert (a + b)[|a| + i] == b[i];
    }
    if SomeText(pattern, a) {
      var i :| 0 <= i < |a| && pattern(a[i]);
      assert (a + b)[i] == a[i];
    }
  }

  lemma {:induction false} PreparedHit(rules: Rules, pattern: string -> bool, lines: seq<Line>, from: nat, upTo: nat)
    requires from <= upTo <= |lines|
    ensures SomeText(pattern, Prepared(rules, lines, from, upTo)) <==> AnyHit(rules, pattern, lines, from, upTo)
    decreases upTo - from
  {
    if from < upTo {
      PreparedHit(rules, pattern, lines, from + 1, upTo);
      SomeTextConcat(pattern, [Prepare(rules, lines[from].raw)], Prepared(rules, lines, from + 1, upTo));
      assert SomeText(pattern, [Prepare(rules, lines[from].raw)]) <==> Hit(rules, pattern, lines[from].raw) by {
        assert [Prepare(rules, lines[from].raw)][0] == Prepare(rules, lines[from].raw);
      }
    }
  }

  lemma {:induction false} UnequalHit(rules: Rules, pattern: string -> bool, lines: seq<Line>, ops: seq<Opcode>, n: nat, head: bool)
    requires n <= |ops| && InRange(ops, |lines|, head)
    ensures SomeText(pattern, Unequal(rules, lines, ops, n, head)) <==>
      exists k :: 0 <= k < n && !ops[k].equal && AnyHit(rules, pattern, lines, From(ops[k], head), UpTo(ops[k], head))
  {
    if n > 0 {
      var op := ops[n - 1];
      UnequalHit(rules, pattern, lines, ops, n - 1, head);
      if !op.equal {
        PreparedHit(rules, pattern, lines, From(op, head), UpTo(op, head));
        SomeTextConcat(pattern, Unequal(rules, lines, ops, n - 1, head), Prepared(rules, lines, From(op, head), UpTo(op, head)));
      }
    }
  }

  lemma UnequalHitIsLineHit(rules: Rules, base: seq<Line>, head: seq<Line>, ops: seq<Opcode>)
    requires forall op :: op in ops ==> op.i1 <= op.i2 <= |base| && op.j1 <= op.j2 <= |head|
    requires InRange(ops, |base|, false) && InRange(ops, |head|, true)
    ensures LineHit(rules, base, head, ops) <==>
      || (rules.changed.Some? && (SomeText(rules.changed.value, Unequal(rules, base, ops, |ops|, false))
                                  || SomeText(rules.changed.value, Unequal(rules, head, ops, |ops|, true))))
      || (rules.removed.Some? && SomeText(rules.removed.value, Unequal(rules, base, ops, |ops|, false)))
  {
    if rules.changed.Some? {
      UnequalHit(rules, rules.changed.value, base, ops, |ops|, false);
      UnequalHit(rules, rules.changed.value, head, ops, |ops|, true);
    }
    if rules.removed.Some? { UnequalHit(rules, rules.removed.value, base, ops, |ops|, false); }
    assert forall k :: 0 <= k < |ops| ==> ops[k] in ops;
  }

  method FindLineHit(rules: Rules, base: seq<Line>, head: seq<Line>, diff: Diff) returns (hit: bool)
    requires ValidDiff(diff)
    ensures var ops := diff(KeyedLines(base), KeyedLines(head));
      && (forall op :: op in ops ==> op.i1 <= op.i2 <= |base| && op.j1 <= op.j2 <= |head|)
      && hit == LineHit(rules, base, head, ops)
  {
    var a := InContext(base);
    var b := InContext(head);
    var ops := diff(a, b);
    AlignedInRange(a, b, ops, 0, 0);
    assert forall k :: 0 <= k < |ops| ==> ops[k] in ops;
    UnequalHitIsLineHit(rules, base, head, ops);
    var removed, added := ChangedLines(rules, base, head, ops);
    hit := (rules.changed.Some? && (SomeText(rules.changed.value, removed) || SomeText(rules.changed.value, added)))
           || (rules.removed.Some? && SomeText(rules.removed.value, removed));
  }

  // What no hit guarantees

  /** The lines in [from, upTo) the pattern hits, each with its enclosing keys. */
  function Hits(rules: Rules, pattern: string -> bool, lines: seq<Line>, from: nat, upTo: nat): seq<(seq<string>, string)>
    requires from <= upTo <= |lines|
    decreases upTo - from
  {
    if from == upTo then []
    else (if Hit(rules, pattern, lines[from].raw) then [(Keys(lines, from), lines[from].raw)] else [])
         + Hits(rules, pattern, lines, from + 1, upTo)
  }

  function AllHits(rules: Rules, pattern: string -> bool, lines: seq<Line>): seq<(seq<string>, string)>
  {
    Hits(rules, pattern, lines, 0, |lines|)
  }

  predicate IsSubsequence<T(==)>(x: seq<T>, y: seq<T>)
    decreases |y|
  {
    x == [] || (y != [] && ((x[0] == y[0] && IsSubsequence(x[1..], y[1..])) || IsSubsequence(x, y[1..])))
  }

  lemma {:induction false} SubsequenceAfter<T>(x: seq<T>, before: seq<T>, y: seq<T>)
    requires IsSubsequence(x, y)
    ensures IsSubsequence(x, before + y)
  {
    if before == [] {
      assert before + y == y;
    } else {
      SubsequenceAfter(x, before[1..], y);
      assert (before + y)[1..] == before[1..] + y;
    }
  }

  lemma {:induction false} SubsequenceOfSame<T>(same: seq<T>, x: seq<T>, y: seq<T>)
    requires IsSubsequence(x, y)
    ensures IsSubsequence(same + x, same + y)
  {
    if same == [] {
      assert same + x == x && same + y == y;
    } else {
      SubsequenceOfSame(same[1..], x, y);
      assert (same + x)[1..] == same[1..] + x && (same + y)[1..] == same[1..] + y;
    }
  }

  lemma SubsequenceStep<T>(x: seq<T>, y: seq<T>, left: seq<T>, right: seq<T>, whole: seq<T>, other: seq<T>)
    requires IsSubsequence(left, right) && (x == y || x == [])
    requires whole == x + left && other == y + right
    ensures IsSubsequence(whole, other)
  {
    if x == y {
      SubsequenceOfSame(x, left, right);
    } else {
      SubsequenceAfter(left, y, right);
      assert x + left == left;
    }
  }

  lemma {:induction false} HitsSplit(rules: Rules, pattern: string -> bool, lines: seq<Line>, from: nat, mid: nat, upTo: nat)
    requires from <= mid <= upTo <= |lines|
    ensures Hits(rules, pattern, lines, from, upTo) == Hits(rules, pattern, lines, from, mid) + Hits(rules, pattern, lines, mid, upTo)
    decreases mid - from
  {
    if from < mid {
      HitsSplit(rules, pattern, lines, from + 1, mid, upTo);
    }
  }

  lemma {:induction false} NoHits(rules: Rules, pattern: string -> bool, lines: seq<Line>, from: nat, upTo: nat)
    requires from <= upTo <= |lines|
    requires !AnyHit(rules, pattern, lines, from, upTo)
    ensures Hits(rules, pattern, lines, from, upTo) == []
    decreases upTo - from
  {
    if from < upTo {
      assert !Hit(rules, pattern, lines[from].raw);
      NoHits(rules, pattern, lines, from + 1, upTo);
    }
  }

  lemma SameSlices<T>(s: seq<T>, t: seq<T>, i: nat, i2: nat, j: nat, j2: nat)
    requires i <= i2 <= |s| && j <= j2 <= |t| && s[i..i2] == t[j..j2]
    ensures i2 - i == j2 - j
    ensures i < i2 ==> s[i] == t[j] && s[i + 1..i2] == t[j + 1..j2]
  {
    assert |s[i..i2]| == i2 - i && |t[j..j2]| == j2 - j;
    if i < i2 {
      assert s[i..i2][0] == t[j..j2][0];
      assert s[i..i2][1..] == s[i + 1..i2] && t[j..j2][1..] == t[j + 1..j2];
    }
  }

  lemma {:induction false} SameHits(rules: Rules, pattern: string -> bool, base: seq<Line>, head: seq<Line>,
                                    i: nat, i2: nat, j: nat, j2: nat)
    requires PlainLines(base) && PlainLines(head) && i <= i2 <= |base| && j <= j2 <= |head|
    requires KeyedLines(base)[i..i2] == KeyedLines(head)[j..j2]
    ensures Hits(rules, pattern, base, i, i2) == Hits(rules, pattern, head, j, j2)
    decreases i2 - i
  {
    SameSlices(KeyedLines(base), KeyedLines(head), i, i2, j, j2);
    if i < i2 {
      TabulatedAt(KeyOf(base), |base|, i);
      TabulatedAt(KeyOf(head), |head|, j);
      KeyedIsInjective(base, i, head, j);
      SameHits(rules, pattern, base, head, i + 1, i2, j + 1, j2);
    }
  }

  lemma {:induction false} ChangedHitsAgree(rules: Rules, base: seq<Line>, head: seq<Line>, ops: seq<Opcode>, i: nat, j: nat)
    requires PlainLines(base) && PlainLines(head) && i <= |base| && j <= |head| && rules.changed.Some?
    requires Aligned(KeyedLines(base), KeyedLines(head), ops, i, j)
    requires forall op :: op in ops ==> op.i1 <= op.i2 <= |base| && op.j1 <= op.j2 <= |head|
    requires !LineHit(rules, base, head, ops)
    ensures Hits(rules, rules.changed.value, base, i, |base|) == Hits(rules, rules.changed.value, head, j, |head|)
    decreases |ops|
  {
    if ops != [] {
      var op, pattern := ops[0], rules.changed.value;
      assert op in ops;
      ChangedHitsAgree(rules, base, head, ops[1..], op.i2, op.j2);
      HitsSplit(rules, pattern, base, i, op.i2, |base|);
      HitsSplit(rules, pattern, head, j, op.j2, |head|);
      if op.equal {
        SameHits(rules, pattern, base, head, i, op.i2, j, op.j2);
      } else {
        NoHits(rules, pattern, base, i, op.i2);
        NoHits(rules, pattern, head, j, op.j2);
      }
    }
  }

  lemma {:induction false} RemovedHitsSurvive(rules: Rules, base: seq<Line>, head: seq<Line>, ops: seq<Opcode>, i: nat, j: nat)
    requires PlainLines(base) && PlainLines(head) && i <= |base| && j <= |head| && rules.removed.Some?
    requires Aligned(KeyedLines(base), KeyedLines(head), ops, i, j)
    requires forall op :: op in ops ==> op.i1 <= op.i2 <= |base| && op.j1 <= op.j2 <= |head|
    requires !LineHit(rules, base, head, ops)
    ensures IsSubsequence(Hits(rules, rules.removed.value, base, i, |base|), Hits(rules, rules.removed.value, head, j, |head|))
    decreases |ops|
  {
    if ops != [] {
      var op, pattern := ops[0], rules.removed.value;
      assert op in ops;
      RemovedHitsSurvive(rules, base, head, ops[1..], op.i2, op.j2);
      HitsSplit(rules, pattern, base, i, op.i2, |base|);
      HitsSplit(rules, pattern, head, j, op.j2, |head|);
      if op.equal {
        SameHits(rules, pattern, base, head, i, op.i2, j, op.j2);
      } else {
        NoHits(rules, pattern, base, i, op.i2);
      }
      SubsequenceStep(Hits(rules, pattern, base, i, op.i2), Hits(rules, pattern, head, j, op.j2),
                      Hits(rules, pattern, base, op.i2, |base|), Hits(rules, pattern, head, op.j2, |head|),
                      Hits(rules, pattern, base, i, |base|), Hits(rules, pattern, head, j, |head|));
    }
  }

  /** The changed lines are the same at base and head, in the same order and under the same keys, and every
      removed line of the base is still at the head in its context. */
  predicate LinesKept(rules: Rules, base: seq<Line>, head: seq<Line>)
  {
    && (rules.changed.Some? ==> AllHits(rules, rules.changed.value, base) == AllHits(rules, rules.changed.value, head))
    && (rules.removed.Some? ==>
          IsSubsequence(AllHits(rules, rules.removed.value, base), AllHits(rules, rules.removed.value, head)))
  }

  lemma NoHitKeepsLines(rules: Rules, base: seq<Line>, head: seq<Line>, ops: seq<Opcode>)
    requires PlainLines(base) && PlainLines(head) && Aligned(KeyedLines(base), KeyedLines(head), ops, 0, 0)
    requires forall op :: op in ops ==> op.i1 <= op.i2 <= |base| && op.j1 <= op.j2 <= |head|
    requires !LineHit(rules, base, head, ops)
    ensures LinesKept(rules, base, head)
  {
    if rules.changed.Some? { ChangedHitsAgree(rules, base, head, ops, 0, 0); }
    if rules.removed.Some? { RemovedHitsSurvive(rules, base, head, ops, 0, 0); }
  }

  // Exactly when that holds for every file

  function ReadLines(raws: seq<string>): (r: seq<Line>)
    ensures |r| == |raws| && forall i :: 0 <= i < |raws| ==> r[i] == ReadLine(raws[i])
  {
    seq(|raws|, i requires 0 <= i < |raws| => ReadLine(raws[i]))
  }

  predicate Over(raws: seq<string>, alphabet: set<char>)
  {
    forall i, k :: 0 <= i < |raws| && 0 <= k < |raws[i]| ==> raws[i][k] in alphabet
  }

  /** No hit under some valid alignment, and yet a line the rules name is not kept. */
  ghost predicate LosesALine(rules: Rules, base: seq<Line>, head: seq<Line>, ops: seq<Opcode>)
  {
    && Aligned(KeyedLines(base), KeyedLines(head), ops, 0, 0)
    && (forall op :: op in ops ==> op.i1 <= op.i2 <= |base| && op.j1 <= op.j2 <= |head|)
    && !LineHit(rules, base, head, ops)
    && !LinesKept(rules, base, head)
  }

  ghost predicate KeepsEveryLine(alphabet: set<char>)
  {
    forall rules, base, head, ops :: Over(base, alphabet) && Over(head, alphabet) ==>
      !LosesALine(rules, ReadLines(base), ReadLines(head), ops)
  }

  lemma OnlyLastHit(rules: Rules, pattern: string -> bool, lines: seq<Line>)
    requires lines != [] && !AnyHit(rules, pattern, lines, 0, |lines| - 1)
    ensures AllHits(rules, pattern, lines) ==
      if Hit(rules, pattern, lines[|lines| - 1].raw) then [(Keys(lines, |lines| - 1), lines[|lines| - 1].raw)] else []
  {
    var n := |lines|;
    HitsSplit(rules, pattern, lines, 0, n - 1, n);
    NoHits(rules, pattern, lines, 0, n - 1);
    assert Hits(rules, pattern, lines, n, n) == [];
  }

  /** The last line of both files as an equal block, and everything above it as a changed one. */
  function LastLineEqual(m: nat, n: nat): seq<Opcode>
    requires m > 0 && n > 0
  {
    [Opcode(false, 0, m - 1, 0, n - 1), Opcode(true, m - 1, m, n - 1, n)]
  }

  lemma LastSlice<T>(s: seq<T>)
    requires s != []
    ensures s[|s| - 1..|s|] == [s[|s| - 1]]
  {
  }

  lemma LastLinesAlign(a: seq<string>, b: seq<string>)
    requires a != [] && b != [] && a[|a| - 1] == b[|b| - 1]
    ensures Aligned(a, b, LastLineEqual(|a|, |b|), 0, 0)
  {
    LastSlice(a);
    LastSlice(b);
    TwoBlocksAlign(a, b, Opcode(false, 0, |a| - 1, 0, |b| - 1), Opcode(true, |a| - 1, |a|, |b| - 1, |b|));
  }

  lemma TwoBlocksAlign(a: seq<string>, b: seq<string>, first: Opcode, last: Opcode)
    requires first.i1 == 0 <= first.i2 == last.i1 <= last.i2 == |a| && first.j1 == 0 <= first.j2 == last.j1 <= last.j2 == |b|
    requires !first.equal && last.equal && a[last.i1..last.i2] == b[last.j1..last.j2]
    ensures Aligned(a, b, [first, last], 0, 0)
  {
    AlignedStep(a, b, last, [], last.i1, last.j1);
    assert [last] + [] == [last];
    AlignedStep(a, b, first, [last], 0, 0);
    assert [first] + [last] == [first, last];
  }

  lemma AlignedStep(a: seq<string>, b: seq<string>, op: Opcode, rest: seq<Opcode>, i: nat, j: nat)
    requires op.i1 == i && op.j1 == j && i <= op.i2 <= |a| && j <= op.j2 <= |b|
    requires op.equal ==> a[i..op.i2] == b[j..op.j2]
    requires Aligned(a, b, rest, op.i2, op.j2)
    ensures Aligned(a, b, [op] + rest, i, j)
  {
    assert ([op] + rest)[1..] == rest;
  }

  predicate NoneAbove(rules: Rules, pattern: string -> bool, lines: seq<Line>)
  {
    lines != [] && !AnyHit(rules, pattern, lines, 0, |lines| - 1)
  }

  lemma LastLineOnlyIsNoHit(pattern: string -> bool, base: seq<Line>, head: seq<Line>)
    requires var rules := Rules(Some(pattern), None, None, None);
      NoneAbove(rules, pattern, base) && NoneAbove(rules, pattern, head)
    ensures forall op :: op in LastLineEqual(|base|, |head|) ==> op.i1 <= op.i2 <= |base| && op.j1 <= op.j2 <= |head|
    ensures !LineHit(Rules(Some(pattern), None, None, None), base, head, LastLineEqual(|base|, |head|))
  {
  }

  lemma LastKeysAlign(base: seq<Line>, head: seq<Line>)
    requires base != [] && head != [] && KeyOf(base)(|base| - 1) == KeyOf(head)(|head| - 1)
    ensures Aligned(KeyedLines(base), KeyedLines(head), LastLineEqual(|base|, |head|), 0, 0)
  {
    TabulatedAt(KeyOf(base), |base|, |base| - 1);
    TabulatedAt(KeyOf(head), |head|, |head| - 1);
    LastLinesAlign(KeyedLines(base), KeyedLines(head));
  }

  lemma LastLineIsNotKept(pattern: string -> bool, base: seq<Line>, head: seq<Line>)
    requires var rules := Rules(Some(pattern), None, None, None);
      NoneAbove(rules, pattern, base) && NoneAbove(rules, pattern, head)
    requires pattern(base[|base| - 1].raw)
    requires pattern(head[|head| - 1].raw) ==> Keys(base, |base| - 1) != Keys(head, |head| - 1)
    ensures !LinesKept(Rules(Some(pattern), None, None, None), base, head)
  {
    var rules := Rules(Some(pattern), None, None, None);
    OnlyLastHit(rules, pattern, base);
    OnlyLastHit(rules, pattern, head);
    var x, y := AllHits(rules, pattern, base), AllHits(rules, pattern, head);
    assert |x| == 1 && x[0].0 == Keys(base, |base| - 1);
    assert |y| == 1 ==> y[0].0 == Keys(head, |head| - 1);
  }

  /** Two files that end in one keyed line, which the pattern names in the base only or under other keys. */
  lemma SameKeyLosesALine(base: seq<Line>, head: seq<Line>, pattern: string -> bool)
    requires var rules := Rules(Some(pattern), None, None, None);
      NoneAbove(rules, pattern, base) && NoneAbove(rules, pattern, head)
    requires KeyOf(base)(|base| - 1) == KeyOf(head)(|head| - 1)
    requires pattern(base[|base| - 1].raw)
    requires pattern(head[|head| - 1].raw) ==> Keys(base, |base| - 1) != Keys(head, |head| - 1)
    ensures LosesALine(Rules(Some(pattern), None, None, None), base, head, LastLineEqual(|base|, |head|))
  {
    LastKeysAlign(base, head);
    LastLineOnlyIsNoHit(pattern, base, head);
    LastLineIsNotKept(pattern, base, head);
  }

  // The two separators, each used in a text

  lemma {:induction false} StripSpaces(raw: string, n: nat)
    requires n < |raw| && !IsSpace(raw[n]) && forall k :: 0 <= k < n ==> raw[k] == ' '
    ensures StripLeft(raw) == raw[n..]
  {
    if n > 0 {
      StripSpaces(raw[1..], n - 1);
      assert raw[1..][n - 1..] == raw[n..];
    }
  }

  lemma SpacesIndent(raw: string, n: nat, text: string)
    requires text != [] && !IsSpace(text[0]) && !IsSpace(text[|text| - 1])
    requires n + |text| == |raw| && raw[n..] == text && forall k :: 0 <= k < n ==> raw[k] == ' '
    ensures ReadLine(raw) == Line(raw, n, text)
  {
    assert raw[n] == text[0];
    StripSpaces(raw, n);
  }

  lemma {:induction false} StackedKeys(lines: seq<Line>, i: nat)
    requires i < |lines| && forall k :: 0 <= k < |lines| ==> Significant(lines[k])
    requires forall j, k :: 0 <= j < k < |lines| ==> lines[j].indent < lines[k].indent
    ensures Keys(lines, i) == seq(i, k requires 0 <= k < i => lines[k].text)
  {
    StackedChain(lines, i);
  }

  lemma {:induction false} StackedChain(lines: seq<Line>, i: nat)
    requires i < |lines| && forall k :: 0 <= k < |lines| ==> Significant(lines[k])
    requires forall j, k :: 0 <= j < k < |lines| ==> lines[j].indent < lines[k].indent
    ensures Chain(lines, i, lines[i].indent) == seq(i, k requires 0 <= k < i => k)
  {
    if i > 0 {
      assert Opener(lines, i, lines[i].indent) == Some(i - 1);
      StackedChain(lines, i - 1);
    }
  }

  lemma Refutes(alphabet: set<char>, pattern: string -> bool, base: seq<string>, head: seq<string>)
    requires Over(base, alphabet) && Over(head, alphabet) && base != [] && head != []
    requires LosesALine(Rules(Some(pattern), None, None, None), ReadLines(base), ReadLines(head), LastLineEqual(|base|, |head|))
    ensures !KeepsEveryLine(alphabet)
  {
  }

  predicate Deepest(raw: string) { |raw| == 3 && raw[0] == ' ' }

  /** The base's two lines and the head's, ending in the same line two spaces deep. */
  lemma SameDeepestLosesALine(b: seq<Line>, h: seq<Line>)
    requires b != [] && h != [] && KeyOf(b)(|b| - 1) == KeyOf(h)(|h| - 1)
    requires Deepest(b[|b| - 1].raw) && (Deepest(h[|h| - 1].raw) ==> Keys(b, |b| - 1) != Keys(h, |h| - 1))
    requires forall i :: 0 <= i < |b| - 1 ==> !Deepest(b[i].raw)
    requires forall i :: 0 <= i < |h| - 1 ==> !Deepest(h[i].raw)
    ensures LosesALine(Rules(Some(Deepest), None, None, None), b, h, LastLineEqual(|b|, |h|))
  {
    SameKeyLosesALine(b, h, Deepest);
  }

  lemma UnitMergesTwoKeys(b: seq<Line>, h: seq<Line>)
    requires b == [Line(['a', UNIT, 'a'], 0, ['a', UNIT, 'a']), Line([' ', ' ', 'a'], 2, ['a'])]
    requires h == [Line(['a'], 0, ['a']), Line([' ', 'a'], 1, ['a']), Line([' ', ' ', 'a'], 2, ['a'])]
    ensures KeyOf(b)(1) == KeyOf(h)(2) && Keys(b, 1) != Keys(h, 2)
  {
    OneKeyAbove(b);
    TwoKeysAbove(h);
    UnitJoins();
  }

  lemma OneKeyAbove(lines: seq<Line>)
    requires |lines| == 2 && Significant(lines[0]) && Significant(lines[1]) && lines[0].indent < lines[1].indent
    ensures Keys(lines, 1) == [lines[0].text]
  {
    StackedKeys(lines, 1);
  }

  lemma TwoKeysAbove(lines: seq<Line>)
    requires |lines| == 3 && forall k :: 0 <= k < 3 ==> Significant(lines[k])
    requires lines[0].indent < lines[1].indent < lines[2].indent
    ensures Keys(lines, 2) == [lines[0].text, lines[1].text]
  {
    StackedKeys(lines, 2);
  }

  lemma UnitJoins()
    ensures Joined([['a', UNIT, 'a']]) == Joined([['a'], ['a']]) == ['a', UNIT, 'a']
  {
    assert [['a'], ['a']][1..] == [['a']];
  }

  const UnitBase: seq<string> := [['a', UNIT, 'a'], [' ', ' ', 'a']]
  const UnitHead: seq<string> := [['a'], [' ', 'a'], [' ', ' ', 'a']]

  lemma ReadUnitFiles()
    ensures ReadLines(UnitBase) == [Line(['a', UNIT, 'a'], 0, ['a', UNIT, 'a']), Line([' ', ' ', 'a'], 2, ['a'])]
    ensures ReadLines(UnitHead) == [Line(['a'], 0, ['a']), Line([' ', 'a'], 1, ['a']), Line([' ', ' ', 'a'], 2, ['a'])]
  {
    SpacesIndent(UnitBase[0], 0, ['a', UNIT, 'a']);
    SpacesIndent(UnitBase[1], 2, ['a']);
    SpacesIndent(UnitHead[0], 0, ['a']);
    SpacesIndent(UnitHead[1], 1, ['a']);
  }

  lemma UnitLinesLose(b: seq<Line>, h: seq<Line>)
    requires b == [Line(['a', UNIT, 'a'], 0, ['a', UNIT, 'a']), Line([' ', ' ', 'a'], 2, ['a'])]
    requires h == [Line(['a'], 0, ['a']), Line([' ', 'a'], 1, ['a']), Line([' ', ' ', 'a'], 2, ['a'])]
    ensures LosesALine(Rules(Some(Deepest), None, None, None), b, h, LastLineEqual(|b|, |h|))
  {
    UnitMergesTwoKeys(b, h);
    SameDeepestLosesALine(b, h);
  }

  lemma UnitFilesLoseALine()
    ensures LosesALine(Rules(Some(Deepest), None, None, None), ReadLines(UnitBase), ReadLines(UnitHead),
                       LastLineEqual(|UnitBase|, |UnitHead|))
  {
    ReadUnitFiles();
    UnitLinesLose(ReadLines(UnitBase), ReadLines(UnitHead));
  }

  lemma UnitFilesOver(alphabet: set<char>)
    requires {' ', 'a', UNIT} <= alphabet
    ensures Over(UnitBase, alphabet) && Over(UnitHead, alphabet)
  {
  }

  lemma UnitLosesALine(alphabet: set<char>)
    requires {' ', 'a', UNIT} <= alphabet
    ensures !KeepsEveryLine(alphabet)
  {
    UnitFilesLoseALine();
    UnitFilesOver(alphabet);
    Refutes(alphabet, Deepest, UnitBase, UnitHead);
  }

  lemma NulSpellsOneKey()
    ensures Keyed([['a', NUL, ' ', 'a']], [' ', ' ', 'a']) == Keyed([['a']], [' ', 'a', NUL, ' ', ' ', 'a'])
  {
    assert Keyed([['a', NUL, ' ', 'a']], [' ', ' ', 'a']) == ['a', NUL, ' ', 'a', NUL, ' ', ' ', 'a'];
    assert Keyed([['a']], [' ', 'a', NUL, ' ', ' ', 'a']) == ['a', NUL, ' ', 'a', NUL, ' ', ' ', 'a'];
  }

  lemma NulMovesTheKeysEnd(b: seq<Line>, h: seq<Line>)
    requires b == [Line(['a', NUL, ' ', 'a'], 0, ['a', NUL, ' ', 'a']), Line([' ', ' ', 'a'], 2, ['a'])]
    requires h == [Line(['a'], 0, ['a']), Line([' ', 'a', NUL, ' ', ' ', 'a'], 1, ['a', NUL, ' ', ' ', 'a'])]
    ensures KeyOf(b)(1) == KeyOf(h)(1) && Keys(b, 1) != Keys(h, 1)
  {
    OneKeyAbove(b);
    OneKeyAbove(h);
    NulSpellsOneKey();
  }

  const NulBase: seq<string> := [['a', NUL, ' ', 'a'], [' ', ' ', 'a']]
  const NulHead: seq<string> := [['a'], [' ', 'a', NUL, ' ', ' ', 'a']]

  lemma ReadNulFiles()
    ensures ReadLines(NulBase) == [Line(['a', NUL, ' ', 'a'], 0, ['a', NUL, ' ', 'a']), Line([' ', ' ', 'a'], 2, ['a'])]
    ensures ReadLines(NulHead) == [Line(['a'], 0, ['a']), Line([' ', 'a', NUL, ' ', ' ', 'a'], 1, ['a', NUL, ' ', ' ', 'a'])]
  {
    SpacesIndent(NulBase[0], 0, ['a', NUL, ' ', 'a']);
    SpacesIndent(NulBase[1], 2, ['a']);
    SpacesIndent(NulHead[0], 0, ['a']);
    SpacesIndent(NulHead[1], 1, ['a', NUL, ' ', ' ', 'a']);
  }

  lemma NulLinesLose(b: seq<Line>, h: seq<Line>)
    requires b == [Line(['a', NUL, ' ', 'a'], 0, ['a', NUL, ' ', 'a']), Line([' ', ' ', 'a'], 2, ['a'])]
    requires h == [Line(['a'], 0, ['a']), Line([' ', 'a', NUL, ' ', ' ', 'a'], 1, ['a', NUL, ' ', ' ', 'a'])]
    ensures LosesALine(Rules(Some(Deepest), None, None, None), b, h, LastLineEqual(|b|, |h|))
  {
    NulMovesTheKeysEnd(b, h);
    SameDeepestLosesALine(b, h);
  }

  lemma NulFilesLoseALine()
    ensures LosesALine(Rules(Some(Deepest), None, None, None), ReadLines(NulBase), ReadLines(NulHead),
                       LastLineEqual(|NulBase|, |NulHead|))
  {
    ReadNulFiles();
    NulLinesLose(ReadLines(NulBase), ReadLines(NulHead));
  }

  lemma NulFilesOver(alphabet: set<char>)
    requires {' ', 'a', NUL} <= alphabet
    ensures Over(NulBase, alphabet) && Over(NulHead, alphabet)
  {
  }

  lemma NulLosesALine(alphabet: set<char>)
    requires {' ', 'a', NUL} <= alphabet
    ensures !KeepsEveryLine(alphabet)
  {
    NulFilesLoseALine();
    NulFilesOver(alphabet);
    Refutes(alphabet, Deepest, NulBase, NulHead);
  }

  lemma OverIsPlain(raws: seq<string>, alphabet: set<char>)
    requires Over(raws, alphabet) && UNIT !in alphabet && NUL !in alphabet
    ensures PlainLines(ReadLines(raws))
  {
  }

  /** Files written over an alphabet with a space and a letter keep every named line exactly when that
      alphabet has neither of the two characters the key is built with. */
  lemma KeptExactlyWithoutSeparators(alphabet: set<char>)
    requires {' ', 'a'} <= alphabet
    ensures KeepsEveryLine(alphabet) <==> (31 as char) !in alphabet && (0 as char) !in alphabet
  {
    if UNIT in alphabet {
      UnitLosesALine(alphabet);
    } else if NUL in alphabet {
      NulLosesALine(alphabet);
    } else {
      forall rules, base, head, ops | Over(base, alphabet) && Over(head, alphabet)
        ensures !LosesALine(rules, ReadLines(base), ReadLines(head), ops)
      {
        OverIsPlain(base, alphabet);
        OverIsPlain(head, alphabet);
        if LosesALine(rules, ReadLines(base), ReadLines(head), ops) {
          NoHitKeepsLines(rules, ReadLines(base), ReadLines(head), ops);
        }
      }
    }
  }

  // A grant's decision

  datatype Text = Text(text: string) | Absent | Unreadable

  datatype Change = Change(basePath: string, headPath: string)

  datatype Side = Base | Head

  /** A path rule of a category, with the condition it puts on the file's two texts, if any. */
  datatype Entry = Entry(path: string -> bool, condition: Option<(Text, Text) -> bool>)

  datatype Exclusion = Exclusion(path: string -> bool, excepted: Option<string -> bool>, rules: Option<Rules>)

  datatype Scope = InScope | OutOfScope | TitleUnread

  datatype Grant = Grant(name: string, scope: Scope, categories: Option<seq<Entry>>, exclusions: seq<Exclusion>)

  predicate Selected(exclusion: Exclusion, path: string)
  {
    path != "" && exclusion.path(path) && !(exclusion.excepted.Some? && exclusion.excepted.value(path))
  }

  function LinesOf(text: Text): seq<Line>
  {
    ReadLines(Split(if text.Text? then text.text else ""))
  }

  predicate LinesClear(rules: Rules, base: Text, head: Text, diff: Diff)
  {
    var ops := diff(KeyedLines(LinesOf(base)), KeyedLines(LinesOf(head)));
    && !base.Unreadable? && !head.Unreadable?
    && (forall op :: op in ops ==> op.i1 <= op.i2 <= |LinesOf(base)| && op.j1 <= op.j2 <= |LinesOf(head)|)
    && !LineHit(rules, LinesOf(base), LinesOf(head), ops)
  }

  predicate Clear(exclusion: Exclusion, rows: seq<Change>, read: (string, Side) -> Text, diff: Diff)
  {
    forall row :: row in rows && (Selected(exclusion, row.basePath) || Selected(exclusion, row.headPath)) ==>
      exclusion.rules.Some? && LinesClear(exclusion.rules.value, read(row.basePath, Base), read(row.headPath, Head), diff)
  }

  predicate EntryJudges(entry: Entry, row: Change)
  {
    entry.condition.Some? && (entry.path(row.basePath) || entry.path(row.headPath))
  }

  predicate PlainPath(path: string) { forall c :: c in path ==> 32 <= c as int && c as int != 127 }

  // What a grant asks of a pull request

  /** One of the file's two paths, when it has it. */
  predicate IsPathOf(path: string, row: Change) { path != "" && (path == row.basePath || path == row.headPath) }

  ghost predicate NoControl(rows: seq<Change>)
  {
    forall row, path, c :: row in rows && IsPathOf(path, row) && c in path ==> c as int >= 32 && c as int != 127
  }

  /** Each path of each file is in one of the categories. */
  ghost predicate AllTaken(entries: seq<Entry>, rows: seq<Change>)
  {
    forall row, path :: row in rows && IsPathOf(path, row) ==> exists k :: 0 <= k < |entries| && entries[k].path(path)
  }

  /** Each condition of an entry that takes either path is judged on both texts, and met. */
  predicate AllMet(entries: seq<Entry>, rows: seq<Change>, read: (string, Side) -> Text)
  {
    forall row, k | row in rows && 0 <= k < |entries| && entries[k].condition.Some?
                    && (entries[k].path(row.basePath) || entries[k].path(row.headPath)) ::
      && read(row.basePath, Base) != Unreadable && read(row.headPath, Head) != Unreadable
      && entries[k].condition.value(read(row.basePath, Base), read(row.headPath, Head))
  }

  /** A file with a path the exclusion takes and does not except is refused, but for one whose lines it names none of: those
      are read on both sides, and no unequal block of their diff holds a named line. */
  ghost predicate NoneExcluded(exclusion: Exclusion, rows: seq<Change>, read: (string, Side) -> Text, diff: Diff)
  {
    forall row, path | row in rows && IsPathOf(path, row) && exclusion.path(path)
                       && (exclusion.excepted.Some? ==> !exclusion.excepted.value(path)) ::
      && exclusion.rules.Some? && read(row.basePath, Base) != Unreadable && read(row.headPath, Head) != Unreadable
      && var a, b := LinesOf(read(row.basePath, Base)), LinesOf(read(row.headPath, Head));
         var ops := diff(KeyedLines(a), KeyedLines(b));
         (forall op :: op in ops ==> op.i1 <= op.i2 <= |a| && op.j1 <= op.j2 <= |b|) && !LineHit(exclusion.rules.value, a, b, ops)
  }

  /** What a grant asks of a pull request. `files` is None when GitHub does not list what the pull request changes. */
  ghost predicate Allows(grant: Grant, files: Option<seq<Change>>, read: (string, Side) -> Text, diff: Diff)
  {
    && grant.scope == InScope
    && (grant.categories.Some? || grant.exclusions != [] ==>
          files.Some? && NoControl(files.value)
          && (grant.categories.Some? ==> AllTaken(grant.categories.value, files.value) && AllMet(grant.categories.value, files.value, read))
          && forall k :: 0 <= k < |grant.exclusions| ==> NoneExcluded(grant.exclusions[k], files.value, read, diff))
  }

  lemma PlainIsNoControl(rows: seq<Change>)
    ensures NoControl(rows) <==> forall row :: row in rows ==> PlainPath(row.basePath) && PlainPath(row.headPath)
  {
    if NoControl(rows) {
      forall row | row in rows
        ensures PlainPath(row.basePath) && PlainPath(row.headPath)
      {
        assert row.basePath != "" ==> IsPathOf(row.basePath, row);
        assert row.headPath != "" ==> IsPathOf(row.headPath, row);
      }
    }
  }

  lemma ClearMeans(exclusion: Exclusion, rows: seq<Change>, read: (string, Side) -> Text, diff: Diff)
    ensures Clear(exclusion, rows, read, diff) <==> NoneExcluded(exclusion, rows, read, diff)
  {
    forall row: Change, path | IsPathOf(path, row)
      ensures Selected(exclusion, path) <==> exclusion.path(path) && (exclusion.excepted.Some? ==> !exclusion.excepted.value(path))
    {
    }
    if NoneExcluded(exclusion, rows, read, diff) {
      forall row | row in rows && (Selected(exclusion, row.basePath) || Selected(exclusion, row.headPath))
        ensures exclusion.rules.Some? && LinesClear(exclusion.rules.value, read(row.basePath, Base), read(row.headPath, Head), diff)
      {
        var path := if Selected(exclusion, row.basePath) then row.basePath else row.headPath;
        assert IsPathOf(path, row);
      }
    }
  }

  // Deciding

  method AnyTakes(entries: seq<Entry>, path: string) returns (any: bool)
    ensures any <==> exists k :: 0 <= k < |entries| && entries[k].path(path)
  {
    for k := 0 to |entries|
      invariant forall j :: 0 <= j < k ==> !entries[j].path(path)
    {
      if entries[k].path(path) { return true; }
    }
    return false;
  }

  predicate Met(entry: Entry, row: Change, read: (string, Side) -> Text)
  {
    EntryJudges(entry, row) ==>
      var base, head := read(row.basePath, Base), read(row.headPath, Head);
      !base.Unreadable? && !head.Unreadable? && entry.condition.value(base, head)
  }

  method AllEntriesMet(entries: seq<Entry>, row: Change, read: (string, Side) -> Text) returns (met: bool)
    ensures met <==> forall k :: 0 <= k < |entries| ==> Met(entries[k], row, read)
  {
    for k := 0 to |entries|
      invariant forall j :: 0 <= j < k ==> Met(entries[j], row, read)
    {
      if !Met(entries[k], row, read) { return false; }
    }
    return true;
  }

  /** First every path, then every condition. */
  method Categorize(entries: seq<Entry>, rows: seq<Change>, read: (string, Side) -> Text) returns (held: bool)
    ensures held <==> AllTaken(entries, rows) && AllMet(entries, rows, read)
  {
    for i := 0 to |rows|
      invariant AllTaken(entries, rows[..i])
    {
      var row := rows[i];
      var base := AnyTakes(entries, row.basePath);
      var head := AnyTakes(entries, row.headPath);
      if (row.basePath != "" && !base) || (row.headPath != "" && !head) {
        var path := if row.basePath != "" && !base then row.basePath else row.headPath;
        assert row in rows && IsPathOf(path, row);
        return false;
      }
    }
    Ends(rows);
    for i := 0 to |rows|
      invariant AllMet(entries, rows[..i], read)
    {
      var met := AllEntriesMet(entries, rows[i], read);
      if !met {
        var k :| 0 <= k < |entries| && !Met(entries[k], rows[i], read);
        assert rows[i] in rows;
        return false;
      }
    }
    return true;
  }

  method Judge(grant: Grant, rows: seq<Change>, read: (string, Side) -> Text, diff: Diff) returns (held: bool)
    requires grant.scope.InScope? && (grant.categories.Some? || grant.exclusions != [])
    ensures held <==> Allows(grant, Some(rows), read, diff)
  {
    PlainIsNoControl(rows);
    if !(forall row :: row in rows ==> PlainPath(row.basePath) && PlainPath(row.headPath)) { return false; }
    if grant.categories.Some? {
      var taken := Categorize(grant.categories.value, rows, read);
      if !taken { return false; }
    }
    for k := 0 to |grant.exclusions|
      invariant forall j :: 0 <= j < k ==> NoneExcluded(grant.exclusions[j], rows, read, diff)
    {
      ClearMeans(grant.exclusions[k], rows, read, diff);
      if !Clear(grant.exclusions[k], rows, read, diff) { return false; }
    }
    return true;
  }

  /** The first grant that allows the pull request decides, and none does when none allows it. */
  method Decide(grants: seq<Grant>, files: Option<seq<Change>>, read: (string, Side) -> Text, diff: Diff)
      returns (granted: Option<nat>)
    ensures granted.Some? ==> granted.value < |grants| && Allows(grants[granted.value], files, read, diff)
    ensures forall i :: 0 <= i < |grants| && Allows(grants[i], files, read, diff) ==> granted.Some? && granted.value <= i
  {
    for i := 0 to |grants|
      invariant forall k :: 0 <= k < i ==> !Allows(grants[k], files, read, diff)
    {
      var grant := grants[i];
      if grant.scope.InScope? {
        if grant.categories.None? && grant.exclusions == [] { return Some(i); }
        if files.Some? {
          var held := Judge(grant, files.value, read, diff);
          if held { return Some(i); }
        }
      }
    }
    return None;
  }

  /** Whatever diff is used, a grant that holds keeps every line its exclusions name, in its context, in each
      changed file they select, when the two texts have neither separator. */
  lemma GrantKeepsNamedLines(grant: Grant, rows: seq<Change>, read: (string, Side) -> Text, diff: Diff, k: nat, row: Change)
    requires Allows(grant, Some(rows), read, diff) && ValidDiff(diff)
    requires k < |grant.exclusions| && row in rows
    requires Selected(grant.exclusions[k], row.basePath) || Selected(grant.exclusions[k], row.headPath)
    requires PlainLines(LinesOf(read(row.basePath, Base))) && PlainLines(LinesOf(read(row.headPath, Head)))
    ensures grant.exclusions[k].rules.Some?
    ensures LinesKept(grant.exclusions[k].rules.value, LinesOf(read(row.basePath, Base)), LinesOf(read(row.headPath, Head)))
  {
    var exclusion := grant.exclusions[k];
    ClearMeans(exclusion, rows, read, diff);
    var base, head := LinesOf(read(row.basePath, Base)), LinesOf(read(row.headPath, Head));
    NoHitKeepsLines(exclusion.rules.value, base, head, diff(KeyedLines(base), KeyedLines(head)));
  }
}
