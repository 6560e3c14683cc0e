/** Cutting requirements into shards of at most so many (gates/_proof_audit.py). */
module Shards {
  function Flat<T>(pieces: seq<seq<T>>): seq<T>
  {
    if pieces == [] then [] else pieces[0] + Flat(pieces[1..])
  }

  lemma {:induction false} FlatGrows<T>(pieces: seq<seq<T>>, piece: seq<T>)
    ensures Flat(pieces + [piece]) == Flat(pieces) + piece
  {
    if pieces == [] {
      assert pieces + [piece] == [piece] && [piece][1..] == [];
    } else {
      assert (pieces + [piece])[1..] == pieces[1..] + [piece];
      FlatGrows(pieces[1..], piece);
    }
  }

  /** However items are cut into pieces of at most maxIds, it takes pieces enough to hold them. */
  lemma {:induction false} PiecesHold<T>(pieces: seq<seq<T>>, maxIds: nat)
    requires forall i :: 0 <= i < |pieces| ==> |pieces[i]| <= maxIds
    ensures |Flat(pieces)| <= maxIds * |pieces|
  {
    if pieces != [] {
      assert forall i :: 0 <= i < |pieces[1..]| ==> pieces[1..][i] == pieces[i + 1];
      PiecesHold(pieces[1..], maxIds);
      assert maxIds * |pieces| == maxIds + maxIds * (|pieces| - 1);
    }
  }

  lemma DivMod(a: nat, b: nat)
    requires b > 0
    ensures a == b * (a / b) + a % b && 0 <= a % b < b
  {
  }

  lemma MulGrows(a: nat, b: nat, c: nat)
    requires a <= b
    ensures c * a <= c * b
  {
  }

  lemma MulCancels(a: nat, b: nat, c: nat)
    requires c * a < c * b
    ensures a < b
  {
    if b <= a { MulGrows(b, a, c); }
  }

  function Ceiling(a: nat, b: nat): nat
    requires b > 0
  {
    if a % b == 0 then a / b else a / b + 1
  }

  /** The fewest groups of b that hold a: they hold it, and one fewer does not. */
  lemma CeilingHolds(a: nat, b: nat)
    requires a > 0 && b > 0
    ensures 0 < Ceiling(a, b) && b * (Ceiling(a, b) - 1) < a <= b * Ceiling(a, b)
  {
    DivMod(a, b);
    var q := a / b;
    assert b * (q + 1) == b * q + b;
    assert q == 0 ==> b * q == 0;
  }

  /** Even widths fit: at least one item each, and none wider than maxIds. */
  lemma WidthsFit(n: nat, maxIds: nat, count: nat, size: nat, extra: nat)
    requires maxIds > 0 && count > 0 && maxIds * (count - 1) < n <= maxIds * count
    requires n == count * size + extra && extra < count
    ensures 1 <= size <= maxIds && (extra > 0 ==> size < maxIds)
  {
    assert maxIds * (count - 1) == (count - 1) * maxIds && maxIds * count == count * maxIds;
    MulGrows(1, maxIds, count - 1);
    assert count - 1 < n;
    MulCancels(0, size, count);
    MulCancels(size, maxIds + 1, count);
    if extra > 0 { MulCancels(size, maxIds, count); }
  }

  ghost predicate Cut<T>(items: seq<T>, maxIds: nat, pieces: seq<seq<T>>)
  {
    Flat(pieces) == items && forall i :: 0 <= i < |pieces| ==> |pieces[i]| <= maxIds
  }

  function Width(size: nat, extra: nat, index: nat): nat
  {
    if index < extra then size + 1 else size
  }

  /** Where a piece starts: after so many widths. */
  function Start(size: nat, extra: nat, index: nat): nat
  {
    if index == 0 then 0 else Start(size, extra, index - 1) + Width(size, extra, index - 1)
  }

  lemma {:induction false} StartIs(size: nat, extra: nat, index: nat)
    ensures Start(size, extra, index) == index * size + if index < extra then index else extra
  {
    if index > 0 {
      StartIs(size, extra, index - 1);
      assert index * size == (index - 1) * size + size;
    }
  }

  lemma Even(n: nat, maxIds: nat, count: nat)
    requires n > 0 && maxIds > 0 && count == Ceiling(n, maxIds)
    ensures count > 0 && n % count < count && Start(n / count, n % count, count) == n
    ensures 1 <= n / count <= maxIds && (n % count > 0 ==> n / count < maxIds)
  {
    CeilingHolds(n, maxIds);
    DivMod(n, count);
    WidthsFit(n, maxIds, count, n / count, n % count);
    StartIs(n / count, n % count, count);
    assert count * (n / count) == (n / count) * count;
  }

  lemma {:induction false} StartsGrow(size: nat, extra: nat, index: nat, count: nat)
    requires index <= count
    ensures Start(size, extra, index) <= Start(size, extra, count)
    decreases count
  {
    if index < count { StartsGrow(size, extra, index, count - 1); }
  }

  /** Consecutive runs of the given widths, taken from the front. */
  method CutAt<T>(items: seq<T>, size: nat, extra: nat, count: nat) returns (cuts: seq<seq<T>>)
    requires Start(size, extra, count) == |items|
    ensures |cuts| == count && Flat(cuts) == items
    ensures forall i :: 0 <= i < count ==> |cuts[i]| == Width(size, extra, i)
  {
    cuts := [];
    var at := 0;
    for index := 0 to count
      invariant |cuts| == index && at == Start(size, extra, index) <= |items|
      invariant Flat(cuts) == items[..at]
      invariant forall i :: 0 <= i < index ==> |cuts[i]| == Width(size, extra, i)
    {
      var width := Width(size, extra, index);
      StartsGrow(size, extra, index + 1, count);
      FlatGrows(cuts, items[at..at + width]);
      TakesOn(items, at, at + width);
      cuts := cuts + [items[at..at + width]];
      at := at + width;
    }
    assert items[..at] == items;
  }

  /** No cut has fewer pieces, and no two pieces differ by more than one item. */
  method ShardsOf<T(!new, ==)>(items: seq<T>, maxIds: nat) returns (cuts: seq<seq<T>>)
    requires maxIds > 0
    ensures Cut(items, maxIds, cuts)
    ensures forall i :: 0 <= i < |cuts| ==> cuts[i] != []
    ensures forall i, j :: 0 <= i < j < |cuts| ==> |cuts[j]| <= |cuts[i]| <= |cuts[j]| + 1
    ensures forall other: seq<seq<T>> :: Cut(items, maxIds, other) ==> |cuts| <= |other|
  {
    if items == [] { return []; }
    var count := Ceiling(|items|, maxIds);
    Even(|items|, maxIds, count);
    cuts := CutAt(items, |items| / count, |items| % count, count);
    NoneFewer(items, maxIds, count);
  }

  lemma NoneFewer<T(!new)>(items: seq<T>, maxIds: nat, count: nat)
    requires items != [] && maxIds > 0 && count == Ceiling(|items|, maxIds)
    ensures forall other: seq<seq<T>> :: Cut(items, maxIds, other) ==> count <= |other|
  {
    forall other: seq<seq<T>> | Cut(items, maxIds, other)
      ensures count <= |other|
    {
      CeilingHolds(|items|, maxIds);
      Fewest(items, maxIds, other, count);
    }
  }

  lemma TakesOn<T>(items: seq<T>, a: nat, b: nat)
    requires a <= b <= |items|
    ensures items[..a] + items[a..b] == items[..b]
  {
  }

  lemma Fewest<T>(items: seq<T>, maxIds: nat, other: seq<seq<T>>, count: nat)
    requires Cut(items, maxIds, other) && count > 0 && maxIds * (count - 1) < |items|
    ensures count <= |other|
  {
    PiecesHold(other, maxIds);
    if |other| < count { MulGrows(|other|, count - 1, maxIds); }
  }
}
