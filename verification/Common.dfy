/** Shapes every other module uses. */
module Common {
  datatype Option<+T> = None | Some(value: T)

  /** The values f gives for the items of s, in order. */
  function Mapped<A, B>(f: A -> B, s: seq<A>): (r: seq<B>)
    ensures |r| == |s|
    ensures forall i :: 0 <= i < |s| ==> r[i] == f(s[i])
  {
    seq(|s|, i requires 0 <= i < |s| => f(s[i]))
  }

  /** f(0), f(1), ... up to n values. */
  function Tabulated<A>(f: nat -> A, n: nat): (r: seq<A>)
    ensures |r| == n
  {
    if n == 0 then [] else Tabulated(f, n - 1) + [f(n - 1)]
  }

  lemma {:induction false} TabulatedAt<A>(f: nat -> A, n: nat, i: nat)
    requires i < n
    ensures Tabulated(f, n)[i] == f(i)
  {
    if i < n - 1 { TabulatedAt(f, n - 1, i); }
  }

  lemma Ends<T>(s: seq<T>)
    ensures s[..0] == [] && s[0..] == s && s[..|s|] == s && s[|s|..] == []
  {
  }

  lemma SplitAt<T>(s: seq<T>, i: nat)
    requires i < |s|
    ensures s == s[..i] + ([s[i]] + s[i + 1..])
    ensures s[i..] == [s[i]] + s[i + 1..]
    ensures s[..i + 1] == s[..i] + [s[i]]
  {
  }

  lemma Halves<T>(s: seq<T>, i: nat)
    requires i <= |s|
    ensures s == s[..i] + s[i..]
  {
  }

  lemma FirstApart<T>(s: seq<T>)
    requires s != []
    ensures s == [s[0]] + s[1..]
  {
  }

  lemma LastApart<T>(s: seq<T>)
    requires s != []
    ensures s == s[..|s| - 1] + [s[|s| - 1]]
  {
  }

  lemma Grouped<T>(a: seq<T>, b: seq<T>, c: seq<T>)
    ensures a + b + c == a + (b + c)
  {
  }

  lemma TailOfSum<T>(a: seq<T>, b: seq<T>)
    requires a != []
    ensures (a + b)[1..] == a[1..] + b
  {
  }

  lemma Regroup<T>(a: seq<T>, b: seq<T>, c: seq<T>, d: seq<T>)
    ensures a + (b + c) + d == a + b + (c + d)
  {
  }

  /** A number above a finite set of them. */
  lemma {:induction false} Beyond(ids: set<nat>) returns (r: nat)
    ensures forall id :: id in ids ==> id < r
    decreases |ids|
  {
    r := 0;
    if ids != {} {
      var id :| id in ids;
      var rest := Beyond(ids - {id});
      r := rest + id + 1;
      forall x | x in ids
        ensures x < r
      {
        assert x == id || x in ids - {id};
      }
    }
  }

  lemma Joins<T>(s: set<T>, x: T)
    ensures |s + {x}| <= |s| + 1
    ensures |s - {x}| == if x in s then |s| - 1 else |s|
  {
    if x in s {
      assert s + {x} == s;
    } else {
      assert s - {x} == s;
    }
  }

  function Max(a: int, b: int): (r: int)
    ensures r >= a && r >= b && (r == a || r == b)
  {
    if a < b then b else a
  }

  function Min(a: int, b: int): (r: int)
    ensures r <= a && r <= b && (r == a || r == b)
  {
    if a < b then a else b
  }
}
