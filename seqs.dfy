/** The array operations both back ends build their handlers from:
    `filter`, `slice(0, n)` and `slice(-n)`. */
module Seqs {

  function Min(a: int, b: int): int {
    if a <= b then a else b
  }

  function Max(a: int, b: int): int {
    if a <= b then b else a
  }

  /** `s.filter(p)`: the elements of `s` that satisfy `p`, each as often as in `s`. */
  function Filter<T(!new)>(s: seq<T>, p: T -> bool): (r: seq<T>)
    ensures |r| <= |s|
    ensures forall i | 0 <= i < |r| :: p(r[i])
  {
    if s == [] then []
    else (if p(s[0]) then [s[0]] else []) + Filter(s[1..], p)
  }

  /** `filter` keeps every element that satisfies `p`, as many times as it occurs,
      and nothing else. */
  lemma {:induction false} FilterMultiset<T(!new)>(s: seq<T>, p: T -> bool)
    ensures forall x :: multiset(Filter(s, p))[x] == if p(x) then multiset(s)[x] else 0
  {
    if s != [] {
      FilterMultiset(s[1..], p);
      assert s == [s[0]] + s[1..];
    }
  }

  /** Filtering distributes over concatenation, so `filter` keeps the original order. */
  lemma {:induction false} FilterConcat<T(!new)>(a: seq<T>, b: seq<T>, p: T -> bool)
    ensures Filter(a + b, p) == Filter(a, p) + Filter(b, p)
  {
    if a == [] {
      assert a + b == b;
    } else {
      assert (a + b)[0] == a[0] && (a + b)[1..] == a[1..] + b;
      FilterConcat(a[1..], b, p);
    }
  }

  lemma FilterSingleton<T(!new)>(x: T, p: T -> bool)
    ensures Filter([x], p) == if p(x) then [x] else []
  {
    assert [x][1..] == [];
  }

  /** A filter that no element passes is empty. */
  lemma {:induction false} FilterNone<T(!new)>(s: seq<T>, p: T -> bool)
    requires forall i | 0 <= i < |s| :: !p(s[i])
    ensures Filter(s, p) == []
  {
    if s != [] {
      FilterNone(s[1..], p);
    }
  }

  /** `s.slice(0, n)` for `n >= 0`: the first `n` elements, or all of them. */
  function Take<T>(s: seq<T>, n: int): (r: seq<T>)
    requires n >= 0
    ensures |r| == Min(|s|, n) && r == s[..|r|]
  {
    if n >= |s| then s else s[..n]
  }

  /** A prefix holds no element more often than the whole sequence. */
  lemma TakeMultiset<T>(s: seq<T>, n: int)
    requires n >= 0
    ensures multiset(Take(s, n)) <= multiset(s)
  {
    var r := Take(s, n);
    assert s == r + s[|r|..];
  }

  /** `s.slice(-n)` for `n > 0`: the last `n` elements, or all of them. */
  function LastN<T>(s: seq<T>, n: nat): (r: seq<T>)
    requires n > 0
    ensures |r| == Min(|s|, n) && r == s[|s| - |r|..]
  {
    if |s| <= n then s else s[|s| - n..]
  }

  /** Trimming before an append and trimming after it agree: keeping the last `n`
      elements of `LastN(s, n) + [x]` is keeping the last `n` of `s + [x]`. */
  lemma LastNAppend<T>(s: seq<T>, x: T, n: nat)
    requires n > 0
    ensures LastN(LastN(s, n) + [x], n) == LastN(s + [x], n)
  {
    var t := LastN(s, n);
    var u := LastN(t + [x], n);
    var sx := s + [x];
    assert t + [x] == sx[|s| - |t|..];
    assert u == sx[|s| + 1 - |u|..] by {
      assert u == (t + [x])[|t| + 1 - |u|..];
    }
  }

  /** Pushing `x` and keeping the last `n`: whatever holds of every element and of
      `x` holds of every element kept, and `x` is the last one kept. */
  lemma LastNPush<T>(s: seq<T>, x: T, n: nat, p: T -> bool)
    requires n > 0
    requires forall i | 0 <= i < |s| :: p(s[i])
    requires p(x)
    ensures forall i | 0 <= i < |LastN(s + [x], n)| :: p(LastN(s + [x], n)[i])
    ensures LastN(s + [x], n)[|LastN(s + [x], n)| - 1] == x
  {
    var pushed := s + [x];
    var kept := LastN(pushed, n);
    forall i | 0 <= i < |kept| ensures p(kept[i]) {
      var j := |pushed| - |kept| + i;
      assert kept[i] == pushed[j];
      if j < |s| {
        assert pushed[j] == s[j];
      }
    }
  }
}
