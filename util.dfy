/** Small sequence vocabulary shared by the shape modules: an optional
    value, duplicate-free sequences, removal of the first occurrence
    (Array.prototype.splice at indexOf) and a counting fact. */
module Util {

  datatype Option<+T> = None | Some(value: T)

  /** What a call ends in: a value, or an exception thrown out of it. */
  datatype Outcome<T> = Returned(value: T) | Thrown

  /** No element occurs twice. */
  ghost predicate Distinct<T>(s: seq<T>) {
    forall i, j :: 0 <= i < j < |s| ==> s[i] != s[j]
  }

  /** xs is ys with some elements left out and the rest in their order,
      as Array.prototype.filter leaves it. */
  ghost predicate Subsequence<T>(xs: seq<T>, ys: seq<T>)
    decreases |ys|
  {
    if xs == [] then true
    else if ys == [] then false
    else (xs[0] == ys[0] && Subsequence(xs[1..], ys[1..])) || Subsequence(xs, ys[1..])
  }

  /** Index of the first occurrence of x, as indexOf; |s| when absent. */
  function IndexOf<T(==)>(s: seq<T>, x: T): (k: nat)
    ensures k <= |s|
    ensures k < |s| ==> s[k] == x
    ensures forall j :: 0 <= j < k ==> s[j] != x
    ensures k == |s| <==> x !in s
  {
    if s == [] then 0
    else if s[0] == x then 0
    else 1 + IndexOf(s[1..], x)
  }

  /** The sequence with the first occurrence of x spliced out. */
  function Without<T(==)>(s: seq<T>, x: T): seq<T> {
    var k := IndexOf(s, x);
    if k == |s| then s else s[..k] + s[k + 1..]
  }

  /** Splicing out x removes exactly one occurrence of it, when present,
      and keeps every other element. */
  lemma WithoutSpec<T>(s: seq<T>, x: T)
    ensures x !in s ==> Without(s, x) == s
    ensures x in s ==> |Without(s, x)| == |s| - 1
    ensures multiset(Without(s, x)) == multiset(s) - multiset{x}
    ensures forall y :: y != x ==> (y in Without(s, x) <==> y in s)
  {
    var k := IndexOf(s, x);
    if k < |s| {
      WithoutSplit(s, x, s[..k], s[k + 1..]);
    }
  }

  lemma WithoutSplit<T>(s: seq<T>, x: T, a: seq<T>, b: seq<T>)
    requires s == a + [x] + b && Without(s, x) == a + b
    ensures multiset(Without(s, x)) == multiset(s) - multiset{x}
    ensures forall y :: y != x ==> (y in Without(s, x) <==> y in s)
  {
    assert multiset(s) == multiset(a) + multiset{x} + multiset(b);
  }

  /** Splicing keeps a duplicate-free sequence duplicate-free and removes
      the element entirely. */
  lemma WithoutDistinct<T>(s: seq<T>, x: T)
    requires Distinct(s)
    ensures Distinct(Without(s, x)) && x !in Without(s, x)
  {
    var k := IndexOf(s, x);
    if k < |s| {
      var w := Without(s, x);
      assert w == s[..k] + s[k + 1..];
      forall i, j | 0 <= i < j < |w| ensures w[i] != w[j] {
        var i' := if i < k then i else i + 1;
        var j' := if j < k then j else j + 1;
        assert w[i] == s[i'] && w[j] == s[j'];
      }
      forall i | 0 <= i < |w| ensures w[i] != x {
        if i < k { assert w[i] == s[i]; } else { assert w[i] == s[i + 1]; }
      }
    }
  }

  /** Removing the last element of a prefix from a distinct sequence. */
  lemma WithoutLastOfPrefix<T>(s: seq<T>, i: nat, suffix: seq<T>)
    requires 0 < i <= |s| && Distinct(s[..i] + suffix)
    ensures Without(s[..i] + suffix, s[i - 1]) == s[..i - 1] + suffix
  {
    var t := s[..i] + suffix;
    var k := IndexOf(t, s[i - 1]);
    assert t[i - 1] == s[i - 1];
    assert k == i - 1;
    assert t[..k] == s[..i - 1];
    assert t[k + 1..] == suffix;
  }

  /** Appending an element not yet present keeps a sequence duplicate-free. */
  lemma DistinctAppend<T>(s: seq<T>, x: T)
    requires Distinct(s) && x !in s
    ensures Distinct(s + [x])
  {
    forall i, j | 0 <= i < j < |s + [x]| ensures (s + [x])[i] != (s + [x])[j] {
      if j == |s| { assert (s + [x])[i] == s[i]; }
    }
  }

  /** A duplicate-free sequence is as long as the set of its elements. */
  lemma {:induction false} DistinctCard<T>(s: seq<T>)
    requires Distinct(s)
    ensures |set x | x in s| == |s|
  {
    if s != [] {
      var t := s[1..];
      assert Distinct(t) by {
        forall i, j | 0 <= i < j < |t| ensures t[i] != t[j] {
          assert t[i] == s[i + 1] && t[j] == s[j + 1];
        }
      }
      DistinctCard(t);
      assert s[0] !in t by {
        forall j | 0 <= j < |t| ensures t[j] != s[0] { assert t[j] == s[j + 1]; }
      }
      assert (set x | x in s) == (set x | x in t) + {s[0]} by {
        assert s == [s[0]] + t;
      }
    }
  }

  /** A duplicate-free sequence is as long as any set holding exactly its
      elements. */
  lemma DistinctCardOf<T>(s: seq<T>, elems: set<T>)
    requires Distinct(s) && forall x :: x in elems <==> x in s
    ensures |elems| == |s|
  {
    DistinctCard(s);
    assert elems == set x | x in s;
  }

  /** Taking away one more x is taking away x along with the rest. */
  lemma DiffStep<T>(m: multiset<T>, a: multiset<T>, x: T)
    ensures m - a - multiset{x} == m - (a + multiset{x})
  {
    forall y ensures (m - a - multiset{x})[y] == (m - (a + multiset{x}))[y] {
    }
  }

  /** The set of elements of a sequence is no larger than the sequence. */
  lemma {:induction false} SetCardBound<T>(s: seq<T>)
    ensures |set x | x in s| <= |s|
  {
    if s != [] {
      var t := s[1..];
      SetCardBound(t);
      assert (set x | x in s) == (set x | x in t) + {s[0]} by {
        assert s == [s[0]] + t;
      }
    }
  }

  /** A duplicate-free sequence drawn from the elements of another is no
      longer than it. */
  lemma DistinctSubBound<T>(xs: seq<T>, ys: seq<T>)
    requires Distinct(xs)
    requires forall x :: x in xs ==> x in ys
    ensures |xs| <= |ys|
  {
    DistinctCard(xs);
    SetCardBound(ys);
    var a := set x | x in xs;
    var b := set y | y in ys;
    assert a <= b;
    assert |a| <= |b| by { SubsetCard(a, b); }
  }

  lemma SubsetCard<T>(a: set<T>, b: set<T>)
    requires a <= b
    ensures |a| <= |b|
  {
    assert b == a + (b - a);
  }

  /** A duplicate-free sequence splits into a head that is not in its
      duplicate-free tail. */
  lemma DistinctTail<T>(cs: seq<T>)
    requires Distinct(cs) && cs != []
    ensures Distinct(cs[1..]) && cs[0] !in cs[1..]
  {
    var rest := cs[1..];
    forall i, j | 0 <= i < j < |rest| ensures rest[i] != rest[j] {
      assert rest[i] == cs[i + 1] && rest[j] == cs[j + 1];
    }
    forall i | 0 <= i < |rest| ensures rest[i] != cs[0] {
      assert rest[i] == cs[i + 1];
    }
  }

  /** Slicing facts, stated once so that callers with a large context
      need not rediscover them. */
  lemma Slices<T>(s: seq<T>, i: nat)
    requires i < |s|
    ensures s[..i + 1] == s[..i] + [s[i]] && s[i..][1..] == s[i + 1..] && s[i..][0] == s[i]
  {
  }

  /** Every element of xs lies in the set within. */
  ghost predicate Within<T>(xs: seq<T>, within: set<T>) {
    forall x | x in xs :: x in within
  }

  /** Two sequences whose elements all lie in a set concatenate to one
      whose elements do, and a larger set holds them too. */
  lemma AppendWithin<T>(a: seq<T>, b: seq<T>, within: set<T>, larger: set<T>)
    requires Within(a, within) && within <= larger && Within(b, larger)
    ensures Within(a + b, larger)
  {
  }

  lemma WithinMore<T>(xs: seq<T>, within: set<T>, larger: set<T>)
    requires Within(xs, within) && within <= larger
    ensures Within(xs, larger)
  {
  }

  lemma WithinOne<T>(xs: seq<T>, x: T)
    requires forall y | y in xs :: y in [x]
    ensures Within(xs, {x})
  {
  }

  lemma OneWithin<T>(x: T, within: set<T>)
    requires x in within
    ensures Within([x], within)
  {
  }

  /** Every element of xs is outside before and inside after. */
  ghost predicate NewIn<T>(xs: seq<T>, before: set<T>, after: set<T>) {
    forall x | x in xs :: x !in before && x in after
  }

  lemma AppendNewIn<T>(a: seq<T>, b: seq<T>, before: set<T>, mid: set<T>, after: set<T>)
    requires NewIn(a, before, mid) && before <= mid <= after && NewIn(b, mid, after)
    ensures NewIn(a + b, before, after)
  {
  }

  /** after is before together with the elements of xs, and xs names
      none of them twice. */
  ghost predicate Extends<T>(xs: seq<T>, before: set<T>, after: set<T>) {
    Distinct(xs) && after == before + (set x | x in xs)
  }

  lemma ExtendsNone<T>(before: set<T>)
    ensures Extends([], before, before)
  {
  }

  lemma ExtendsOne<T>(x: T, before: set<T>)
    ensures Extends([x], before, before + {x})
  {
  }

  /** Two extensions in a row, the second by new elements only, are one
      extension by the concatenation. */
  lemma ExtendsAppend<T>(a: seq<T>, b: seq<T>, before: set<T>, mid: set<T>, after: set<T>)
    requires Extends(a, before, mid) && Extends(b, mid, after) && NewIn(b, mid, after)
    ensures Extends(a + b, before, after)
  {
    forall i, j | 0 <= i < j < |a + b| ensures (a + b)[i] != (a + b)[j] {
      if j < |a| {
      } else if i >= |a| {
        assert (a + b)[i] == b[i - |a|] && (a + b)[j] == b[j - |a|];
      } else {
        assert (a + b)[i] == a[i] && a[i] in mid;
        assert (a + b)[j] == b[j - |a|] && b[j - |a|] !in mid;
      }
    }
    assert (set x | x in a + b) == (set x | x in a) + (set x | x in b);
  }

  /** after is before together with the elements of xs, each of them new
      and none named twice. */
  ghost predicate AddsNew<T>(xs: seq<T>, before: set<T>, after: set<T>) {
    Extends(xs, before, after) && NewIn(xs, before, after)
  }

  lemma AddsNewAppend<T>(a: seq<T>, b: seq<T>, before: set<T>, mid: set<T>, after: set<T>)
    requires AddsNew(a, before, mid) && AddsNew(b, mid, after)
    ensures AddsNew(a + b, before, after)
  {
    ExtendsAppend(a, b, before, mid, after);
    AppendNewIn(a, b, before, mid, after);
  }

  lemma ExtendsStep<T>(xs: seq<T>, x: T, before: set<T>, mid: set<T>, after: set<T>)
    requires Extends(xs, before, mid) && x !in mid && after == mid + {x}
    ensures Extends(xs + [x], before, after)
  {
    ExtendsOne(x, mid);
    ExtendsAppend(xs, [x], before, mid, after);
  }

  /** Two maps with the same keys keep the same keys when both gain one. */
  lemma KeysUpdate<K, A, B>(m: map<K, A>, m': map<K, B>, k: K, a: A, b: B)
    requires m.Keys == m'.Keys
    ensures m[k := a].Keys == m'[k := b].Keys
  {
  }
}
