/** list.sort(key=..., reverse=True): descending, and equal keys keep their order. */
module StableSort {

  function InsertDesc<T>(key: T -> real, x: T, s: seq<T>): seq<T> {
    if s == [] || key(s[0]) <= key(x) then [x] + s else [s[0]] + InsertDesc(key, x, s[1..])
  }

  function SortDesc<T>(key: T -> real, s: seq<T>): seq<T> {
    if s == [] then [] else InsertDesc(key, s[0], SortDesc(key, s[1..]))
  }

  ghost predicate Descending<T>(key: T -> real, s: seq<T>) {
    forall i, j :: 0 <= i < j < |s| ==> key(s[i]) >= key(s[j])
  }

  /** The elements with key k, in order. */
  function WithKey<T>(key: T -> real, k: real, s: seq<T>): seq<T> {
    if s == [] then []
    else if key(s[0]) == k then [s[0]] + WithKey(key, k, s[1..])
    else WithKey(key, k, s[1..])
  }

  lemma {:induction false} InsertPermutes<T>(key: T -> real, x: T, s: seq<T>)
    ensures multiset(InsertDesc(key, x, s)) == multiset{x} + multiset(s)
  {
    if s != [] && key(s[0]) > key(x) {
      InsertPermutes(key, x, s[1..]);
      assert s == [s[0]] + s[1..];
    }
  }

  lemma {:induction false} InsertDescends<T>(key: T -> real, x: T, s: seq<T>)
    requires Descending(key, s)
    ensures Descending(key, InsertDesc(key, x, s))
  {
    if s != [] && key(s[0]) > key(x) {
      InsertDescends(key, x, s[1..]);
      InsertPermutes(key, x, s[1..]);
      var r := InsertDesc(key, x, s[1..]);
      forall k | 0 <= k < |r| ensures key(s[0]) >= key(r[k]) {
        assert r[k] in multiset{x} + multiset(s[1..]);
      }
    }
  }

  lemma {:induction false} SortSorts<T>(key: T -> real, s: seq<T>)
    ensures multiset(SortDesc(key, s)) == multiset(s) && |SortDesc(key, s)| == |s|
    ensures Descending(key, SortDesc(key, s))
  {
    if s != [] {
      SortSorts(key, s[1..]);
      InsertPermutes(key, s[0], SortDesc(key, s[1..]));
      InsertDescends(key, s[0], SortDesc(key, s[1..]));
      assert s == [s[0]] + s[1..];
    }
    assert |multiset(SortDesc(key, s))| == |multiset(s)|;
  }

  lemma {:induction false} InsertAmongEquals<T>(key: T -> real, k: real, x: T, s: seq<T>)
    ensures WithKey(key, k, InsertDesc(key, x, s))
         == if key(x) == k then [x] + WithKey(key, k, s) else WithKey(key, k, s)
  {
    if s == [] || key(s[0]) <= key(x) {
      assert ([x] + s)[1..] == s;
    } else {
      InsertAmongEquals(key, k, x, s[1..]);
      var rest := InsertDesc(key, x, s[1..]);
      assert ([s[0]] + rest)[1..] == rest;
    }
  }

  /** Stability: the elements with one key keep their order. */
  lemma {:induction false} SortStable<T>(key: T -> real, k: real, s: seq<T>)
    ensures WithKey(key, k, SortDesc(key, s)) == WithKey(key, k, s)
  {
    if s != [] {
      SortStable(key, k, s[1..]);
      InsertAmongEquals(key, k, s[0], SortDesc(key, s[1..]));
    }
  }

  /** Takes one occurrence of x out of b. */
  lemma TakeOut<T>(b: seq<T>, x: T) returns (front: seq<T>, back: seq<T>)
    requires x in multiset(b)
    ensures b == front + ([x] + back)
    ensures multiset(front + back) == multiset(b) - multiset{x}
  {
    var i :| 0 <= i < |b| && b[i] == x;
    front, back := b[..i], b[i + 1..];
    assert b == front + ([x] + back);
    assert multiset(b) == multiset(front) + (multiset{x} + multiset(back));
    assert multiset(front + back) == multiset(front) + multiset(back);
  }

  lemma MultisetOfTail<T>(a: seq<T>)
    requires a != []
    ensures multiset(a[1..]) == multiset(a) - multiset{a[0]}
  {
    assert a == [a[0]] + a[1..];
  }

  ghost predicate Distinct<T>(s: seq<T>) {
    forall i, j :: 0 <= i < j < |s| ==> s[i] != s[j]
  }

  lemma TwiceCounted<T>(s: seq<T>, i: nat, j: nat)
    requires i < j < |s| && s[i] == s[j]
    ensures multiset(s)[s[i]] >= 2
  {
    assert s == s[..j] + ([s[j]] + s[j + 1..]);
    assert s[..j] == s[..i] + ([s[i]] + s[i + 1..j]);
  }

  lemma {:induction false} OnceCounted<T>(s: seq<T>, x: T)
    requires Distinct(s)
    ensures multiset(s)[x] <= 1
  {
    if s != [] {
      OnceCounted(s[1..], x);
      assert s == [s[0]] + s[1..];
      if s[0] == x {
        assert x !in s[1..];
      }
    }
  }

  lemma DistinctPermuted<T>(a: seq<T>, b: seq<T>)
    requires multiset(a) == multiset(b) && Distinct(a)
    ensures Distinct(b)
  {
    forall i, j | 0 <= i < j < |b| ensures b[i] != b[j] {
      if b[i] == b[j] {
        TwiceCounted(b, i, j);
        OnceCounted(a, b[i]);
      }
    }
  }
}
