/** encode_single and encode_batch_cached: a cache in front of an encoder. */
module EmbeddingCache {
  import opened Wrappers
  import opened Vectors
  import opened StableSort

  /** Every entry is the encoding of every text with its key. */
  ghost predicate Consistent(keyOf: string -> string, encode: string -> Vec, cache: map<string, Vec>) {
    forall text: string :: keyOf(text) in cache ==> cache[keyOf(text)] == encode(text)
  }

  /** Texts that share a cache key share their encoding (the key is a truncated hash). */
  ghost predicate NoClash(keyOf: string -> string, encode: string -> Vec) {
    forall text, other: string {:trigger keyOf(text), keyOf(other)} ::
      keyOf(text) == keyOf(other) ==> encode(text) == encode(other)
  }

  /** Storing single encodings keeps the cache right for all texts exactly when no keys clash. */
  lemma ConsistentExactlyWithoutClash(keyOf: string -> string, encode: string -> Vec)
    ensures NoClash(keyOf, encode)
       <==> forall text: string :: Consistent(keyOf, encode, map[keyOf(text) := encode(text)])
  {
    if forall text: string :: Consistent(keyOf, encode, map[keyOf(text) := encode(text)]) {
      forall text, other: string | keyOf(text) == keyOf(other) ensures encode(text) == encode(other) {
        var cache := map[keyOf(text) := encode(text)];
        assert Consistent(keyOf, encode, cache);
        assert keyOf(other) in cache;
      }
    }
  }

  type Found = (int, Vec)

  const ByIndex: Found -> real := (r: Found) => -(r.0 as real)

  /** Strictly ascending indices below n, n of them, are 0, 1, .., n - 1. */
  lemma {:induction false} AscendingFillsUp(found: seq<Found>, n: nat, i: nat)
    requires |found| == n && i < n
    requires forall k :: 0 <= k < n ==> 0 <= found[k].0 < n
    requires forall k, l :: 0 <= k < l < n ==> found[k].0 < found[l].0
    ensures found[i].0 == i
  {
    AtLeastPosition(found, n, i);
    AtMostPosition(found, n, i);
  }

  lemma {:induction false} AtLeastPosition(found: seq<Found>, n: nat, i: nat)
    requires |found| == n && i < n
    requires forall k :: 0 <= k < n ==> 0 <= found[k].0
    requires forall k, l :: 0 <= k < l < n ==> found[k].0 < found[l].0
    ensures found[i].0 >= i
  {
    if i > 0 {
      AtLeastPosition(found, n, i - 1);
    }
  }

  lemma {:induction false} AtMostPosition(found: seq<Found>, n: nat, i: nat)
    requires |found| == n && i < n
    requires forall k :: 0 <= k < n ==> found[k].0 < n
    requires forall k, l :: 0 <= k < l < n ==> found[k].0 < found[l].0
    ensures found[i].0 <= i
    decreases n - i
  {
    if i < n - 1 {
      AtMostPosition(found, n, i + 1);
    }
  }

  /** One answer for each text, in any order. */
  ghost predicate Answers(encode: string -> Vec, texts: seq<string>, found: seq<Found>) {
    && |found| == |texts|
    && (forall k :: 0 <= k < |found| ==> 0 <= found[k].0 < |texts| && found[k].1 == encode(texts[found[k].0]))
    && (forall k, l :: 0 <= k < l < |found| ==> found[k].0 != found[l].0)
  }

  /** Sorting the answers by index puts them in the order of the texts. */
  lemma SortedAnswers(encode: string -> Vec, texts: seq<string>, found: seq<Found>)
    requires Answers(encode, texts, found)
    ensures var sorted := SortDesc(ByIndex, found);
            |sorted| == |texts| && forall i :: 0 <= i < |texts| ==> sorted[i].1 == encode(texts[i])
  {
    var sorted, n := SortDesc(ByIndex, found), |texts|;
    SortSorts(ByIndex, found);
    DistinctPermuted(found, sorted);
    forall k | 0 <= k < n ensures 0 <= sorted[k].0 < n && sorted[k].1 == encode(texts[sorted[k].0]) {
      assert sorted[k] in multiset(sorted);
      assert sorted[k] in found;
    }
    forall k, l | 0 <= k < l < n ensures sorted[k].0 < sorted[l].0 {
      assert ByIndex(sorted[k]) >= ByIndex(sorted[l]) && sorted[k] != sorted[l];
    }
    forall i | 0 <= i < n ensures sorted[i].1 == encode(texts[i]) {
      AscendingFillsUp(sorted, n, i);
    }
  }

  /** list.index */
  method IndexOf(indices: seq<int>, idx: int) returns (k: nat)
    requires idx in indices
    ensures k < |indices| && indices[k] == idx && idx !in indices[..k]
  {
    k := 0;
    while indices[k] != idx
      invariant k < |indices| && idx in indices[k..] && idx !in indices[..k]
      decreases |indices| - k
    {
      k := k + 1;
    }
  }

  /** Every text below n is either answered or on the list of misses. */
  ghost predicate Split(encode: string -> Vec, texts: seq<string>, n: nat, results: seq<Found>,
                        toEncode: seq<(int, string)>) {
    && n <= |texts| && |results| + |toEncode| == n
    && (forall k :: 0 <= k < |results| ==> 0 <= results[k].0 < n && results[k].1 == encode(texts[results[k].0]))
    && (forall k, l :: 0 <= k < l < |results| ==> results[k].0 != results[l].0)
    && (forall k :: 0 <= k < |toEncode| ==> 0 <= toEncode[k].0 < n && toEncode[k].1 == texts[toEncode[k].0])
    && (forall k, l :: 0 <= k < l < |toEncode| ==> toEncode[k].0 != toEncode[l].0)
    && (forall k, l :: 0 <= k < |results| && 0 <= l < |toEncode| ==> results[k].0 != toEncode[l].0)
  }

  lemma HitKeepsSplit(encode: string -> Vec, texts: seq<string>, n: nat, results: seq<Found>,
                      toEncode: seq<(int, string)>)
    requires n < |texts| && Split(encode, texts, n, results, toEncode)
    ensures Split(encode, texts, n + 1, results + [(n, encode(texts[n]))], toEncode)
  {
  }

  lemma MissKeepsSplit(encode: string -> Vec, texts: seq<string>, n: nat, results: seq<Found>,
                       toEncode: seq<(int, string)>)
    requires n < |texts| && Split(encode, texts, n, results, toEncode)
    ensures Split(encode, texts, n + 1, results, toEncode + [(n, texts[n])])
  {
  }

  lemma AnswerKeepsSplit(encode: string -> Vec, texts: seq<string>, n: nat, results: seq<Found>,
                         toEncode: seq<(int, string)>, k: nat)
    requires k < |toEncode| && Split(encode, texts, n, results, toEncode[k..])
    ensures Split(encode, texts, n, results + [(toEncode[k].0, encode(toEncode[k].1))], toEncode[k + 1..])
  {
    var left := toEncode[k..];
    assert left[0] == toEncode[k] && left[1..] == toEncode[k + 1..];
    assert forall l :: 0 < l < |left| ==> left[l].0 != left[0].0 && left[1..][l - 1] == left[l];
  }

  /** The service with its Redis cache. A read may miss and a write may fail at any time. */
  class EmbeddingService {
    const keyOf: string -> string
    const encode: string -> Vec
    var cache: map<string, Vec>

    ghost predicate Valid()
      reads this
    {
      NoClash(keyOf, encode) && Consistent(keyOf, encode, cache)
    }

    constructor (keyOf: string -> string, encode: string -> Vec)
      requires NoClash(keyOf, encode)
      ensures Valid() && this.keyOf == keyOf && this.encode == encode
    {
      this.keyOf := keyOf;
      this.encode := encode;
      cache := map[];
    }

    method CacheGet(key: string) returns (hit: Option<Vec>)
      ensures hit.Some? ==> key in cache && hit.value == cache[key]
    {
      if key !in cache {
        return None;
      }
      if * {
        return None;
      }
      return Some(cache[key]);
    }

    method CacheSet(key: string, v: Vec) returns (ok: bool)
      modifies this
      ensures cache == if ok then old(cache)[key := v] else old(cache)
    {
      if * {
        return false;
      }
      cache := cache[key := v];
      return true;
    }

    method EncodeAll(texts: seq<string>) returns (vectors: seq<Vec>)
      ensures |vectors| == |texts| && forall i :: 0 <= i < |texts| ==> vectors[i] == encode(texts[i])
    {
      vectors := seq(|texts|, i requires 0 <= i < |texts| => encode(texts[i]));
    }

    method EncodeSingle(text: string) returns (v: Vec)
      requires Valid()
      modifies this
      ensures Valid() && v == encode(text)
    {
      var cached := CacheGet(keyOf(text));
      if cached.Some? {
        return cached.value;
      }
      var vectors := EncodeAll([text]);
      v := vectors[0];
      var _ := CacheSet(keyOf(text), v);
    }

    /** The encodings of the texts in input order, whatever the cache misses or loses. */
    method EncodeBatchCached(texts: seq<string>) returns (vectors: seq<Vec>)
      requires Valid()
      modifies this
      ensures Valid()
      ensures |vectors| == |texts| && forall i :: 0 <= i < |texts| ==> vectors[i] == encode(texts[i])
    {
      var results, toEncode := LookUp(texts);
      if toEncode != [] {
        results := EncodeMissing(texts, results, toEncode);
      }
      SortedAnswers(encode, texts, results);
      results := SortDesc(ByIndex, results);
      vectors := seq(|results|, i requires 0 <= i < |results| => results[i].1);
    }

    method LookUp(texts: seq<string>) returns (results: seq<Found>, toEncode: seq<(int, string)>)
      requires Valid()
      ensures Split(encode, texts, |texts|, results, toEncode)
    {
      results, toEncode := [], [];
      for i := 0 to |texts|
        invariant Split(encode, texts, i, results, toEncode)
      {
        var cached := CacheGet(keyOf(texts[i]));
        if cached.Some? {
          HitKeepsSplit(encode, texts, i, results, toEncode);
          results := results + [(i, cached.value)];
        } else {
          MissKeepsSplit(encode, texts, i, results, toEncode);
          toEncode := toEncode + [(i, texts[i])];
        }
      }
    }

    method EncodeMissing(texts: seq<string>, found: seq<Found>, toEncode: seq<(int, string)>)
      returns (results: seq<Found>)
      requires Valid() && Split(encode, texts, |texts|, found, toEncode)
      modifies this
      ensures Valid() && Answers(encode, texts, results)
    {
      var indices := seq(|toEncode|, k requires 0 <= k < |toEncode| => toEncode[k].0);
      var rawTexts := seq(|toEncode|, k requires 0 <= k < |toEncode| => toEncode[k].1);
      var vectors := EncodeAll(rawTexts);
      results := found;
      for k := 0 to |toEncode|
        invariant Valid() && Split(encode, texts, |texts|, results, toEncode[k..])
      {
        var idx := indices[k];
        AnswerKeepsSplit(encode, texts, |texts|, results, toEncode, k);
        results := results + [(idx, vectors[k])];
        var place := IndexOf(indices, idx);
        assert place == k;
        var _ := CacheSet(keyOf(rawTexts[place]), vectors[k]);
      }
    }
  }
}
