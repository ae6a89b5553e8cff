/**
  Python dictionaries keyed by column name, as the scripts build them per
  respondent: insertion-ordered, `d[k] = v` overwrites in place when `k` is
  already present and appends otherwise. `pd.DataFrame(list_of_dicts)` takes
  its columns from these dictionaries in order of first appearance.
*/
module Records {
  import opened Wrappers

  /** An insertion-ordered dictionary from column name to value. */
  type Dict<V> = seq<(string, V)>

  /** The keys in insertion order. */
  function Keys<V>(d: Dict<V>): (r: seq<string>)
    ensures |r| == |d|
    ensures forall i :: 0 <= i < |d| ==> r[i] == d[i].0
  {
    seq(|d|, i requires 0 <= i < |d| => d[i].0)
  }

  /** `d.get(k)`. */
  function Get<V>(d: Dict<V>, k: string): Option<V>
  {
    if |d| == 0 then None
    else if d[0].0 == k then Some(d[0].1)
    else Get(d[1..], k)
  }

  /** `d[k] = v`. */
  function Put<V>(d: Dict<V>, k: string, v: V): Dict<V>
  {
    if |d| == 0 then [(k, v)]
    else if d[0].0 == k then [(k, v)] + d[1..]
    else [d[0]] + Put(d[1..], k, v)
  }

  /** No element occurs twice. */
  predicate Distinct(s: seq<string>)
  {
    forall i, j :: 0 <= i < j < |s| ==> s[i] != s[j]
  }

  lemma KeysTail<V>(d: Dict<V>)
    requires |d| > 0
    ensures Keys(d) == [d[0].0] + Keys(d[1..])
  {
  }

  /** A key is found exactly when it is among the keys. */
  lemma {:induction false} GetSome<V>(d: Dict<V>, k: string)
    ensures Get(d, k).Some? <==> k in Keys(d)
  {
    if |d| > 0 {
      KeysTail(d);
      GetSome(d[1..], k);
    }
  }

  /**
    After `d[k] = v`: `k` maps to `v`, every other key keeps its value, the
    key order is unchanged if `k` was present and `k` is appended otherwise.
  */
  lemma {:induction false} PutFacts<V>(d: Dict<V>, k: string, v: V)
    ensures Get(Put(d, k, v), k) == Some(v)
    ensures forall e :: e != k ==> Get(Put(d, k, v), e) == Get(d, e)
    ensures Keys(Put(d, k, v)) == if k in Keys(d) then Keys(d) else Keys(d) + [k]
  {
    if |d| > 0 {
      KeysTail(d);
      KeysTail(Put(d, k, v));
      if d[0].0 != k {
        PutFacts(d[1..], k, v);
      } else {
        assert Put(d, k, v)[1..] == d[1..];
      }
    }
  }

  /** The keys after `d[k] = v`. */
  lemma PutKeys<V>(d: Dict<V>, k: string, v: V)
    ensures Keys(Put(d, k, v)) == if k in Keys(d) then Keys(d) else Keys(d) + [k]
  {
    PutFacts(d, k, v);
  }

  /** Looking up one key after `d[k] = v`. */
  lemma PutGet<V>(d: Dict<V>, k: string, v: V, e: string)
    ensures Get(Put(d, k, v), e) == if e == k then Some(v) else Get(d, e)
  {
    PutFacts(d, k, v);
  }

  /** Adding an absent key and then overwriting it: the key is appended with the second value. */
  lemma PutFreshTwice<V>(d: Dict<V>, k: string, v0: V, v: V)
    requires k !in Keys(d)
    ensures Keys(Put(Put(d, k, v0), k, v)) == Keys(d) + [k]
    ensures Get(Put(Put(d, k, v0), k, v), k) == Some(v)
    ensures forall e :: e != k ==> Get(Put(Put(d, k, v0), k, v), e) == Get(d, e)
  {
    PutFacts(d, k, v0);
    PutFacts(Put(d, k, v0), k, v);
  }

  /** Inserting keeps the keys distinct. */
  lemma PutDistinct<V>(d: Dict<V>, k: string, v: V)
    requires Distinct(Keys(d))
    ensures Distinct(Keys(Put(d, k, v)))
  {
    PutFacts(d, k, v);
  }

  /** The index of the first occurrence of `x` in `s`. */
  function FirstIndex(s: seq<string>, x: string): (i: nat)
    requires x in s
    ensures i < |s| && s[i] == x && forall j :: 0 <= j < i ==> s[j] != x
  {
    if s[0] == x then 0 else 1 + FirstIndex(s[1..], x)
  }

  /** `s` without repeats, each element kept at its first occurrence. */
  function Dedup(s: seq<string>): seq<string>
  {
    if |s| == 0 then []
    else
      var d := Dedup(s[..|s| - 1]);
      if s[|s| - 1] in d then d else d + [s[|s| - 1]]
  }

  lemma DedupSnoc(s: seq<string>, x: string)
    ensures Dedup(s + [x]) == if x in Dedup(s) then Dedup(s) else Dedup(s) + [x]
  {
    assert (s + [x])[..|s|] == s;
  }

  lemma {:induction false} FirstIndexPrefix(a: seq<string>, b: seq<string>, y: string)
    requires y in a
    ensures FirstIndex(a + b, y) == FirstIndex(a, y)
    decreases |a|
  {
    if a[0] != y {
      assert (a + b)[1..] == a[1..] + b;
      FirstIndexPrefix(a[1..], b, y);
    }
  }

  /**
    `Dedup(s)` holds each element of `s` exactly once, ordered by first
    appearance in `s`.
  */
  lemma {:induction false} DedupFacts(s: seq<string>)
    ensures Distinct(Dedup(s))
    ensures forall x :: x in Dedup(s) <==> x in s
    ensures forall i, j :: 0 <= i < j < |Dedup(s)| ==> FirstIndex(s, Dedup(s)[i]) < FirstIndex(s, Dedup(s)[j])
  {
    if |s| > 0 {
      var init, x := s[..|s| - 1], s[|s| - 1];
      DedupFacts(init);
      assert s == init + [x];
      forall y | y in init ensures FirstIndex(s, y) == FirstIndex(init, y) {
        FirstIndexPrefix(init, [x], y);
      }
      if x !in init {
        assert FirstIndex(s, x) == |init|;
      }
    }
  }

  /** A list without repeats is its own `Dedup`. */
  lemma {:induction false} DedupDistinct(s: seq<string>)
    requires Distinct(s)
    ensures Dedup(s) == s
  {
    if |s| > 0 {
      var init := s[..|s| - 1];
      DedupDistinct(init);
      assert s == init + [s[|s| - 1]];
    }
  }

  /** The keys of every dictionary in `recs`, concatenated. */
  function AllKeys<V>(recs: seq<Dict<V>>): seq<string>
  {
    if |recs| == 0 then [] else AllKeys(recs[..|recs| - 1]) + Keys(recs[|recs| - 1])
  }

  /** `pd.DataFrame(recs).columns`: every key, once, in order of first appearance. */
  function FrameColumns<V>(recs: seq<Dict<V>>): seq<string>
  {
    Dedup(AllKeys(recs))
  }

  /** When every dictionary has the same distinct keys, those are the frame's columns. */
  lemma {:induction false} FrameColumnsUniform<V>(recs: seq<Dict<V>>, ks: seq<string>)
    requires |recs| > 0 && Distinct(ks)
    requires forall i :: 0 <= i < |recs| ==> Keys(recs[i]) == ks
    ensures FrameColumns(recs) == ks
  {
    if |recs| == 1 {
      assert AllKeys(recs) == AllKeys(recs[..0]) + ks == ks;
      DedupDistinct(ks);
    } else {
      var init := recs[..|recs| - 1];
      FrameColumnsUniform(init, ks);
      DedupAbsorb(AllKeys(init), ks);
    }
  }

  /** Appending elements that already occur changes nothing after `Dedup`. */
  lemma {:induction false} DedupAbsorb(s: seq<string>, t: seq<string>)
    requires forall x :: x in t ==> x in Dedup(s)
    ensures Dedup(s + t) == Dedup(s)
    decreases |t|
  {
    if |t| > 0 {
      var t0 := t[..|t| - 1];
      DedupAbsorb(s, t0);
      assert s + t == (s + t0) + [t[|t| - 1]];
      DedupSnoc(s + t0, t[|t| - 1]);
    } else {
      assert s + t == s;
    }
  }

  /** `[c for c in s if p(c)]`. */
  function Filter(s: seq<string>, p: string -> bool): (r: seq<string>)
    ensures |r| <= |s|
    ensures forall x :: x in r <==> x in s && p(x)
  {
    if |s| == 0 then [] else (if p(s[0]) then [s[0]] else []) + Filter(s[1..], p)
  }

  lemma {:induction false} FilterConcat(a: seq<string>, b: seq<string>, p: string -> bool)
    ensures Filter(a + b, p) == Filter(a, p) + Filter(b, p)
  {
    if |a| > 0 {
      assert (a + b)[1..] == a[1..] + b;
      FilterConcat(a[1..], b, p);
    } else {
      assert a + b == b;
    }
  }

  /** Filtering keeps everything when every element passes. */
  lemma {:induction false} FilterAll(s: seq<string>, p: string -> bool)
    requires forall x :: x in s ==> p(x)
    ensures Filter(s, p) == s
  {
    if |s| > 0 {
      FilterAll(s[1..], p);
    }
  }

  /** Filtering keeps nothing when no element passes. */
  lemma {:induction false} FilterNone(s: seq<string>, p: string -> bool)
    requires forall x :: x in s ==> !p(x)
    ensures Filter(s, p) == []
  {
    if |s| > 0 {
      FilterNone(s[1..], p);
    }
  }

  /** Filtering with a predicate implied by another keeps the other's selection. */
  lemma {:induction false} FilterFilter(s: seq<string>, p: string -> bool, q: string -> bool)
    requires forall x :: x in s && p(x) ==> q(x)
    ensures Filter(Filter(s, p), q) == Filter(s, p)
  {
    FilterAll(Filter(s, p), q);
  }
}
