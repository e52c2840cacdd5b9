/**
 Splitting a list into consecutive slices of a fixed size, as both
 pipelines do: `[s[i:i+n] for i in range(0, len(s), n)]`.
 */
module Chunking {

  import opened Common

  /** The slices `s[i:i+n]` for `i` in `range(0, |s|, n)`, in order. */
  function Chunks<T>(s: seq<T>, n: nat): seq<seq<T>>
    requires n > 0
    decreases |s|
  {
    if |s| == 0 then []
    else if |s| <= n then [s]
    else [s[..n]] + Chunks(s[n..], n)
  }

  /** Concatenation of a list of lists. */
  function Flatten<T>(ss: seq<seq<T>>): seq<T> {
    if ss == [] then [] else ss[0] + Flatten(ss[1..])
  }

  lemma {:induction false} FlattenAppend<T>(ss: seq<seq<T>>, tail: seq<T>)
    ensures Flatten(ss + [tail]) == Flatten(ss) + tail
  {
    if ss == [] {
      assert [tail][1..] == [];
    } else {
      assert (ss + [tail])[1..] == ss[1..] + [tail];
      FlattenAppend(ss[1..], tail);
    }
  }

  /** Flattening the chunks gives back the list: every element lands in exactly one chunk, in order. */
  lemma {:induction false} FlattenChunks<T>(s: seq<T>, n: nat)
    requires n > 0
    ensures Flatten(Chunks(s, n)) == s
    decreases |s|
  {
    if |s| > n {
      var rest := Chunks(s[n..], n);
      assert ([s[..n]] + rest)[1..] == rest;
      FlattenChunks(s[n..], n);
      assert s == s[..n] + s[n..];
    } else if |s| > 0 {
      assert [s][1..] == [];
    }
  }

  /**
   Every chunk is non-empty and holds at most `n` elements; all but the last hold
   exactly `n`; and there are `ceil(|s| / n)` of them, stated without division.
   */
  lemma {:induction false} ChunksShape<T>(s: seq<T>, n: nat)
    requires n > 0
    ensures forall k :: 0 <= k < |Chunks(s, n)| ==> 0 < |Chunks(s, n)[k]| <= n
    ensures forall k :: 0 <= k < |Chunks(s, n)| - 1 ==> |Chunks(s, n)[k]| == n
    ensures (|Chunks(s, n)| - 1) * n < |s| <= |Chunks(s, n)| * n
    decreases |s|
  {
    if |s| > n {
      var rest := Chunks(s[n..], n);
      ChunksShape(s[n..], n);
      var r := [s[..n]] + rest;
      assert Chunks(s, n) == r;
      forall k | 0 <= k < |r|
        ensures 0 < |r[k]| <= n
        ensures k < |r| - 1 ==> |r[k]| == n
      {
        if k > 0 { assert r[k] == rest[k - 1]; }
      }
      assert |r| * n == n + |rest| * n;
      assert (|r| - 1) * n == |rest| * n;
    }
  }

  /** Chunk `k` is the slice `s[k*n : k*n+n]` of the source, cut short at the end. */
  lemma {:induction false} ChunkAt<T>(s: seq<T>, n: nat, k: nat)
    requires n > 0
    requires k < |Chunks(s, n)|
    ensures k * n < |s|
    ensures Chunks(s, n)[k] == s[k * n .. Min(k * n + n, |s|)]
    decreases k
  {
    if k > 0 {
      assert |s| > n;
      var t := s[n..];
      ChunkAt(t, n, k - 1);
      var m := (k - 1) * n;
      assert k * n == m + n;
      assert Chunks(s, n) == [s[..n]] + Chunks(t, n);
      assert Chunks(s, n)[k] == Chunks(t, n)[k - 1];
      assert Chunks(t, n)[k - 1] == t[m .. Min(m + n, |t|)];
      var e := Min(m + n, |t|);
      assert |t| == |s| - n && k * n + n == n + (m + n);
      if m + n <= |t| {
        assert e == m + n && Min(k * n + n, |s|) == k * n + n;
      } else {
        assert e == |t| && Min(k * n + n, |s|) == |s|;
      }
      assert m <= e <= |t|;
      forall j | 0 <= j < e - m ensures t[m .. e][j] == s[n + m .. n + e][j] {
        assert t[m + j] == s[n + m + j];
      }
      assert t[m .. e] == s[n + m .. n + e];
    }
  }
}
