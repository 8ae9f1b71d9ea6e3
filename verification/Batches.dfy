/** Rust's `chunks`: consecutive pieces of at most `n` elements. */
module Batches {

  function Chunks<T>(s: seq<T>, n: nat): seq<seq<T>>
    requires n >= 1
    decreases |s|
  {
    if s == [] then []
    else if |s| <= n then [s]
    else [s[..n]] + Chunks(s[n..], n)
  }

  function Concat<T>(ss: seq<seq<T>>): seq<T> {
    if ss == [] then [] else ss[0] + Concat(ss[1..])
  }

  lemma {:induction false} ChunksConcat<T>(s: seq<T>, n: nat)
    requires n >= 1
    ensures Concat(Chunks(s, n)) == s
    decreases |s|
  {
    if s != [] && |s| <= n {
      assert Chunks(s, n)[1..] == [];
    } else if s != [] {
      ChunksConcat(s[n..], n);
      assert Chunks(s, n)[1..] == Chunks(s[n..], n);
      assert s == s[..n] + s[n..];
    }
  }

  lemma {:induction false} ChunkSizes<T>(s: seq<T>, n: nat)
    requires n >= 1
    ensures forall i :: 0 <= i < |Chunks(s, n)| ==> 1 <= |Chunks(s, n)[i]| <= n
    ensures forall i :: 0 <= i < |Chunks(s, n)| - 1 ==> |Chunks(s, n)[i]| == n
    decreases |s|
  {
    if |s| > n { ChunkSizes(s[n..], n); }
  }

  /** Chunking loses, repeats and reorders nothing; all chunks are full but the last, which is not empty. */
  lemma ChunksPartition<T>(s: seq<T>, n: nat)
    requires n >= 1
    ensures Concat(Chunks(s, n)) == s
    ensures forall i :: 0 <= i < |Chunks(s, n)| ==> 1 <= |Chunks(s, n)[i]| <= n
    ensures forall i :: 0 <= i < |Chunks(s, n)| - 1 ==> |Chunks(s, n)[i]| == n
  {
    ChunksConcat(s, n);
    ChunkSizes(s, n);
  }

  lemma {:induction false} InSomeChunk<T>(ss: seq<seq<T>>, x: T) returns (i: nat)
    requires x in Concat(ss)
    ensures i < |ss| && x in ss[i]
  {
    if x in ss[0] {
      i := 0;
    } else {
      var j := InSomeChunk(ss[1..], x);
      i := j + 1;
    }
  }

  lemma {:induction false} ChunkMembers<T>(ss: seq<seq<T>>, i: nat, x: T)
    requires i < |ss| && x in ss[i]
    ensures x in Concat(ss)
  {
    if i > 0 { ChunkMembers(ss[1..], i - 1, x); }
  }
}
