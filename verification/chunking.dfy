/**
 * The chunked uploads of the project and model classes: a list of rows is
 * sent in consecutive slices of at most 5000 rows, and a progress counter is
 * advanced after each slice.
 */
module Chunking {

  /** SAMPLE_CHUNK_SIZE of add_samples / add_samples_pd and chunk_size of add_results_df. */
  const CHUNK_SIZE: nat := 5000

  /** The consecutive slices of at most `size` elements, in order. */
  function Chunks<T>(xs: seq<T>, size: nat): seq<seq<T>>
    requires size > 0
    decreases |xs|
  {
    if |xs| == 0 then []
    else if |xs| <= size then [xs]
    else [xs[..size]] + Chunks(xs[size..], size)
  }

  function Concat<T>(ss: seq<seq<T>>): seq<T>
  {
    if ss == [] then [] else ss[0] + Concat(ss[1..])
  }

  function Min(a: nat, b: nat): nat
  {
    if a < b then a else b
  }

  /** The number of elements covered after each chunk: the values a progress bar is set to. */
  function Progress<T>(chunks: seq<seq<T>>): (p: seq<nat>)
    ensures |p| == |chunks|
  {
    seq(|chunks|, k requires 0 <= k < |chunks| => |Concat(chunks[..k + 1])|)
  }

  lemma {:induction false} ConcatSnoc<T>(ss: seq<seq<T>>, s: seq<T>)
    ensures Concat(ss + [s]) == Concat(ss) + s
  {
    if ss == [] {
      assert [s][1..] == [];
    } else {
      assert (ss + [s])[1..] == ss[1..] + [s];
      ConcatSnoc(ss[1..], s);
    }
  }

  /** The first chunk is the first `size` elements (or all of them); the others chunk the rest. */
  lemma {:induction false} ChunksUnfold<T>(xs: seq<T>, size: nat)
    requires size > 0 && |xs| > 0
    ensures Chunks(xs, size) == [xs[..Min(size, |xs|)]] + Chunks(xs[Min(size, |xs|)..], size)
  {
    if |xs| <= size {
      assert xs[..|xs|] == xs;
      assert xs[|xs|..] == [];
    }
  }

  /**
   * The chunks cover the input exactly once and in order; there are
   * ceil(n / size) of them (c chunks with (c - 1) * size < n <= c * size),
   * none empty, all of `size` elements but the last.
   */
  lemma {:induction false} ChunksCover<T>(xs: seq<T>, size: nat)
    requires size > 0
    ensures Concat(Chunks(xs, size)) == xs
    ensures |xs| == 0 <==> |Chunks(xs, size)| == 0
    ensures |xs| > 0 ==> (|Chunks(xs, size)| - 1) * size < |xs| <= |Chunks(xs, size)| * size
    ensures forall k | 0 <= k < |Chunks(xs, size)| :: 0 < |Chunks(xs, size)[k]| <= size
    ensures forall k | 0 <= k < |Chunks(xs, size)| - 1 :: |Chunks(xs, size)[k]| == size
    decreases |xs|
  {
    if |xs| == 0 {
    } else if |xs| <= size {
      assert Concat([xs]) == xs + Concat([xs][1..]);
    } else {
      var rest := xs[size..];
      var cs := Chunks(rest, size);
      ChunksCover(rest, size);
      assert Chunks(xs, size) == [xs[..size]] + cs;
      assert ([xs[..size]] + cs)[1..] == cs;
      assert xs == xs[..size] + rest;
      var c := |cs|;
      assert (c - 1) * size < |rest| <= c * size;
      assert (c + 1) * size == c * size + size;
      assert c * size == (c - 1) * size + size;
    }
  }

  /** The k-th progress value is min((k + 1) * size, n): it never decreases and ends at n. */
  lemma {:induction false} ProgressValues<T>(xs: seq<T>, size: nat)
    requires size > 0
    ensures forall k | 0 <= k < |Chunks(xs, size)| :: Progress(Chunks(xs, size))[k] == Min((k + 1) * size, |xs|)
    ensures forall j, k | 0 <= j <= k < |Chunks(xs, size)| :: Progress(Chunks(xs, size))[j] <= Progress(Chunks(xs, size))[k]
    ensures |xs| > 0 ==> Progress(Chunks(xs, size))[|Chunks(xs, size)| - 1] == |xs|
  {
    var cs := Chunks(xs, size);
    forall k | 0 <= k < |cs| ensures Progress(cs)[k] == Min((k + 1) * size, |xs|) {
      CoveredAfter(xs, size, k + 1);
    }
    forall j, k | 0 <= j <= k < |cs| ensures Progress(cs)[j] <= Progress(cs)[k] {
      MulMono(j + 1, k + 1, size);
    }
    if |xs| > 0 {
      ChunksCover(xs, size);
      assert cs[..|cs|] == cs;
    }
  }

  /**
   * The slices a loop cuts when it starts at `from` and steps by `size`:
   * from..from + size, from + size..from + 2 * size, ..., each cut at n.
   */
  function Slices<T>(xs: seq<T>, size: nat, from: nat): seq<seq<T>>
    requires size > 0
    decreases |xs| - from
  {
    if from >= |xs| then []
    else [xs[from..Min(from + size, |xs|)]] + Slices(xs, size, from + size)
  }

  /** The ends of those slices: the values a progress counter takes. */
  function Ends(n: nat, size: nat, from: nat): seq<nat>
    requires size > 0
    decreases n - from
  {
    if from >= n then []
    else [Min(from + size, n)] + Ends(n, size, from + size)
  }

  /** Stepping through xs from `from` cuts the chunks of the rest of xs. */
  lemma {:induction false} SlicesChunks<T>(xs: seq<T>, size: nat, from: nat)
    requires size > 0 && from <= |xs|
    ensures Slices(xs, size, from) == Chunks(xs[from..], size)
    ensures |Ends(|xs|, size, from)| == |Slices(xs, size, from)|
    decreases |xs| - from
  {
    if from < |xs| {
      var end := Min(from + size, |xs|);
      ChunksUnfold(xs[from..], size);
      assert xs[from..][..Min(size, |xs| - from)] == xs[from..end];
      assert xs[from..][Min(size, |xs| - from)..] == xs[end..];
      if from + size < |xs| {
        SlicesChunks(xs, size, from + size);
      } else {
        assert xs[end..] == [];
      }
    } else {
      assert xs[from..] == [];
    }
  }

  /** The j-th end from `from` is min(from + (j + 1) * size, n). */
  lemma {:induction false} EndsValues(n: nat, size: nat, from: nat)
    requires size > 0
    ensures forall j | 0 <= j < |Ends(n, size, from)| :: Ends(n, size, from)[j] == Min(from + (j + 1) * size, n)
    decreases n - from
  {
    if from < n {
      var rest := Ends(n, size, from + size);
      EndsValues(n, size, from + size);
      forall j | 1 <= j < |Ends(n, size, from)| ensures Ends(n, size, from)[j] == Min(from + (j + 1) * size, n) {
        assert Ends(n, size, from)[j] == rest[j - 1];
        assert from + size + j * size == from + (j + 1) * size;
      }
    }
  }

  /** A counter stepping by `size` from 0 takes exactly the progress values of the chunks. */
  lemma {:induction false} EndsProgress<T>(xs: seq<T>, size: nat)
    requires size > 0
    ensures Ends(|xs|, size, 0) == Progress(Chunks(xs, size))
  {
    SlicesChunks(xs, size, 0);
    assert xs[0..] == xs;
    EndsValues(|xs|, size, 0);
    ProgressValues(xs, size);
  }

  /**
   * One step of a loop that walks `chunks` with index k while cutting slices
   * at `from`: the current chunk is the slice at `from`, and the remaining
   * chunks are the slices after it.
   */
  lemma {:induction false} SlicesStep<T>(xs: seq<T>, size: nat, from: nat, chunks: seq<seq<T>>, k: nat)
    requires size > 0 && from < |xs| && k <= |chunks|
    requires chunks[k..] == Slices(xs, size, from)
    ensures k < |chunks| && chunks[k] == xs[from..Min(from + size, |xs|)]
    ensures chunks[k + 1..] == Slices(xs, size, from + size)
  {
    assert chunks[k..][0] == chunks[k];
    assert chunks[k + 1..] == chunks[k..][1..];
  }

  /** Recording the end of the current slice moves one value from the ends still due to the ends recorded. */
  lemma {:induction false} EndsStep(n: nat, size: nat, from: nat, recorded: seq<nat>)
    requires size > 0 && from < n
    ensures (recorded + [Min(from + size, n)]) + Ends(n, size, from + size) == recorded + Ends(n, size, from)
  {
  }

  /**
   * One step of a chunked upload loop: the chunk it cuts at `from` is chunk
   * k; afterwards the chunks handed over and the progress values recorded
   * are one longer, and the rest is still due.
   */
  lemma {:induction false} ChunkStep<T>(xs: seq<T>, size: nat, from: nat, chunks: seq<seq<T>>, k: nat, handed: seq<seq<T>>, progress: seq<nat>)
    requires size > 0 && from < |xs| && k <= |chunks|
    requires chunks[k..] == Slices(xs, size, from) && handed == chunks[..k]
    requires progress + Ends(|xs|, size, from) == Ends(|xs|, size, 0)
    ensures k < |chunks| && chunks[k] == xs[from..Min(from + size, |xs|)]
    ensures chunks[k + 1..] == Slices(xs, size, from + size)
    ensures handed + [chunks[k]] == chunks[..k + 1] && chunks[..k + 1] <= chunks
    ensures (progress + [Min(from + size, |xs|)]) + Ends(|xs|, size, from + size) == Ends(|xs|, size, 0)
  {
    SlicesStep(xs, size, from, chunks, k);
    LogStep(handed, [], chunks, k);
    EndsStep(|xs|, size, from, progress);
  }

  /**
   * Where a chunked upload loop stops, after k chunks or at the end: the
   * chunks handed over are the first k and the progress values recorded
   * are theirs; at the end, all of them.
   */
  lemma {:induction false} ChunkExit<T>(xs: seq<T>, size: nat, from: nat, k: nat, handed: seq<seq<T>>, progress: seq<nat>)
    requires size > 0 && k <= |Chunks(xs, size)|
    requires Chunks(xs, size)[k..] == Slices(xs, size, from) && handed == Chunks(xs, size)[..k]
    requires |progress| == k && progress + Ends(|xs|, size, from) == Ends(|xs|, size, 0)
    ensures handed <= Chunks(xs, size)
    ensures progress == Progress(Chunks(xs, size))[..k]
    ensures from >= |xs| ==> handed == Chunks(xs, size) && progress == Progress(Chunks(xs, size))
  {
    EndsProgress(xs, size);
    assert (progress + Ends(|xs|, size, from))[..k] == progress;
    if from >= |xs| {
      assert Chunks(xs, size)[..k] == Chunks(xs, size);
    }
  }

  /** A log holding base and the first k items, extended by item k, holds base and the first k + 1 items. */
  lemma {:induction false} LogStep<T>(log: seq<T>, base: seq<T>, items: seq<T>, k: nat)
    requires k < |items| && log == base + items[..k]
    ensures log + [items[k]] == base + items[..k + 1]
  {
    assert items[..k + 1] == items[..k] + [items[k]];
  }

  /** A log that holds base and all the items. */
  lemma {:induction false} LogDone<T>(log: seq<T>, base: seq<T>, items: seq<T>, k: nat)
    requires k == |items| && log == base + items[..k]
    ensures log == base + items
  {
    assert items[..k] == items;
  }

  lemma {:induction false} SliceSnoc<T>(s: seq<T>, k: nat)
    requires k < |s|
    ensures s[..k + 1] == s[..k] + [s[k]]
  {
  }

  lemma {:induction false} MulMono(a: nat, b: nat, size: nat)
    requires a <= b
    ensures a * size <= b * size
  {
  }

  lemma {:induction false} MulSucc(k: nat, size: nat)
    requires k > 0
    ensures k * size == (k - 1) * size + size
  {
  }

  /** After k chunks, exactly the first min(k * size, n) elements have been covered. */
  lemma {:induction false} CoveredAfter<T>(xs: seq<T>, size: nat, k: nat)
    requires size > 0 && k <= |Chunks(xs, size)|
    ensures Concat(Chunks(xs, size)[..k]) == xs[..Min(k * size, |xs|)]
    decreases k
  {
    var cs := Chunks(xs, size);
    if k == 0 {
      assert cs[..0] == [];
    } else {
      ChunksUnfold(xs, size);
      var m := Min(size, |xs|);
      var rest := xs[m..];
      var rs := Chunks(rest, size);
      assert cs == [xs[..m]] + rs;
      assert cs[..k] == [xs[..m]] + rs[..k - 1];
      assert Concat(cs[..k]) == xs[..m] + Concat(rs[..k - 1]);
      CoveredAfter(rest, size, k - 1);
      var p := (k - 1) * size;
      MulSucc(k, size);
      if |xs| <= size {
        assert |rest| == 0;
        assert Min(p, |rest|) == 0;
        assert rest[..0] == [];
        assert xs[..m] == xs[..Min(k * size, |xs|)];
      } else {
        var t := Min(p, |rest|);
        assert Min(k * size, |xs|) == size + t;
        assert xs[..size] + rest[..t] == xs[..size + t];
      }
    }
  }

  /**
   * Chunk k is the slice from k * size to min((k + 1) * size, n); a
   * further chunk exists exactly when that end is short of n.
   */
  lemma {:induction false} ChunkAt<T>(xs: seq<T>, size: nat, k: nat, from: nat)
    requires size > 0 && k < |Chunks(xs, size)| && from == k * size
    ensures from < |xs| && from + size == (k + 1) * size
    ensures Chunks(xs, size)[k] == xs[from..Min(from + size, |xs|)]
    ensures k + 1 < |Chunks(xs, size)| <==> from + size < |xs|
  {
    var cs := Chunks(xs, size);
    assert (k + 1) * size == k * size + size;
    var a := Min(k * size, |xs|);
    var b := Min((k + 1) * size, |xs|);
    CoveredAfter(xs, size, k);
    CoveredAfter(xs, size, k + 1);
    assert cs[..k + 1] == cs[..k] + [cs[k]];
    ConcatSnoc(cs[..k], cs[k]);
    ChunksCover(xs, size);
    assert xs[..b] == xs[..a] + cs[k];
    assert |cs[k]| > 0;
    assert cs[k] == xs[a..b];
    var c := |cs|;
    if k + 1 < c {
      MulMono(k + 1, c - 1, size);
    }
  }
}
