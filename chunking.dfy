/**
 * The split of the file list into chunks for the thread pool, shared by
 * `parse_command` and the older `main`:
 * `[files[i: i + threads] for i in range(0, len(files), threads)]`.
 */
module Chunking {
  import opened Common

  function Min(a: int, b: int): int {
    if a <= b then a else b
  }

  /** `range(start, stop, step)` for a positive step: `start`, `start + step`, ... while below `stop`. */
  function Range(start: int, stop: int, step: int): (r: seq<int>)
    requires step > 0
    ensures forall i | 0 <= i < |r| :: start <= r[i] < stop
    ensures r != [] ==> r[0] == start
    decreases stop - start
  {
    if start >= stop then [] else [start] + Range(start + step, stop, step)
  }

  /** `files[i:j]` for `0 <= i <= j`: both bounds are clamped to the length. */
  function Slice<T>(files: seq<T>, i: int, j: int): (r: seq<T>)
    requires 0 <= i <= j
    ensures |r| == Min(j, |files|) - Min(i, |files|)
  {
    files[Min(i, |files|)..Min(j, |files|)]
  }

  /** `[files[i: i + size] for i in starts]`. */
  function SlicesAt<T>(files: seq<T>, starts: seq<int>, size: nat): seq<seq<T>>
    requires forall i | 0 <= i < |starts| :: 0 <= starts[i]
  {
    if starts == [] then []
    else [Slice(files, starts[0], starts[0] + size)] + SlicesAt(files, starts[1..], size)
  }

  /** The comprehension for a positive chunk size. */
  function Chunks<T>(files: seq<T>, size: nat): seq<seq<T>>
    requires size > 0
  {
    SlicesAt(files, Range(0, |files|, size), size)
  }

  /**
   * The comprehension for any `threads`: `range` raises `ValueError` on a zero
   * step (`None` here), and a negative step counting from 0 up to a length
   * yields no index at all.
   */
  function Partition<T>(files: seq<T>, threads: int): Option<seq<seq<T>>> {
    if threads == 0 then None
    else if threads < 0 then Some([])
    else Some(Chunks(files, threads))
  }

  /** The chunks put back together, in order. */
  function Flatten<T>(chunks: seq<seq<T>>): seq<T> {
    if chunks == [] then [] else chunks[0] + Flatten(chunks[1..])
  }

  /** The chunks are non-empty, hold at most `size` files, all but the last exactly `size`. */
  ghost predicate WellSized<T>(chunks: seq<seq<T>>, size: nat) {
    && (forall k | 0 <= k < |chunks| :: 0 < |chunks[k]| <= size)
    && (forall k | 0 <= k < |chunks| - 1 :: |chunks[k]| == size)
  }

  lemma {:induction false} SlicesFromPartition<T>(files: seq<T>, start: nat, size: nat)
    requires 0 < size && start <= |files|
    ensures Flatten(SlicesAt(files, Range(start, |files|, size), size)) == files[start..]
    ensures WellSized(SlicesAt(files, Range(start, |files|, size), size), size)
    decreases |files| - start
  {
    if start < |files| {
      var next := Min(start + size, |files|);
      SlicesStep(files, start, size);
      SlicesFromPartition(files, next, size);
      var cs := SlicesAt(files, Range(start, |files|, size), size);
      var rest := SlicesAt(files, Range(next, |files|, size), size);
      assert cs[0] == files[start..next] && cs[1..] == rest;
      assert files[start..] == files[start..next] + files[next..];
      if rest != [] {
        assert next == start + size;
      }
    }
  }

  /** The chunk at `start`, then the chunks from where it ends. */
  lemma SlicesStep<T>(files: seq<T>, start: nat, size: nat)
    requires 0 < size && start < |files|
    ensures var next := Min(start + size, |files|);
      SlicesAt(files, Range(start, |files|, size), size)
        == [files[start..next]] + SlicesAt(files, Range(next, |files|, size), size)
  {
    var next := Min(start + size, |files|);
    assert Range(start, |files|, size) == [start] + Range(start + size, |files|, size);
    if start + size >= |files| {
      assert Range(start + size, |files|, size) == [] == Range(next, |files|, size);
    }
  }

  /**
   * The chunking is a partition of the file list: concatenated in order the
   * chunks give the list back, every chunk holds between 1 and `size` files,
   * and only the last one may hold fewer than `size`.
   */
  lemma ChunksPartition<T>(files: seq<T>, size: nat)
    requires size > 0
    ensures Flatten(Chunks(files, size)) == files
    ensures WellSized(Chunks(files, size), size)
    ensures files == [] <==> Chunks(files, size) == []
    ensures (|Chunks(files, size)| - 1) * size < |files| <= |Chunks(files, size)| * size || files == []
  {
    SlicesFromPartition(files, 0, size);
    RangeLength(0, |files|, size);
    SlicesAtLength(files, Range(0, |files|, size), size);
  }

  /**
   * `range(start, stop, step)` has ceil((stop - start) / step) elements: with
   * `c` of them, `(c - 1) * step < stop - start <= c * step`.
   */
  lemma {:induction false} RangeLength(start: int, stop: int, step: int)
    requires step > 0
    ensures var c := |Range(start, stop, step)|;
      if start >= stop then c == 0 else (c - 1) * step < stop - start <= c * step
    decreases stop - start
  {
    if start < stop {
      RangeLength(start + step, stop, step);
      var c := |Range(start + step, stop, step)|;
      assert |Range(start, stop, step)| == c + 1;
      assert (c + 1) * step == c * step + step;
    }
  }

  lemma {:induction false} SlicesAtLength<T>(files: seq<T>, starts: seq<int>, size: nat)
    requires forall i | 0 <= i < |starts| :: 0 <= starts[i]
    ensures |SlicesAt(files, starts, size)| == |starts|
    decreases |starts|
  {
    if starts != [] {
      SlicesAtLength(files, starts[1..], size);
    }
  }

  /** `Partition` raises exactly for a zero thread count and yields no chunk for a negative one. */
  lemma PartitionCases<T>(files: seq<T>, threads: int)
    ensures Partition(files, threads).None? <==> threads == 0
    ensures threads < 0 ==> Partition(files, threads) == Some([])
    ensures threads > 0 ==> Partition(files, threads).Some? && Flatten(Partition(files, threads).value) == files
  {
    if threads > 0 {
      ChunksPartition(files, threads);
    }
  }

  /** A file of one of the chunks is a file of the chunks put back together. */
  lemma {:induction false} InFlatten<T>(chunks: seq<seq<T>>, c: seq<T>, x: T)
    requires c in chunks && x in c
    ensures x in Flatten(chunks)
    decreases |chunks|
  {
    if chunks[0] != c {
      assert c in chunks[1..];
      InFlatten(chunks[1..], c, x);
    }
  }
}
