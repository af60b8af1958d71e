/** The helpers of src/utilities.py that the fetchers share: chunking a sequence, defaulting
    a path argument, and the interruptible wait between requests. */
module Utilities {
  import opened Wrappers

  function Min(a: int, b: int): int { if a <= b then a else b }

  // ---------------------------------------------------------------------------
  // as_chunks
  // ---------------------------------------------------------------------------

  /** The error `range(0, n, 0)` raises: a step of zero. */
  datatype ChunkError = ZeroStep

  /** The slices `s[pos : pos + size]` for `pos` in `range(from, |s|, size)`, in order. */
  function ChunksFrom<T>(s: seq<T>, size: nat, from: nat): seq<seq<T>>
    requires size > 0
    decreases |s| - from
  {
    if from >= |s| then [] else [s[from..Min(from + size, |s|)]] + ChunksFrom(s, size, from + size)
  }

  /** `as_chunks(s, size)`. A step of zero makes `range` raise; a negative step makes the
      range empty, so no chunk at all is produced. */
  function AsChunks<T>(s: seq<T>, size: int): (r: Result<seq<seq<T>>, ChunkError>)
    ensures r.Failure? <==> size == 0
    ensures size < 0 ==> r == Success([])
  {
    if size == 0 then Failure(ZeroStep)
    else if size < 0 then Success([])
    else Success(ChunksFrom(s, size, 0))
  }

  /** The concatenation of a sequence of chunks. */
  function Flatten<T>(cs: seq<seq<T>>): seq<T>
  {
    if |cs| == 0 then [] else cs[0] + Flatten(cs[1..])
  }

  lemma {:induction false} FlattenAppend<T>(cs: seq<seq<T>>, c: seq<T>)
    ensures Flatten(cs + [c]) == Flatten(cs) + c
  {
    if |cs| > 0 {
      assert (cs + [c])[1..] == cs[1..] + [c];
      FlattenAppend(cs[1..], c);
    }
  }

  lemma {:induction false} FlattenChunksFrom<T>(s: seq<T>, size: nat, from: nat)
    requires size > 0 && from <= |s|
    ensures Flatten(ChunksFrom(s, size, from)) == s[from..]
    decreases |s| - from
  {
    if from < |s| {
      var cs := ChunksFrom(s, size, from);
      assert cs[1..] == ChunksFrom(s, size, from + size);
      if from + size <= |s| {
        FlattenChunksFrom(s, size, from + size);
        assert s[from..] == s[from..from + size] + s[from + size..];
      } else {
        assert ChunksFrom(s, size, from + size) == [];
      }
    }
  }

  /** Concatenating the chunks gives back the original sequence. */
  lemma ChunksRoundTrip<T>(s: seq<T>, size: int)
    requires size > 0
    ensures AsChunks(s, size).Success? && Flatten(AsChunks(s, size).value) == s
  {
    FlattenChunksFrom(s, size, 0);
  }

  lemma {:induction false} ChunksFromCount<T>(s: seq<T>, size: nat, from: nat)
    requires size > 0 && from <= |s|
    ensures |ChunksFrom(s, size, from)| == (|s| - from + size - 1) / size
    decreases |s| - from
  {
    if from < |s| {
      var rest := ChunksFrom(s, size, from + size);
      var x := |s| - from - 1;
      assert |ChunksFrom(s, size, from)| == 1 + |rest|;
      assert |s| - from + size - 1 == x + size;
      DivStep(x, size);
      if from + size <= |s| {
        ChunksFromCount(s, size, from + size);
        assert |s| - (from + size) + size - 1 == x;
      } else {
        assert rest == [];
      }
    }
  }

  lemma {:induction false} ChunksFromSizes<T>(s: seq<T>, size: nat, from: nat)
    requires size > 0 && from <= |s|
    ensures forall k :: 0 <= k < |ChunksFrom(s, size, from)| ==> 0 < |ChunksFrom(s, size, from)[k]| <= size
    ensures forall k :: 0 <= k < |ChunksFrom(s, size, from)| - 1 ==> |ChunksFrom(s, size, from)[k]| == size
    decreases |s| - from
  {
    if from < |s| {
      var cs := ChunksFrom(s, size, from);
      var rest := ChunksFrom(s, size, from + size);
      assert cs == [s[from..Min(from + size, |s|)]] + rest;
      if from + size <= |s| {
        ChunksFromSizes(s, size, from + size);
        assert |rest| > 0 ==> from + size < |s|;
      } else {
        assert rest == [];
      }
    }
  }

  lemma MulAtLeast(a: int, d: int)
    requires a >= 1 && d > 0
    ensures a * d >= d
  {
    var i := 1;
    while i < a
      invariant 1 <= i <= a
      invariant i * d >= d
    {
      i := i + 1;
    }
  }

  lemma DivUnique(a: int, d: int, q: int, r: int)
    requires d > 0 && 0 <= r < d && a == q * d + r
    ensures a / d == q
  {
    var q', r' := a / d, a % d;
    assert a == q' * d + r';
    assert (q - q') * d == r' - r;
    if q - q' >= 1 {
      MulAtLeast(q - q', d);
    } else if q' - q >= 1 {
      MulAtLeast(q' - q, d);
    }
  }

  lemma DivStep(x: int, d: int)
    requires d > 0 && x >= 0
    ensures (x + d) / d == x / d + 1
    ensures x < d ==> x / d == 0
  {
    DivUnique(x + d, d, x / d + 1, x % d);
    if x < d {
      DivUnique(x, d, 0, x);
    }
  }

  /** Every chunk is non-empty and at most `size` long, all but the last are exactly `size`
      long, and there are ceil(|s| / size) of them: none for an empty sequence. */
  lemma ChunksShape<T>(s: seq<T>, size: int)
    requires size > 0
    ensures AsChunks(s, size).Success?
    ensures var cs := AsChunks(s, size).value;
      && |cs| == (|s| + size - 1) / size
      && (forall k :: 0 <= k < |cs| ==> 0 < |cs[k]| <= size)
      && (forall k :: 0 <= k < |cs| - 1 ==> |cs[k]| == size)
  {
    ChunksFromCount(s, size, 0);
    ChunksFromSizes(s, size, 0);
  }

  /** Chunk `k` is the slice of `s` that starts at `k * size`. */
  lemma {:induction false} ChunkAt<T>(s: seq<T>, size: nat, from: nat, k: nat)
    requires size > 0 && from <= |s|
    requires k < |ChunksFrom(s, size, from)|
    ensures from + k * size < |s|
    ensures ChunksFrom(s, size, from)[k] == s[from + k * size..Min(from + k * size + size, |s|)]
    decreases k
  {
    if k > 0 {
      var cs := ChunksFrom(s, size, from);
      assert cs[1..] == ChunksFrom(s, size, from + size);
      assert cs[k] == cs[1..][k - 1];
      assert from + size <= |s|;
      ChunkAt(s, size, from + size, k - 1);
      assert from + size + (k - 1) * size == from + k * size;
    }
  }

  // ---------------------------------------------------------------------------
  // to_path
  // ---------------------------------------------------------------------------

  /** A filesystem path (`pathlib.Path`), kept as the text it was built from. */
  datatype Path = Path(text: string)

  /** The argument `to_path` accepts: `None`, a string, or a path. */
  datatype PathArg = NoPath | PathText(s: string) | PathValue(p: Path)

  /** `to_path(path, default)`: the default when no path is given, the given text made a path,
      and a path unchanged. */
  function ToPath(path: PathArg, default: string): (r: Path)
    ensures path.NoPath? ==> r.text == default
    ensures path.PathText? ==> r.text == path.s
    ensures path.PathValue? ==> r == path.p
  {
    match path
    case NoPath => Path(default)
    case PathText(s) => Path(s)
    case PathValue(p) => p
  }

  // ---------------------------------------------------------------------------
  // wait_for_okay
  // ---------------------------------------------------------------------------

  /** What happened while `time.sleep(wait)` ran: it finished, or a KeyboardInterrupt arrived. */
  datatype Sleep = Slept | SleepInterrupted

  /** `wait_for_okay(wait)`: True unless the sleep was interrupted. */
  function WaitForOkay(sleep: Sleep): (okay: bool)
    ensures okay <==> sleep == Slept
  {
    match sleep
    case Slept => true
    case SleepInterrupted => false
  }
}
