/**
 The size-bounded log of the process supervisor: a current file and numbered archives.
 `files[0]` is the current file and `files[g]` the archive with suffix `.g`, absent files
 being `None`; there is one slot for every generation the supervisor ever touches.
 */
module LogSupervisor {
  import opened Wrappers

  type Bytes = seq<bv8>
  type Files = seq<Option<Bytes>>

  const MAX_BYTES: nat := 5 * 1024 * 1024
  const GENERATIONS: nat := 5

  function Content(file: Option<Bytes>): Bytes {
    file.GetOr([])
  }

  /** Every generation moved up by one; the oldest is gone and there is no current file. */
  function Shifted(files: Files): (after: Files)
    requires |files| > 0
    ensures |after| == |files| && after[0] == None
    ensures forall g :: 1 <= g < |files| ==> after[g] == files[g - 1]
  {
    [None] + files[..|files| - 1]
  }

  /** The files once there is room in the current one. */
  function Ready(files: Files, maxBytes: nat): (ready: Files)
    requires maxBytes > 0 && |files| > 0
    ensures |ready| == |files| && |Content(ready[0])| < maxBytes
  {
    if |Content(files[0])| >= maxBytes then Shifted(files) else files
  }

  /** How much of the chunk fits into a current file of `used` bytes. */
  function Piece(used: nat, maxBytes: nat, chunk: Bytes): (size: nat)
    requires used < maxBytes && |chunk| > 0
    ensures 1 <= size <= |chunk| && used + size <= maxBytes
  {
    if maxBytes - used <= |chunk| then maxBytes - used else |chunk|
  }

  function Append(files: Files, x: Bytes): (after: Files)
    requires |files| > 0
    ensures |after| == |files|
  {
    files[0 := Some(Content(files[0]) + x)]
  }

  /** The files after a chunk has been written piece by piece, rotating whenever the current file is full. */
  function Written(files: Files, maxBytes: nat, chunk: Bytes): (after: Files)
    requires maxBytes > 0 && |files| > 0
    ensures |after| == |files|
    decreases |chunk|
  {
    if |chunk| == 0 then files
    else
      var ready := Ready(files, maxBytes);
      var size := Piece(|Content(ready[0])|, maxBytes, chunk);
      Written(Append(ready, chunk[..size]), maxBytes, chunk[size..])
  }

  class RotatingLog {
    const maxBytes: nat
    const generations: nat
    var files: Files
    /** Counts renames whose target was an existing file. */
    ghost var overwritten: nat

    ghost predicate Valid()
      reads this
    {
      maxBytes > 0 && generations > 0 && |files| == generations + 1
    }

    constructor (maxBytes: nat, generations: nat, files: Files)
      requires maxBytes > 0 && generations > 0 && |files| == generations + 1
      ensures Valid() && this.files == files && this.maxBytes == maxBytes && this.generations == generations
    {
      this.maxBytes := maxBytes;
      this.generations := generations;
      this.files := files;
      overwritten := 0;
    }

    method Replace(source: nat, target: nat)
      requires source < |files| && target < |files| && source != target && files[source].Some?
      modifies this
      ensures files == old(files)[target := old(files)[source]][source := None]
      ensures overwritten == old(overwritten) + (if old(files)[target].Some? then 1 else 0)
    {
      if files[target].Some? {
        overwritten := overwritten + 1;
      }
      files := files[target := files[source]][source := None];
    }

    /** A rotation is exactly the shift, whatever generations are missing, and overwrites no file. */
    method Rotate()
      requires Valid()
      modifies this
      ensures Valid()
      ensures files == Shifted(old(files))
      ensures overwritten == old(overwritten)
    {
      files := files[generations := None];
      for generation := generations downto 1
        invariant Valid() && overwritten == old(overwritten)
        invariant files[generation] == None
        invariant files[..generation] == old(files)[..generation]
        invariant forall g :: generation < g <= generations ==> files[g] == old(files)[g - 1]
      {
        assert files[..generation + 1][..generation] == old(files)[..generation + 1][..generation];
        if files[generation].Some? {
          Replace(generation, generation + 1);
        }
      }
      if files[0].Some? {
        Replace(0, 1);
      }
    }

    /** One write under the lock: the new state is a function of the old state and the chunk. */
    method Write(chunk: Bytes)
      requires Valid()
      modifies this
      ensures Valid()
      ensures files == Written(old(files), maxBytes, chunk)
      ensures overwritten == old(overwritten)
    {
      if |chunk| == 0 {
        return;
      }
      var rest := chunk;
      while |rest| > 0
        invariant Valid() && overwritten == old(overwritten)
        invariant Written(files, maxBytes, rest) == Written(old(files), maxBytes, chunk)
        decreases |rest|
      {
        var currentSize := if files[0].Some? then |files[0].value| else 0;
        ghost var ready := Ready(files, maxBytes);
        if currentSize >= maxBytes {
          Rotate();
          currentSize := 0;
        }
        assert files == ready && currentSize == |Content(ready[0])|;
        var size := if maxBytes - currentSize <= |rest| then maxBytes - currentSize else |rest|;
        assert size == Piece(currentSize, maxBytes, rest);
        files := files[0 := Some(files[0].GetOr([]) + rest[..size])];
        assert files == Append(ready, rest[..size]);
        rest := rest[size..];
      }
    }
  }

  // ---------- chunking does not matter ----------

  lemma {:induction false} AppendTwice(files: Files, x: Bytes, y: Bytes)
    requires |files| > 0
    ensures Append(Append(files, x), y) == Append(files, x + y)
  {
    assert Content(files[0]) + x + y == Content(files[0]) + (x + y);
  }

  /** From any state, writing two chunks is writing their concatenation. */
  lemma {:induction false} ChunkingIrrelevant(files: Files, maxBytes: nat, a: Bytes, b: Bytes)
    requires maxBytes > 0 && |files| > 0
    ensures Written(Written(files, maxBytes, a), maxBytes, b) == Written(files, maxBytes, a + b)
    decreases |a|
  {
    if |a| == 0 {
      assert a + b == b;
    } else if |b| == 0 {
      assert a + b == a;
    } else {
      var ready := Ready(files, maxBytes);
      var used := |Content(ready[0])|;
      var size := Piece(used, maxBytes, a);
      if used + size == maxBytes {
        assert (a + b)[..size] == a[..size] && (a + b)[size..] == a[size..] + b;
        ChunkingIrrelevant(Append(ready, a[..size]), maxBytes, a[size..], b);
      } else {
        FitsEntirely(files, maxBytes, a, b);
      }
    }
  }

  /** The first iteration of the write loop. */
  lemma {:induction false} FirstPiece(files: Files, maxBytes: nat, chunk: Bytes, x: Bytes, y: Bytes)
    requires maxBytes > 0 && |files| > 0 && |x| > 0 && chunk == x + y
    requires |x| == Piece(|Content(Ready(files, maxBytes)[0])|, maxBytes, chunk)
    ensures Written(files, maxBytes, chunk) == Written(Append(Ready(files, maxBytes), x), maxBytes, y)
  {
    assert chunk[..|x|] == x && chunk[|x|..] == y;
  }

  /** The first chunk fits with room to spare, so the first piece of `a + b` reaches into `b`. */
  lemma {:induction false} FitsEntirely(files: Files, maxBytes: nat, a: Bytes, b: Bytes)
    requires maxBytes > 0 && |files| > 0 && |a| > 0 && |b| > 0
    requires |Content(Ready(files, maxBytes)[0])| + |a| < maxBytes
    ensures Written(Written(files, maxBytes, a), maxBytes, b) == Written(files, maxBytes, a + b)
  {
    var ready := Ready(files, maxBytes);
    var used := |Content(ready[0])|;
    var partial := Append(ready, a);
    FirstPiece(files, maxBytes, a, a, []);
    var size := Piece(used + |a|, maxBytes, b);
    var x, y := b[..size], b[size..];
    assert b == x + y && a + b == (a + x) + y;
    FirstPiece(partial, maxBytes, b, x, y);
    FirstPiece(files, maxBytes, a + b, a + x, y);
    AppendTwice(ready, a, x);
  }

  // ---------- conservation ----------

  /** The files from generation `g` down to the current file, oldest first. */
  function Retained(files: Files, g: nat): Bytes
    requires g < |files|
  {
    if g == 0 then Content(files[0]) else Content(files[g]) + Retained(files, g - 1)
  }

  /** All files, oldest first. */
  function AllRetained(files: Files): Bytes
    requires |files| > 0
  {
    Retained(files, |files| - 1)
  }

  /** What rotations dropped while the chunk was written, oldest first. */
  function Dropped(files: Files, maxBytes: nat, chunk: Bytes): Bytes
    requires maxBytes > 0 && |files| > 0
    decreases |chunk|
  {
    if |chunk| == 0 then []
    else
      var ready := Ready(files, maxBytes);
      var size := Piece(|Content(ready[0])|, maxBytes, chunk);
      DroppedNow(files, maxBytes) + Dropped(Append(ready, chunk[..size]), maxBytes, chunk[size..])
  }

  /** What making room drops. */
  function DroppedNow(files: Files, maxBytes: nat): Bytes
    requires |files| > 0
  {
    if |Content(files[0])| >= maxBytes then Content(files[|files| - 1]) else []
  }

  lemma {:induction false} RetainedShifted(files: Files, g: nat)
    requires g < |files|
    ensures Retained(Shifted(files), g) == if g == 0 then [] else Retained(files, g - 1)
  {
    if g == 1 {
      assert Content(files[0]) + [] == Content(files[0]);
    } else if g > 1 {
      RetainedShifted(files, g - 1);
      assert Shifted(files)[g] == files[g - 1];
    }
  }

  lemma {:induction false} RetainedAppended(files: Files, g: nat, x: Bytes)
    requires g < |files|
    ensures Retained(Append(files, x), g) == Retained(files, g) + x
  {
    if g > 0 {
      RetainedAppended(files, g - 1, x);
      assert Content(files[g]) + (Retained(files, g - 1) + x) == Content(files[g]) + Retained(files, g - 1) + x;
    }
  }

  lemma {:induction false} MakingRoomConserves(files: Files, maxBytes: nat)
    requires maxBytes > 0 && |files| > 1
    ensures AllRetained(files) == DroppedNow(files, maxBytes) + AllRetained(Ready(files, maxBytes))
  {
    RetainedShifted(files, |files| - 1);
  }

  /**
   Nothing is lost but what rotation drops, and nothing is reordered: from any state, what
   was there followed by the chunk is what was dropped followed by what is there now.
   */
  lemma {:induction false} BytesConserved(files: Files, maxBytes: nat, chunk: Bytes)
    requires maxBytes > 0 && |files| > 1
    ensures AllRetained(files) + chunk
         == Dropped(files, maxBytes, chunk) + AllRetained(Written(files, maxBytes, chunk))
    decreases |chunk|
  {
    if |chunk| != 0 {
      var ready := Ready(files, maxBytes);
      var size := Piece(|Content(ready[0])|, maxBytes, chunk);
      var x, y := chunk[..size], chunk[size..];
      var next := Append(ready, x);
      MakingRoomConserves(files, maxBytes);
      RetainedAppended(ready, |files| - 1, x);
      BytesConserved(next, maxBytes, y);
      Regroup(DroppedNow(files, maxBytes), AllRetained(ready), x, y,
              Dropped(next, maxBytes, y), AllRetained(Written(next, maxBytes, y)));
      assert chunk == x + y;
    }
  }

  lemma {:induction false} Regroup(gone: Bytes, kept: Bytes, x: Bytes, y: Bytes, gone': Bytes, kept': Bytes)
    requires (kept + x) + y == gone' + kept'
    ensures (gone + kept) + (x + y) == (gone + gone') + kept'
  {
    assert (gone + kept) + (x + y) == gone + ((kept + x) + y);
    assert (gone + gone') + kept' == gone + (gone' + kept');
  }

  ghost predicate Bounded(files: Files, maxBytes: nat) {
    forall g :: 0 <= g < |files| ==> |Content(files[g])| <= maxBytes
  }

  /** Bounded files stay bounded. */
  lemma {:induction false} FilesStayBounded(files: Files, maxBytes: nat, chunk: Bytes)
    requires maxBytes > 0 && |files| > 0 && Bounded(files, maxBytes)
    ensures Bounded(Written(files, maxBytes, chunk), maxBytes)
    decreases |chunk|
  {
    if |chunk| != 0 {
      var ready := Ready(files, maxBytes);
      var size := Piece(|Content(ready[0])|, maxBytes, chunk);
      FilesStayBounded(Append(ready, chunk[..size]), maxBytes, chunk[size..]);
    }
  }

  // ---------- the closed form, starting from no files ----------

  /** Block number `k` of a stream cut into full files. */
  function Block(stream: Bytes, maxBytes: nat, k: int): Bytes {
    var from := k * maxBytes;
    if 0 <= from && from + maxBytes <= |stream| then stream[from..from + maxBytes] else []
  }

  /**
   After `stream` and with `q` full blocks behind it, the current file holds the rest of the
   stream and generation `g` the `g`-th block before it; nothing else exists.
   */
  ghost predicate Canonical(files: Files, maxBytes: nat, stream: Bytes, q: nat) {
    && |files| > 1
    && q * maxBytes < |stream| <= q * maxBytes + maxBytes
    && files[0] == Some(stream[q * maxBytes..])
    && forall g :: 1 <= g < |files| ==> Archive(files[g], maxBytes, stream, q - g)
  }

  ghost predicate Archive(file: Option<Bytes>, maxBytes: nat, stream: Bytes, k: int) {
    file == if 0 <= k then Some(Block(stream, maxBytes, k)) else None
  }

  lemma {:induction false} MulMonotone(a: int, b: int, m: nat)
    requires a <= b
    ensures a * m <= b * m
  {
  }

  /** Full blocks do not change as the stream grows. */
  lemma {:induction false} BlockStable(stream: Bytes, x: Bytes, maxBytes: nat, k: int, q: nat)
    requires 0 <= k < q && q * maxBytes <= |stream|
    ensures Block(stream + x, maxBytes, k) == Block(stream, maxBytes, k)
    ensures |Block(stream, maxBytes, k)| == maxBytes
  {
    MulMonotone(k + 1, q, maxBytes);
    assert (k + 1) * maxBytes == k * maxBytes + maxBytes;
  }

  lemma {:induction false} RotatedPiece(files: Files, maxBytes: nat, stream: Bytes, q: nat, x: Bytes)
    requires maxBytes > 0 && Canonical(files, maxBytes, stream, q)
    requires |stream| == q * maxBytes + maxBytes && 0 < |x| <= maxBytes
    ensures Canonical(Append(Shifted(files), x), maxBytes, stream + x, q + 1)
  {
    var next := Append(Shifted(files), x);
    assert (q + 1) * maxBytes == q * maxBytes + maxBytes;
    assert [] + x == x == (stream + x)[(q + 1) * maxBytes..];
    forall g | 1 <= g < |files| ensures Archive(next[g], maxBytes, stream + x, q + 1 - g) {
      assert next[g] == files[g - 1];
      if g <= q + 1 { BlockStable(stream, x, maxBytes, q + 1 - g, q + 1); }
      if g > 1 { assert Archive(files[g - 1], maxBytes, stream, q - (g - 1)); }
    }
  }

  lemma {:induction false} FittingPiece(files: Files, maxBytes: nat, stream: Bytes, q: nat, x: Bytes)
    requires maxBytes > 0 && Canonical(files, maxBytes, stream, q)
    requires |stream| + |x| <= q * maxBytes + maxBytes
    ensures Canonical(Append(files, x), maxBytes, stream + x, q)
  {
    var next := Append(files, x);
    assert stream[q * maxBytes..] + x == (stream + x)[q * maxBytes..];
    forall g | 1 <= g < |files| ensures Archive(next[g], maxBytes, stream + x, q - g) {
      assert Archive(files[g], maxBytes, stream, q - g);
      if g <= q { BlockStable(stream, x, maxBytes, q - g, q); }
    }
  }

  lemma {:induction false} WriteKeepsCanonical(files: Files, maxBytes: nat, stream: Bytes, q: nat, chunk: Bytes)
    returns (q': nat)
    requires maxBytes > 0 && Canonical(files, maxBytes, stream, q)
    ensures Canonical(Written(files, maxBytes, chunk), maxBytes, stream + chunk, q')
    decreases |chunk|
  {
    if |chunk| == 0 {
      assert stream + chunk == stream;
      q' := q;
    } else {
      var ready := Ready(files, maxBytes);
      var size := Piece(|Content(ready[0])|, maxBytes, chunk);
      var x, y := chunk[..size], chunk[size..];
      assert x + y == chunk && stream + x + y == stream + (x + y);
      var r := PieceKeepsCanonical(files, maxBytes, stream, q, x);
      q' := WriteKeepsCanonical(Append(ready, x), maxBytes, stream + x, r, y);
      FirstPiece(files, maxBytes, chunk, x, y);
    }
  }

  lemma {:induction false} PieceKeepsCanonical(files: Files, maxBytes: nat, stream: Bytes, q: nat, x: Bytes)
    returns (q': nat)
    requires maxBytes > 0 && Canonical(files, maxBytes, stream, q) && |x| > 0
    requires |Content(Ready(files, maxBytes)[0])| + |x| <= maxBytes
    ensures Canonical(Append(Ready(files, maxBytes), x), maxBytes, stream + x, q')
  {
    if |Content(files[0])| >= maxBytes {
      RotatedPiece(files, maxBytes, stream, q, x);
      q' := q + 1;
    } else {
      FittingPiece(files, maxBytes, stream, q, x);
      q' := q;
    }
  }

  /** All chunks of a run, one after the other. */
  function WrittenAll(files: Files, maxBytes: nat, chunks: seq<Bytes>): (after: Files)
    requires maxBytes > 0 && |files| > 0
    ensures |after| == |files|
  {
    if |chunks| == 0 then files
    else Written(WrittenAll(files, maxBytes, chunks[..|chunks| - 1]), maxBytes, chunks[|chunks| - 1])
  }

  function Joined(chunks: seq<Bytes>): Bytes {
    if |chunks| == 0 then [] else Joined(chunks[..|chunks| - 1]) + chunks[|chunks| - 1]
  }

  /** A run of writes depends on the concatenated stream alone. */
  lemma {:induction false} RunIsOneWrite(files: Files, maxBytes: nat, chunks: seq<Bytes>)
    requires maxBytes > 0 && |files| > 0
    ensures WrittenAll(files, maxBytes, chunks) == Written(files, maxBytes, Joined(chunks))
    decreases |chunks|
  {
    if |chunks| != 0 {
      var n := |chunks| - 1;
      RunIsOneWrite(files, maxBytes, chunks[..n]);
      ChunkingIrrelevant(files, maxBytes, Joined(chunks[..n]), chunks[n]);
    }
  }

  /** No file exists. */
  function NoFiles(generations: nat): (files: Files)
    ensures |files| == generations + 1 && forall g :: 0 <= g < |files| ==> files[g] == None
  {
    seq(generations + 1, _ => None)
  }

  lemma {:induction false} FirstWriteCanonical(maxBytes: nat, generations: nat, stream: Bytes) returns (q: nat)
    requires maxBytes > 0 && generations > 0 && |stream| > 0
    ensures Canonical(Written(NoFiles(generations), maxBytes, stream), maxBytes, stream, q)
  {
    var size := Piece(0, maxBytes, stream);
    var x, y := stream[..size], stream[size..];
    var first := Append(NoFiles(generations), x);
    assert [] + x == x == x[0 * maxBytes..];
    assert Canonical(first, maxBytes, x, 0);
    q := WriteKeepsCanonical(first, maxBytes, x, 0, y);
    assert x + y == stream;
  }

  /**
   Starting with no files, after any writes totalling T > 0 bytes: the current file holds
   ((T - 1) mod maxBytes) + 1 bytes, exactly the archives 1 to min(generations, (T - 1) div
   maxBytes) exist and are full, and the files read oldest to newest are a suffix of the stream.
   */
  lemma {:induction false} ClosedForm(maxBytes: nat, generations: nat, chunks: seq<Bytes>)
    requires maxBytes > 0 && generations > 0 && |Joined(chunks)| > 0
    ensures var files := WrittenAll(NoFiles(generations), maxBytes, chunks);
            var stream := Joined(chunks);
            var q := (|stream| - 1) / maxBytes;
            && files[0].Some? && |files[0].value| == (|stream| - 1) % maxBytes + 1
            && (forall g :: 1 <= g <= generations ==> (files[g].Some? <==> g <= q))
            && (forall g :: 1 <= g <= generations && files[g].Some? ==> |files[g].value| == maxBytes)
            && stream == Dropped(NoFiles(generations), maxBytes, stream) + AllRetained(files)
  {
    var stream := Joined(chunks);
    RunIsOneWrite(NoFiles(generations), maxBytes, chunks);
    var q := FirstWriteCanonical(maxBytes, generations, stream);
    var files := Written(NoFiles(generations), maxBytes, stream);
    QuotientIs(|stream| - 1, maxBytes, q);
    forall g | 1 <= g <= generations
      ensures files[g].Some? <==> g <= q
      ensures files[g].Some? ==> |files[g].value| == maxBytes
    {
      assert Archive(files[g], maxBytes, stream, q - g);
      if g <= q { BlockStable(stream, [], maxBytes, q - g, q); }
    }
    NothingRetained(generations, generations);
    BytesConserved(NoFiles(generations), maxBytes, stream);
  }

  /** What the first `g` archives and the current file hold when the archives up to `q` are full. */
  lemma {:induction false} RetainedSize(files: Files, maxBytes: nat, q: nat, g: nat)
    requires g < |files|
    requires forall h :: 1 <= h <= g ==> |Content(files[h])| == if h <= q then maxBytes else 0
    ensures |Retained(files, g)| == (if g <= q then g else q) * maxBytes + |Content(files[0])|
  {
    if g > 0 {
      RetainedSize(files, maxBytes, q, g - 1);
    }
  }

  /**
   With the limits the supervisor runs with: the last five full files and what has been written
   since, hence at least the last 25 MiB once that much has been written, and never over 30 MiB.
   */
  lemma {:induction false} RecentOutputIsKept(chunks: seq<Bytes>)
    requires |Joined(chunks)| > 0
    ensures var files := WrittenAll(NoFiles(GENERATIONS), MAX_BYTES, chunks);
            var kept, total := |AllRetained(files)|, |Joined(chunks)|;
            && kept <= total && Joined(chunks)[total - kept..] == AllRetained(files)
            && kept <= (GENERATIONS + 1) * MAX_BYTES
            && (kept == total || kept > GENERATIONS * MAX_BYTES)
  {
    var files, stream := WrittenAll(NoFiles(GENERATIONS), MAX_BYTES, chunks), Joined(chunks);
    ClosedForm(MAX_BYTES, GENERATIONS, chunks);
    RetainedSize(files, MAX_BYTES, (|stream| - 1) / MAX_BYTES, GENERATIONS);
  }

  lemma {:induction false} QuotientIs(n: nat, m: nat, q: nat)
    requires m > 0 && q * m <= n < q * m + m
    ensures n / m == q && n % m == n - q * m
  {
    var d := n / m;
    assert n == d * m + n % m;
    if d < q {
      MulMonotone(d + 1, q, m);
    } else if d > q {
      MulMonotone(q + 1, d, m);
    }
  }

  lemma {:induction false} NothingRetained(generations: nat, g: nat)
    requires g <= generations
    ensures Retained(NoFiles(generations), g) == []
  {
    if g > 0 {
      NothingRetained(generations, g - 1);
    }
  }
}
