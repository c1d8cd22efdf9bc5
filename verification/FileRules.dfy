/** Chunk arithmetic of a file transfer: how a file is cut, and which chunks fit a header. */
module FileRules {
  import opened Basics

  const MIN_CHUNK_SIZE: nat := 512
  const MAX_CHUNK_SIZE: nat := 4096 - 4 - 16
  const MAX_FILE_SIZE: nat := 1024 * 1024 * 1024
  const MAX_CHUNKS: nat := (MAX_FILE_SIZE + MIN_CHUNK_SIZE - 1) / MIN_CHUNK_SIZE

  /** A collision-free digest. */
  datatype Hash = Sha256(content: seq<byte>)

  datatype Header = Header(id: nat, fileSize: nat, chunkSize: nat, totalChunks: nat, contentHash: Hash, name: string)

  datatype Chunk = Chunk(id: nat, index: nat, data: seq<byte>)

  /** Zero when the sizes are out of range. */
  function ChunkCount(fileSize: nat, chunkSize: nat): nat {
    if fileSize > MAX_FILE_SIZE || chunkSize < MIN_CHUNK_SIZE || chunkSize > MAX_CHUNK_SIZE then 0
    else if fileSize == 0 then 1
    else
      DivisionBounds(fileSize - 1, chunkSize);
      1 + (fileSize - 1) / chunkSize
  }

  predicate ValidHeader(h: Header, safeName: bool) {
    var expected := ChunkCount(h.fileSize, h.chunkSize);
    h.id != 0 && expected != 0 && h.totalChunks == expected && safeName
  }

  predicate ValidChunk(c: Chunk) {
    c.id != 0 && c.index < MAX_CHUNKS && |c.data| <= MAX_CHUNK_SIZE
  }

  /** What the receiver demands of a chunk for this header. */
  predicate FitsHeader(h: Header, c: Chunk) {
    if !ValidHeader(h, true) || !ValidChunk(c) || c.id != h.id || c.index >= h.totalChunks then false
    else
      var expected := if c.index + 1 == h.totalChunks then h.fileSize - c.index * h.chunkSize else h.chunkSize;
      |c.data| == expected
  }

  /** Where the sender starts and how much it takes. */
  function Offset(chunkSize: nat, index: nat): nat {
    index * chunkSize
  }

  function CutLength(fileSize: nat, chunkSize: nat, index: nat): int {
    Min(chunkSize, fileSize - Offset(chunkSize, index))
  }

  function Cut(file: seq<byte>, chunkSize: nat, index: nat): seq<byte>
    requires Offset(chunkSize, index) <= |file|
  {
    var from := Offset(chunkSize, index);
    file[from..from + CutLength(|file|, chunkSize, index)]
  }

  lemma MulMonotone(i: nat, j: nat, k: nat)
    requires i <= j
    ensures i * k <= j * k
  {
  }

  /** Every index below the count starts inside the file; full chunks before the last, the rest in the last. */
  lemma CutsFitHeader(fileSize: nat, chunkSize: nat, index: nat)
    requires index < ChunkCount(fileSize, chunkSize)
    ensures Offset(chunkSize, index) <= fileSize
    ensures CutLength(fileSize, chunkSize, index)
            == if index + 1 == ChunkCount(fileSize, chunkSize) then fileSize - index * chunkSize else chunkSize
    ensures index + 1 < ChunkCount(fileSize, chunkSize) ==> Offset(chunkSize, index + 1) <= fileSize
  {
    if fileSize > 0 {
      var q := (fileSize - 1) / chunkSize;
      DivisionBounds(fileSize - 1, chunkSize);
      MulMonotone(index, q, chunkSize);
      if index < q {
        MulMonotone(index + 1, q, chunkSize);
        assert (index + 1) * chunkSize == index * chunkSize + chunkSize;
      }
    }
  }

  lemma QuotientBounded(q: nat, chunkSize: nat)
    requires chunkSize >= MIN_CHUNK_SIZE && q * chunkSize < MAX_FILE_SIZE
    ensures q + 1 <= MAX_CHUNKS
  {
    MulMonotone(MIN_CHUNK_SIZE, chunkSize, q);
    assert q * MIN_CHUNK_SIZE < MAX_FILE_SIZE;
  }

  /** Never more chunks than the window and the tracker can hold. */
  lemma ChunkCountBounded(fileSize: nat, chunkSize: nat)
    ensures ChunkCount(fileSize, chunkSize) <= MAX_CHUNKS
  {
    if ChunkCount(fileSize, chunkSize) > 1 {
      var q := (fileSize - 1) / chunkSize;
      DivisionBounds(fileSize - 1, chunkSize);
      QuotientBounded(q, chunkSize);
    }
  }

  /** The end of the last chunk is the end of the file. */
  lemma LastCutEndsFile(fileSize: nat, chunkSize: nat)
    requires ChunkCount(fileSize, chunkSize) > 0
    ensures var last := ChunkCount(fileSize, chunkSize) - 1;
      Offset(chunkSize, last) + CutLength(fileSize, chunkSize, last) == fileSize
  {
    CutsFitHeader(fileSize, chunkSize, ChunkCount(fileSize, chunkSize) - 1);
  }

  /** Regions of different chunks do not overlap. */
  lemma RegionsApart(fileSize: nat, chunkSize: nat, i: nat, j: nat)
    requires i < j < ChunkCount(fileSize, chunkSize)
    ensures Offset(chunkSize, i) + CutLength(fileSize, chunkSize, i) <= Offset(chunkSize, j)
  {
    CutsFitHeader(fileSize, chunkSize, i);
    MulMonotone(i + 1, j, chunkSize);
    assert (i + 1) * chunkSize == i * chunkSize + chunkSize;
  }

  /** The chunk, at or after `from`, holding a byte position. */
  lemma PositionHasChunk(fileSize: nat, chunkSize: nat, at: nat, from: nat) returns (index: nat)
    requires at < fileSize && from < ChunkCount(fileSize, chunkSize) && Offset(chunkSize, from) <= at
    ensures from <= index < ChunkCount(fileSize, chunkSize)
    ensures Offset(chunkSize, index) <= at < Offset(chunkSize, index) + CutLength(fileSize, chunkSize, index)
    decreases ChunkCount(fileSize, chunkSize) - from
  {
    CutsFitHeader(fileSize, chunkSize, from);
    if at < Offset(chunkSize, from) + CutLength(fileSize, chunkSize, from) {
      index := from;
    } else {
      assert Offset(chunkSize, from + 1) == Offset(chunkSize, from) + chunkSize;
      index := PositionHasChunk(fileSize, chunkSize, at, from + 1);
    }
  }

  /** What the sender cuts is what the receiver expects. */
  lemma SenderCutsFit(h: Header, file: seq<byte>, index: nat)
    requires ValidHeader(h, true) && |file| == h.fileSize && index < h.totalChunks
    ensures Offset(h.chunkSize, index) <= |file|
    ensures FitsHeader(h, Chunk(h.id, index, Cut(file, h.chunkSize, index)))
  {
    CutsFitHeader(h.fileSize, h.chunkSize, index);
    ChunkCountBounded(h.fileSize, h.chunkSize);
  }

  /** A header is valid exactly when its sizes are within the limits, its chunks just cover the file and its name is safe. */
  lemma HeaderExactly(h: Header, safeName: bool)
    ensures ValidHeader(h, safeName) <==>
      && h.id != 0 && safeName && h.fileSize <= 1_073_741_824 && 512 <= h.chunkSize <= 4076
      && h.totalChunks >= 1 && (h.totalChunks - 1) * h.chunkSize <= h.fileSize <= h.totalChunks * h.chunkSize
      && (h.totalChunks > 1 ==> (h.totalChunks - 1) * h.chunkSize < h.fileSize)
  {
    if h.fileSize <= 1_073_741_824 && 512 <= h.chunkSize <= 4076 && h.totalChunks >= 1 {
      CountExactly(h.fileSize, h.chunkSize, h.totalChunks - 1);
    }
  }

  /** One chunk less than the count does not cover the file, unless there is only one. */
  lemma CountExactly(fileSize: nat, chunkSize: nat, full: nat)
    requires fileSize <= MAX_FILE_SIZE && MIN_CHUNK_SIZE <= chunkSize <= MAX_CHUNK_SIZE
    ensures full + 1 == ChunkCount(fileSize, chunkSize) <==>
      fileSize <= (full + 1) * chunkSize && (full > 0 ==> full * chunkSize < fileSize)
  {
    assert (full + 1) * chunkSize == full * chunkSize + chunkSize;
    if fileSize > 0 {
      var q := (fileSize - 1) / chunkSize;
      DivisionBounds(fileSize - 1, chunkSize);
      if full < q {
        MulMonotone(full + 1, q, chunkSize);
      } else if full > q {
        MulMonotone(q + 1, full, chunkSize);
        assert (q + 1) * chunkSize == q * chunkSize + chunkSize;
      }
    } else if full > 0 {
      MulMonotone(1, full, chunkSize);
    }
  }

  /** A chunk fits exactly when it is one of this transfer's, below the count, with the bytes of its place in the file. */
  lemma FitsExactly(h: Header, c: Chunk)
    requires ValidHeader(h, true)
    ensures FitsHeader(h, c) <==>
      && c.id == h.id && c.index < h.totalChunks
      && |c.data| == (if c.index == h.totalChunks - 1 then h.fileSize - c.index * h.chunkSize else h.chunkSize)
  {
    ChunkCountBounded(h.fileSize, h.chunkSize);
    if c.index < h.totalChunks {
      CutsFitHeader(h.fileSize, h.chunkSize, c.index);
    }
  }
}
