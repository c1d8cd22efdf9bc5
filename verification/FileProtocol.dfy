/**
 One file transfer end to end: the sender's window, a channel that loses, duplicates and reorders, and the
 receiver's part file. Disk writes and the final commit may fail at any point.
 */
module FileProtocol {
  import opened Basics
  import opened FileRules
  import opened ChunkTracker
  import opened SendWindow

  datatype Transfer = Transfer(config: Config, header: Header, file: seq<byte>)

  /** The sender announces its own file. */
  predicate Honest(t: Transfer) {
    && ValidHeader(t.header, true) && |t.file| == t.header.fileSize && t.header.contentHash == Sha256(t.file)
  }

  // ---------- the receiver's disk ----------

  function WriteAt(disk: seq<byte>, offset: nat, data: seq<byte>): seq<byte> {
    var padded := if |disk| < offset then disk + seq(offset - |disk|, _ => 0) else disk;
    padded[..offset] + data + if offset + |data| < |padded| then padded[offset + |data|..] else []
  }

  /** A write to this region may have left anything in it, and nothing elsewhere. */
  ghost predicate DisturbsOnly(disk: seq<byte>, offset: nat, length: nat, r: seq<byte>) {
    && |disk| <= |r| <= Max(|disk|, offset + length)
    && forall i :: 0 <= i < |disk| && !(offset <= i < offset + length) ==> r[i] == disk[i]
  }

  datatype Write = Written | Refused(disk: seq<byte>) | Lost(disk: seq<byte>)

  datatype CommitIo = Smooth | SizeUnreadable | ContentUnreadable | RenameFails

  datatype CommitResult = Committed | IoError | SizeMismatch | DigestMismatch | RenameFailed

  function VerifyAndCommit(disk: seq<byte>, size: nat, hash: Hash, io: CommitIo): CommitResult {
    if io.SizeUnreadable? then IoError
    else if |disk| != size then SizeMismatch
    else if io.ContentUnreadable? then IoError
    else if Sha256(disk) != hash then DigestMismatch
    else if io.RenameFails? then RenameFailed
    else Committed
  }

  // ---------- the receiver's entry for the transfer ----------

  datatype Entry = Entry(received: seq<bool>, disk: seq<byte>, reported: bool, final: Option<seq<byte>>)

  predicate AllReceived(e: Entry) {
    |e.received| > 0 && forall i :: 0 <= i < |e.received| ==> e.received[i]
  }

  /** The entry once the chunk's bytes have been written, or None when the write was refused. */
  function Store(h: Header, e: Entry, chunk: Chunk, write: Write): Option<Entry>
    requires chunk.index < |e.received|
  {
    if e.received[chunk.index] then Some(e)
    else match write
      case Refused(_) => None
      case Written => Some(e.(disk := WriteAt(e.disk, Offset(h.chunkSize, chunk.index), chunk.data),
                             received := e.received[chunk.index := true]))
      case Lost(disk) => Some(e.(disk := disk, received := e.received[chunk.index := true]))
  }

  /** A complete file is verified and renamed; if that fails the last chunk is taken back. */
  function Finish(h: Header, e: Entry, index: nat, io: CommitIo): Entry
    requires index < |e.received|
  {
    if AllReceived(e) && !e.reported then
      if VerifyAndCommit(e.disk, h.fileSize, h.contentHash, io).Committed?
      then e.(reported := true, final := Some(e.disk))
      else e.(received := e.received[index := false])
    else e
  }

  // ---------- the system ----------

  datatype Message = HeaderMessage | ChunkMessage(chunk: Chunk) | AckMessage(ack: Ack)

  /** `intact` says no write has been silently lost so far. */
  datatype System = System(window: Window, entry: Option<Entry>, wire: set<Message>, intact: bool)

  datatype Act =
    | Poll(now: Time, after: Window, action: Action)
    | TakeAck(ack: Ack, now: Time, after: Window)
    | TakeHeader(admitted: bool, ranges: seq<Range>)
    | TakeChunk(chunk: Chunk, write: Write, io: CommitIo, ranges: seq<Range>)

  function ChunkOf(t: Transfer, index: nat): Chunk
    requires Offset(t.header.chunkSize, index) <= |t.file|
  {
    Chunk(t.header.id, index, Cut(t.file, t.header.chunkSize, index))
  }

  function Sends(t: Transfer, action: Action): set<Message> {
    (if action.sendHeader then {HeaderMessage} else {}) +
    set k | k in action.chunks && Offset(t.header.chunkSize, k) <= |t.file| :: ChunkMessage(ChunkOf(t, k))
  }

  /** The entry after a chunk arrives; None when nothing is acknowledged, with the disk left behind. */
  function Receive(h: Header, e: Entry, chunk: Chunk, write: Write, io: CommitIo): (Entry, bool) {
    if !FitsHeader(h, chunk) || chunk.index >= |e.received| then (e, false)
    else match Store(h, e, chunk, write)
      case None => (if write.Refused? then e.(disk := write.disk) else e, false)
      case Some(stored) => (Finish(h, stored, chunk.index, io), true)
  }

  ghost predicate Allowed(t: Transfer, s: System, act: Act) {
    match act
    case Poll(now, after, action) => PollStep(t.config, s.window, now, after, action)
    case TakeAck(ack, now, after) => AckMessage(ack) in s.wire && AckStep(t.config, s.window, ack, now, after)
    case TakeHeader(_, ranges) =>
      && HeaderMessage in s.wire
      && (s.entry.Some? ==> FullAck(s.entry.value.received, ACK_MAX_RANGES, ranges))
    case TakeChunk(chunk, write, io, ranges) =>
      && ChunkMessage(chunk) in s.wire
      && (s.entry.Some? ==>
            var e := s.entry.value;
            && (!write.Written? ==> DisturbsOnly(e.disk, Offset(t.header.chunkSize, chunk.index), |chunk.data|, write.disk))
            && FocusedAck(Receive(t.header, e, chunk, write, io).0.received, chunk.index, ACK_MAX_RANGES, ranges))
  }

  function Next(t: Transfer, s: System, act: Act): System {
    match act
    case Poll(_, after, action) => s.(window := after, wire := s.wire + Sends(t, action))
    case TakeAck(_, _, after) => s.(window := after)
    case TakeHeader(admitted, ranges) =>
      if s.entry.Some? then s.(wire := s.wire + {AckMessage(Ack(true, ranges))})
      else if !admitted then s
      else s.(entry := Some(Entry(seq(t.header.totalChunks, _ => false), [], false, None)),
              wire := s.wire + {AckMessage(Ack(true, []))})
    case TakeChunk(chunk, write, io, ranges) =>
      if s.entry.None? then s
      else
        var (e, acked) := Receive(t.header, s.entry.value, chunk, write, io);
        s.(entry := Some(e),
           wire := if acked then s.wire + {AckMessage(Ack(true, ranges))} else s.wire,
           intact := s.intact && !write.Lost?)
  }

  function Start(t: Transfer, now: Time): System {
    System(Initial(t.config, t.header.totalChunks, now), None, {}, true)
  }

  ghost predicate IsRun(t: Transfer, s: System, acts: seq<Act>)
    decreases |acts|
  {
    acts == [] || (Allowed(t, s, acts[0]) && IsRun(t, Next(t, s, acts[0]), acts[1..]))
  }

  function Run(t: Transfer, s: System, acts: seq<Act>): System
    decreases |acts|
  {
    if acts == [] then s else Run(t, Next(t, s, acts[0]), acts[1..])
  }

  // ---------- the invariant ----------

  /** The chunk's region of the part file holds the sender's bytes. */
  ghost predicate OnDisk(t: Transfer, disk: seq<byte>, i: nat)
    requires Offset(t.header.chunkSize, i) <= |t.file|
  {
    var from := Offset(t.header.chunkSize, i);
    var data := Cut(t.file, t.header.chunkSize, i);
    from + |data| <= |disk| && disk[from..from + |data|] == data
  }

  /** A complete record has been committed, and what was committed is the sender's file. */
  ghost predicate EntryOk(t: Transfer, e: Entry) {
    && |e.received| == t.header.totalChunks
    && (AllReceived(e) ==> e.reported)
    && (e.reported ==> AllReceived(e) && e.final == Some(t.file))
  }

  ghost predicate DiskOk(t: Transfer, e: Entry) {
    && |e.disk| <= |t.file| && |e.received| == t.header.totalChunks
    && forall i :: 0 <= i < t.header.totalChunks && e.received[i] ==>
         Offset(t.header.chunkSize, i) <= |t.file| && OnDisk(t, e.disk, i)
  }

  ghost predicate Recorded(entry: Option<Entry>, i: nat) {
    entry.Some? && i < |entry.value.received| && entry.value.received[i]
  }

  ghost predicate WireOk(t: Transfer, entry: Option<Entry>, wire: set<Message>) {
    && (forall m, i :: m in wire && m.AckMessage? && Covers(m.ack.ranges, i) ==> Recorded(entry, i))
    && (forall m :: m in wire && m.ChunkMessage? ==>
          && m.chunk.index < t.header.totalChunks && Offset(t.header.chunkSize, m.chunk.index) <= |t.file|
          && m.chunk == ChunkOf(t, m.chunk.index))
  }

  ghost predicate Ok(t: Transfer, s: System) {
    && Inv(t.config, s.window) && s.window.total == t.header.totalChunks
    && (forall i :: 0 <= i < s.window.total && s.window.acked[i] ==> Recorded(s.entry, i))
    && WireOk(t, s.entry, s.wire)
    && (s.entry.Some? ==> EntryOk(t, s.entry.value) && (s.intact ==> DiskOk(t, s.entry.value)))
  }

  // ---------- the entry ----------

  /** Whatever the disk does, the record only grows from step to step and completes only by a commit. */
  lemma ReceiveKeepsEntry(t: Transfer, e: Entry, chunk: Chunk, write: Write, io: CommitIo)
    requires Honest(t) && EntryOk(t, e)
    ensures var r := Receive(t.header, e, chunk, write, io).0;
      EntryOk(t, r) && forall i :: 0 <= i < |e.received| && e.received[i] ==> r.received[i]
  {
    if FitsHeader(t.header, chunk) && chunk.index < |e.received| {
      var stored := Store(t.header, e, chunk, write);
      if stored.Some? {
        FinishKeepsEntry(t, e, stored.value, chunk.index, io);
      }
    }
  }

  lemma FinishKeepsEntry(t: Transfer, e: Entry, stored: Entry, index: nat, io: CommitIo)
    requires Honest(t) && EntryOk(t, e) && index < |e.received|
    requires stored == e || (!e.received[index] && stored == e.(disk := stored.disk, received := e.received[index := true]))
    ensures var r := Finish(t.header, stored, index, io);
      EntryOk(t, r) && forall i :: 0 <= i < |e.received| && e.received[i] ==> r.received[i]
  {
    if AllReceived(stored) && !stored.reported {
      assert stored != e;
      var r := Finish(t.header, stored, index, io);
      if !r.reported {
        assert !r.received[index];
      }
    } else if stored != e {
      assert !AllReceived(e);
    }
  }

  // ---------- the disk ----------

  lemma WriteAtMeets(disk: seq<byte>, offset: nat, data: seq<byte>)
    ensures DisturbsOnly(disk, offset, |data|, WriteAt(disk, offset, data))
    ensures offset + |data| <= |WriteAt(disk, offset, data)|
    ensures WriteAt(disk, offset, data)[offset..offset + |data|] == data
  {
  }

  /** A write into one chunk's region leaves the others as they were. */
  lemma OthersUndisturbed(t: Transfer, disk: seq<byte>, i: nat, j: nat, r: seq<byte>)
    requires Honest(t) && i < t.header.totalChunks && j < t.header.totalChunks && i != j
    requires Offset(t.header.chunkSize, i) <= |t.file| && Offset(t.header.chunkSize, j) <= |t.file|
    requires OnDisk(t, disk, i)
    requires DisturbsOnly(disk, Offset(t.header.chunkSize, j), |Cut(t.file, t.header.chunkSize, j)|, r)
    ensures OnDisk(t, r, i)
  {
    var size, cut := t.header.fileSize, t.header.chunkSize;
    CutsFitHeader(size, cut, i);
    CutsFitHeader(size, cut, j);
    RegionsApart(size, cut, if i < j then i else j, if i < j then j else i);
    var from, data := Offset(cut, i), Cut(t.file, cut, i);
    assert r[from..from + |data|] == disk[from..from + |data|];
  }

  lemma DisturbedDiskOk(t: Transfer, e: Entry, index: nat, r: seq<byte>)
    requires Honest(t) && DiskOk(t, e) && index < t.header.totalChunks && !e.received[index]
    requires Offset(t.header.chunkSize, index) <= |t.file|
    requires DisturbsOnly(e.disk, Offset(t.header.chunkSize, index), |Cut(t.file, t.header.chunkSize, index)|, r)
    ensures DiskOk(t, e.(disk := r))
  {
    CutsFitHeader(t.header.fileSize, t.header.chunkSize, index);
    forall i | 0 <= i < t.header.totalChunks && e.received[i]
      ensures Offset(t.header.chunkSize, i) <= |t.file| && OnDisk(t, r, i)
    {
      OthersUndisturbed(t, e.disk, i, index, r);
    }
  }

  lemma ReceiveKeepsDisk(t: Transfer, e: Entry, index: nat, write: Write, io: CommitIo)
    requires Honest(t) && DiskOk(t, e) && index < t.header.totalChunks && Offset(t.header.chunkSize, index) <= |t.file|
    requires !write.Lost?
    requires write.Refused? ==>
      DisturbsOnly(e.disk, Offset(t.header.chunkSize, index), |Cut(t.file, t.header.chunkSize, index)|, write.disk)
    ensures DiskOk(t, Receive(t.header, e, ChunkOf(t, index), write, io).0)
  {
    var chunk := ChunkOf(t, index);
    SenderCutsFit(t.header, t.file, index);
    if !e.received[index] {
      if write.Refused? {
        DisturbedDiskOk(t, e, index, write.disk);
      } else {
        var disk := WriteAt(e.disk, Offset(t.header.chunkSize, index), chunk.data);
        WriteAtMeets(e.disk, Offset(t.header.chunkSize, index), chunk.data);
        DisturbedDiskOk(t, e, index, disk);
        assert OnDisk(t, disk, index);
        assert DiskOk(t, Store(t.header, e, chunk, write).value);
      }
    }
  }

  /** Once every chunk is recorded without a lost write, the part file is the sender's file. */
  lemma CompleteDiskIsFile(t: Transfer, e: Entry)
    requires Honest(t) && DiskOk(t, e) && AllReceived(e)
    ensures e.disk == t.file
  {
    var size, cut := t.header.fileSize, t.header.chunkSize;
    var last := t.header.totalChunks - 1;
    CutsFitHeader(size, cut, last);
    LastCutEndsFile(size, cut);
    assert OnDisk(t, e.disk, last);
    forall at | 0 <= at < size ensures e.disk[at] == t.file[at] {
      var i := PositionHasChunk(size, cut, at, 0);
      assert OnDisk(t, e.disk, i);
      var from, data := Offset(cut, i), Cut(t.file, cut, i);
      assert e.disk[from..from + |data|][at - from] == data[at - from];
    }
  }

  // ---------- the wire ----------

  lemma RunsAreRecorded(received: seq<bool>, ranges: seq<Range>)
    requires AreRuns(received, ranges)
    ensures forall i: nat :: Covers(ranges, i) ==> i < |received| && received[i]
  {
    forall i: nat | Covers(ranges, i) ensures i < |received| && received[i] {
      var k :| 0 <= k < |ranges| && ranges[k].first <= i < ranges[k].first + ranges[k].count;
      assert ChunkTracker.IsRun(received, ranges[k]);
    }
  }

  lemma AckKeepsWire(t: Transfer, entry: Option<Entry>, wire: set<Message>, e: Entry, ranges: seq<Range>)
    requires WireOk(t, entry, wire) && AreRuns(e.received, ranges)
    requires forall i: nat :: Recorded(entry, i) ==> Recorded(Some(e), i)
    ensures WireOk(t, Some(e), wire) && WireOk(t, Some(e), wire + {AckMessage(Ack(true, ranges))})
  {
    RunsAreRecorded(e.received, ranges);
  }

  lemma SendsKeepWire(t: Transfer, entry: Option<Entry>, wire: set<Message>, action: Action)
    requires WireOk(t, entry, wire) && forall k :: k in action.chunks ==> k < t.header.totalChunks
    ensures WireOk(t, entry, wire + Sends(t, action))
  {
  }

  // ---------- every step keeps the invariant ----------

  lemma PollKeepsOk(t: Transfer, s: System, act: Act)
    requires Honest(t) && Ok(t, s) && act.Poll? && Allowed(t, s, act)
    ensures Ok(t, Next(t, s, act))
  {
    PollKeepsInv(t.config, s.window, act.now, act.after, act.action);
    forall k | k in act.action.chunks ensures k < t.header.totalChunks {
      AckedNeverResent(t.config, s.window, act.now, act.after, act.action, k);
    }
    SendsKeepWire(t, s.entry, s.wire, act.action);
  }

  lemma TakeAckKeepsOk(t: Transfer, s: System, act: Act)
    requires Honest(t) && Ok(t, s) && act.TakeAck? && Allowed(t, s, act)
    ensures Ok(t, Next(t, s, act))
  {
    AckKeepsInv(t.config, s.window, act.ack, act.now, act.after);
    forall i | 0 <= i < act.after.total && act.after.acked[i] ensures Recorded(s.entry, i) {
      if !s.window.acked[i] {
        assert AckMessage(act.ack) in s.wire && Covers(act.ack.ranges, i);
      }
    }
  }

  lemma TakeHeaderKeepsOk(t: Transfer, s: System, act: Act)
    requires Honest(t) && Ok(t, s) && act.TakeHeader? && Allowed(t, s, act)
    ensures Ok(t, Next(t, s, act))
  {
    if s.entry.Some? {
      AckKeepsWire(t, s.entry, s.wire, s.entry.value, act.ranges);
    } else if act.admitted {
      var e := Entry(seq(t.header.totalChunks, _ => false), [], false, None);
      assert !e.received[0];
      AckKeepsWire(t, s.entry, s.wire, e, []);
    }
  }

  lemma TakeChunkKeepsOk(t: Transfer, s: System, act: Act)
    requires Honest(t) && Ok(t, s) && act.TakeChunk? && Allowed(t, s, act)
    ensures Ok(t, Next(t, s, act))
  {
    if s.entry.Some? {
      var e := s.entry.value;
      var r := Receive(t.header, e, act.chunk, act.write, act.io).0;
      ReceiveKeepsEntry(t, e, act.chunk, act.write, act.io);
      AckKeepsWire(t, s.entry, s.wire, r, act.ranges);
      assert ChunkMessage(act.chunk) in s.wire;
      if s.intact && !act.write.Lost? {
        ReceiveKeepsDisk(t, e, act.chunk.index, act.write, act.io);
      }
    }
  }

  lemma NextKeepsOk(t: Transfer, s: System, act: Act)
    requires Honest(t) && Ok(t, s) && Allowed(t, s, act)
    ensures Ok(t, Next(t, s, act))
  {
    match act
    case Poll(_, _, _) => PollKeepsOk(t, s, act);
    case TakeAck(_, _, _) => TakeAckKeepsOk(t, s, act);
    case TakeHeader(_, _) => TakeHeaderKeepsOk(t, s, act);
    case TakeChunk(_, _, _, _) => TakeChunkKeepsOk(t, s, act);
  }

  lemma {:induction false} RunKeepsOk(t: Transfer, s: System, acts: seq<Act>)
    requires Honest(t) && Ok(t, s) && IsRun(t, s, acts)
    ensures Ok(t, Run(t, s, acts))
    decreases |acts|
  {
    if acts != [] {
      NextKeepsOk(t, s, acts[0]);
      RunKeepsOk(t, Next(t, s, acts[0]), acts[1..]);
    }
  }

  lemma StartOk(t: Transfer, now: Time)
    requires Honest(t) && Startable(t.config, t.header.totalChunks)
    ensures Ok(t, Start(t, now))
  {
    InitialInv(t.config, t.header.totalChunks, now);
  }

  /** A sender that sees the transfer complete has a receiver that recorded every chunk and committed its file. */
  lemma CompletionMeansCommitted(t: Transfer, now: Time, acts: seq<Act>)
    requires Honest(t) && Startable(t.config, t.header.totalChunks) && IsRun(t, Start(t, now), acts)
    ensures var s := Run(t, Start(t, now), acts);
      Complete(s.window) ==>
        && s.entry.Some? && AllReceived(s.entry.value) && |s.entry.value.received| == t.header.totalChunks
        && s.entry.value.reported && s.entry.value.final == Some(t.file)
  {
    StartOk(t, now);
    RunKeepsOk(t, Start(t, now), acts);
    var s := Run(t, Start(t, now), acts);
    if Complete(s.window) {
      CountFull(s.window.acked);
      assert Recorded(s.entry, 0);
      var e := s.entry.value;
      assert |e.received| == t.header.totalChunks;
      forall i | 0 <= i < |e.received| ensures e.received[i] {
        assert s.window.acked[i];
        assert Recorded(s.entry, i);
      }
    }
  }

  /** While no write is silently lost, verification never fails: only the filesystem itself can. */
  lemma IntactFilesVerify(t: Transfer, now: Time, acts: seq<Act>, index: nat, write: Write, io: CommitIo)
    requires Honest(t) && Startable(t.config, t.header.totalChunks) && IsRun(t, Start(t, now), acts)
    requires var s := Run(t, Start(t, now), acts);
      && s.entry.Some? && s.intact && index < t.header.totalChunks && write.Written?
      && Offset(t.header.chunkSize, index) <= |t.file| && index < |s.entry.value.received|
      && var stored := Store(t.header, s.entry.value, ChunkOf(t, index), write);
         stored.Some? && AllReceived(stored.value)
    ensures var s := Run(t, Start(t, now), acts);
      var disk := Store(t.header, s.entry.value, ChunkOf(t, index), write).value.disk;
      && disk == t.file
      && var result := VerifyAndCommit(disk, t.header.fileSize, t.header.contentHash, io);
         !result.SizeMismatch? && !result.DigestMismatch? && (io.Smooth? <==> result.Committed?)
  {
    StartOk(t, now);
    RunKeepsOk(t, Start(t, now), acts);
    IntactEntryVerifies(t, Run(t, Start(t, now), acts).entry.value, index, io);
  }

  lemma IntactEntryVerifies(t: Transfer, e: Entry, index: nat, io: CommitIo)
    requires Honest(t) && DiskOk(t, e) && index < t.header.totalChunks && Offset(t.header.chunkSize, index) <= |t.file|
    requires index < |e.received| && Store(t.header, e, ChunkOf(t, index), Written).Some?
    requires AllReceived(Store(t.header, e, ChunkOf(t, index), Written).value)
    ensures var disk := Store(t.header, e, ChunkOf(t, index), Written).value.disk;
      && disk == t.file
      && var result := VerifyAndCommit(disk, t.header.fileSize, t.header.contentHash, io);
         !result.SizeMismatch? && !result.DigestMismatch? && (io.Smooth? <==> result.Committed?)
  {
    StoreKeepsDisk(t, e, index);
    CompleteDiskIsFile(t, Store(t.header, e, ChunkOf(t, index), Written).value);
  }

  lemma StoreKeepsDisk(t: Transfer, e: Entry, index: nat)
    requires Honest(t) && DiskOk(t, e) && index < t.header.totalChunks && Offset(t.header.chunkSize, index) <= |t.file|
    ensures DiskOk(t, Store(t.header, e, ChunkOf(t, index), Written).value)
  {
    if !e.received[index] {
      var from, data := Offset(t.header.chunkSize, index), Cut(t.file, t.header.chunkSize, index);
      WriteAtMeets(e.disk, from, data);
      DisturbedDiskOk(t, e, index, WriteAt(e.disk, from, data));
      assert OnDisk(t, WriteAt(e.disk, from, data), index);
    }
  }
}
