/** A file transfer makes progress: what is sent is on the wire, what is delivered is acknowledged, and a full record ends it. */
module FileProgress {
  import opened Basics
  import opened FileRules
  import opened ChunkTracker
  import opened SendWindow
  import opened FileProtocol

  // ---------- one delivered chunk ----------

  /** A chunk of the transfer is acknowledged if and only if it was recorded before or its block was not refused. */
  lemma AcknowledgedExactly(h: Header, e: Entry, chunk: Chunk, write: Write, io: CommitIo)
    ensures Receive(h, e, chunk, write, io).1 <==>
      FitsHeader(h, chunk) && chunk.index < |e.received| && (e.received[chunk.index] || !write.Refused?)
  {
  }

  /** A chunk recorded before leaves the disk alone; a new one is written at its place; a refused one is not recorded. */
  lemma RecordedExactly(h: Header, e: Entry, chunk: Chunk, write: Write, io: CommitIo, i: nat)
    requires FitsHeader(h, chunk) && chunk.index < |e.received| && i < |e.received|
    ensures var r := Receive(h, e, chunk, write, io).0;
      && |r.received| == |e.received|
      && (i != chunk.index ==> r.received[i] == e.received[i])
      && (e.received[chunk.index] ==> r.disk == e.disk)
      && (!e.received[chunk.index] && write.Written? ==> r.disk == WriteAt(e.disk, chunk.index * h.chunkSize, chunk.data))
      && (!e.received[chunk.index] && write.Refused? ==> !r.received[chunk.index])
  {
  }

  /** A verification result says which step failed first: size, content, rename. */
  lemma CommitExactly(disk: seq<byte>, size: nat, hash: Hash, io: CommitIo)
    ensures var r := VerifyAndCommit(disk, size, hash, io);
      && (r == Committed <==> io.Smooth? && |disk| == size && Sha256(disk) == hash)
      && (r == SizeMismatch <==> !io.SizeUnreadable? && |disk| != size)
      && (r == DigestMismatch <==> (io.Smooth? || io.RenameFails?) && |disk| == size && Sha256(disk) != hash)
      && (r == RenameFailed <==> io.RenameFails? && |disk| == size && Sha256(disk) == hash)
  {
  }

  /** In a reachable entry a written block and a smooth commit leave the chunk recorded, first delivery or not. */
  lemma DeliveredIsRecorded(t: Transfer, e: Entry, index: nat)
    requires Honest(t) && EntryOk(t, e) && DiskOk(t, e) && index < t.header.totalChunks && Offset(t.header.chunkSize, index) <= |t.file|
    ensures var (r, acked) := Receive(t.header, e, ChunkOf(t, index), Written, Smooth);
      acked && |r.received| == t.header.totalChunks && r.received[index]
  {
    var chunk := ChunkOf(t, index);
    SenderCutsFit(t.header, t.file, index);
    var stored := Store(t.header, e, chunk, Written).value;
    if AllReceived(stored) && !stored.reported {
      IntactEntryVerifies(t, e, index, Smooth);
    }
  }

  /**
   After any run without a lost write, delivering a chunk of the sender with a written block and a smooth commit
   records it and puts an acknowledgement that covers it on the wire, whether or not it was delivered before.
   */
  lemma DeliveredIsAcknowledged(t: Transfer, now: Time, acts: seq<Act>, act: Act)
    requires Honest(t) && Startable(t.config, t.header.totalChunks) && FileProtocol.IsRun(t, Start(t, now), acts)
    requires var s := Run(t, Start(t, now), acts); s.entry.Some? && s.intact && Allowed(t, s, act)
    requires act.TakeChunk? && act.write == Written && act.io == Smooth
    ensures var r := Next(t, Run(t, Start(t, now), acts), act);
      && r.entry.Some? && act.chunk.index < |r.entry.value.received| && r.entry.value.received[act.chunk.index]
      && AckMessage(Ack(true, act.ranges)) in r.wire && Covers(act.ranges, act.chunk.index)
  {
    StartOk(t, now);
    RunKeepsOk(t, Start(t, now), acts);
    DeliveredInState(t, Run(t, Start(t, now), acts), act);
  }

  lemma DeliveredInState(t: Transfer, s: System, act: Act)
    requires Honest(t) && Ok(t, s) && s.entry.Some? && s.intact && Allowed(t, s, act)
    requires act.TakeChunk? && act.write == Written && act.io == Smooth
    ensures var r := Next(t, s, act);
      && r.entry.Some? && act.chunk.index < |r.entry.value.received| && r.entry.value.received[act.chunk.index]
      && AckMessage(Ack(true, act.ranges)) in r.wire && Covers(act.ranges, act.chunk.index)
  {
    assert ChunkMessage(act.chunk) in s.wire;
    DeliveredIsRecorded(t, s.entry.value, act.chunk.index);
  }

  // ---------- the header ----------

  /** A delivered header is acknowledged as soon as the transfer is admitted, and every time it comes again. */
  lemma HeaderIsAcknowledged(t: Transfer, s: System, act: Act)
    requires act.TakeHeader? && Allowed(t, s, act) && (act.admitted || s.entry.Some?)
    ensures var r := Next(t, s, act);
      && r.entry.Some? && (s.entry.Some? ==> r.entry == s.entry)
      && (s.entry.None? ==> r.entry.value.received == seq(t.header.totalChunks, _ => false) && r.entry.value.disk == [])
      && exists ranges :: AckMessage(Ack(true, ranges)) in r.wire
  {
    if s.entry.Some? {
      assert AckMessage(Ack(true, act.ranges)) in Next(t, s, act).wire;
    } else {
      assert AckMessage(Ack(true, [])) in Next(t, s, act).wire;
    }
  }

  // ---------- the sender ----------

  /** Everything a poll decides to send is on the wire, each chunk with the bytes of its region. */
  lemma SentIsOnWire(t: Transfer, s: System, act: Act, k: nat)
    requires Honest(t) && Ok(t, s) && act.Poll? && Allowed(t, s, act)
    ensures act.action.sendHeader ==> HeaderMessage in Next(t, s, act).wire
    ensures k in act.action.chunks ==> Offset(t.header.chunkSize, k) <= |t.file| && ChunkMessage(ChunkOf(t, k)) in Next(t, s, act).wire
  {
    if k in act.action.chunks {
      AckedNeverResent(t.config, s.window, act.now, act.after, act.action, k);
      CutsFitHeader(t.header.fileSize, t.header.chunkSize, k);
    }
  }

  // ---------- the end ----------

  /** When everything is recorded, any complete list of leading runs is the whole file. */
  lemma LeadingCoversAll(received: seq<bool>, ranges: seq<Range>)
    requires AreRuns(received, ranges) && |received| > 0 && Covers(ranges, 0)
    requires forall i :: 0 <= i < |received| ==> received[i]
    ensures forall i: nat :: i < |received| ==> Covers(ranges, i)
  {
    var k :| 0 <= k < |ranges| && ranges[k].first <= 0 < ranges[k].first + ranges[k].count;
    assert ChunkTracker.IsRun(received, ranges[k]);
    assert ranges[k].first + ranges[k].count == |received|;
  }

  /**
   Once the receiver has recorded every chunk, the acknowledgement of any further chunk, new or old, covers the whole
   file, and taking it completes the sender's window unless it has already failed.
   */
  lemma FullRecordCompletes(t: Transfer, s: System, act: Act, now: Time, after: Window)
    requires Honest(t) && Ok(t, s) && s.entry.Some? && AllReceived(s.entry.value) && act.TakeChunk? && Allowed(t, s, act)
    requires !s.window.failed && AckStep(t.config, s.window, Ack(true, act.ranges), now, after)
    ensures AckMessage(Ack(true, act.ranges)) in Next(t, s, act).wire
    ensures Complete(after)
  {
    var e := s.entry.value;
    assert ChunkMessage(act.chunk) in s.wire;
    SenderCutsFit(t.header, t.file, act.chunk.index);
    assert Receive(t.header, e, act.chunk, act.write, act.io) == (e, true);
    LeadingCoversAll(e.received, act.ranges);
    forall i | 0 <= i < |after.acked| ensures after.acked[i] {
    }
    CountFull(after.acked);
  }
}
