/** The 2048-bit sliding replay window kept by every session. */
module Replay {
  import opened Basics

  const REPLAY_BITS: nat := 2048

  /** Sequence numbers as carried in the 32-bit header field. */
  type WireSeq = n: nat | n < 0x1_0000_0000

  /** `bits[k]` records the sequence number `last - k`. */
  datatype Bitmap = Bitmap(last: WireSeq, bits: seq<bool>)

  type Window = w: Bitmap | |w.bits| == REPLAY_BITS witness Bitmap(0, seq(REPLAY_BITS, _ => false))

  function Fresh(): Window {
    Bitmap(0, seq(REPLAY_BITS, _ => false))
  }

  predicate Check(w: Window, s: WireSeq) {
    if w.last >= REPLAY_BITS && s <= w.last - REPLAY_BITS then false
    else if s > w.last then true
    else if s + REPLAY_BITS <= w.last then false
    else !w.bits[w.last - s]
  }

  /** The shift of a fixed-width bit set: bits pushed past the end are lost. */
  function ShiftUp(bits: seq<bool>, shift: nat): seq<bool> {
    seq(|bits|, i requires 0 <= i < |bits| => i >= shift && bits[i - shift])
  }

  function Update(w: Window, s: WireSeq): Window
    requires w.last < s + REPLAY_BITS
  {
    if s > w.last then
      var shift := s - w.last;
      var bits := if shift < REPLAY_BITS then ShiftUp(w.bits, shift) else Fresh().bits;
      Bitmap(s, bits[0 := true])
    else
      w.(bits := w.bits[w.last - s := true])
  }

  /** The highest recorded sequence number; zero before the first. */
  ghost predicate IsHighest(history: set<WireSeq>, h: WireSeq) {
    (forall s :: s in history ==> s <= h) && (h in history || (history == {} && h == 0))
  }

  /** The window stands for the set of all sequence numbers ever recorded. */
  ghost predicate Refines(w: Window, history: set<WireSeq>) {
    && IsHighest(history, w.last)
    && forall k :: 0 <= k < REPLAY_BITS ==> (w.bits[k] <==> w.last >= k && w.last - k in history)
  }

  lemma FreshRefinesNothing()
    ensures Refines(Fresh(), {})
  {
  }

  /** The bit window decides exactly what the unbounded history would decide. */
  lemma CheckIsExact(w: Window, history: set<WireSeq>, s: WireSeq)
    requires Refines(w, history)
    ensures Check(w, s) <==> s !in history && s > w.last - REPLAY_BITS
  {
    if s <= w.last && s > w.last - REPLAY_BITS {
      var k := w.last - s;
      assert w.bits[k] <==> w.last - k in history;
    }
  }

  lemma UpdateRecords(w: Window, history: set<WireSeq>, s: WireSeq)
    requires Refines(w, history) && Check(w, s)
    ensures w.last < s + REPLAY_BITS
    ensures Refines(Update(w, s), history + {s})
  {
    var r := Update(w, s);
    forall k | 0 <= k < REPLAY_BITS
      ensures r.bits[k] <==> r.last >= k && r.last - k in history + {s}
    {
      if s > w.last && 0 < k {
        var shift := s - w.last;
        if k >= shift && shift < REPLAY_BITS {
          assert r.bits[k] == w.bits[k - shift];
          assert w.last - (k - shift) == r.last - k;
        }
      }
    }
  }

  /** Frames accepted when the window is consulted and updated frame by frame. */
  function Accepted(w: Window, frames: seq<WireSeq>): seq<WireSeq>
    decreases |frames|
  {
    if frames == [] then []
    else if Check(w, frames[0]) then
      assert w.last < frames[0] + REPLAY_BITS;
      [frames[0]] + Accepted(Update(w, frames[0]), frames[1..])
    else Accepted(w, frames[1..])
  }

  /** The same decision taken with unbounded memory. */
  ghost function AcceptedByHistory(history: set<WireSeq>, highest: WireSeq, frames: seq<WireSeq>): seq<WireSeq>
    decreases |frames|
  {
    if frames == [] then []
    else
      var s := frames[0];
      if s !in history && s > highest - REPLAY_BITS then
        [s] + AcceptedByHistory(history + {s}, Max(highest, s), frames[1..])
      else AcceptedByHistory(history, highest, frames[1..])
  }

  /** Whatever is replayed, reordered or skipped, the window accepts what full memory would, and never twice. */
  lemma {:induction false} WindowRefinesHistory(w: Window, history: set<WireSeq>, frames: seq<WireSeq>)
    requires Refines(w, history)
    ensures Accepted(w, frames) == AcceptedByHistory(history, w.last, frames)
    ensures NoRepeats(Accepted(w, frames))
    ensures forall s :: s in Accepted(w, frames) ==> s !in history
    decreases |frames|
  {
    if frames != [] {
      var s := frames[0];
      CheckIsExact(w, history, s);
      if Check(w, s) {
        UpdateRecords(w, history, s);
        WindowRefinesHistory(Update(w, s), history + {s}, frames[1..]);
        assert Update(w, s).last == Max(w.last, s);
      } else {
        WindowRefinesHistory(w, history, frames[1..]);
      }
    }
  }
}
