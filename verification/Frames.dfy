/** Session framing: what a payload is padded to, and when a frame can be made at all. */
module Frames {
  import opened Basics

  const HEADER_SIZE := 16
  const NONCE_SIZE := 12
  const TAG_SIZE := 16
  const LENGTH_PREFIX := 4
  const MAX_PAYLOAD := 4096
  const MAX_LOGICAL := MAX_PAYLOAD - LENGTH_PREFIX
  const MIN_BUCKET := 32

  predicate SupportedBucket(bucket: nat) {
    bucket == 32 || bucket == 64 || bucket == 128 || bucket == 256
  }

  function MaxPadding(bucket: nat): nat {
    if SupportedBucket(bucket) then bucket - 1 else 0
  }

  function FrameOverhead(bucket: nat): nat {
    HEADER_SIZE + NONCE_SIZE + TAG_SIZE + LENGTH_PREFIX + MaxPadding(bucket)
  }

  function PaddedSize(logical: nat, bucket: nat): nat {
    if !SupportedBucket(bucket) then 0
    else (logical + LENGTH_PREFIX + bucket - 1) / bucket * bucket
  }

  /** The bytes a session frame has on the wire, when one can be made at all. */
  function FrameSize(logical: nat, bucket: nat): Option<nat> {
    if !SupportedBucket(bucket) || logical > MAX_LOGICAL || PaddedSize(logical, bucket) > MAX_PAYLOAD then None
    else Some(HEADER_SIZE + NONCE_SIZE + PaddedSize(logical, bucket) + TAG_SIZE)
  }

  /** The sealed part of a frame: its two length fields and its size on the wire. */
  datatype Payload = Payload(logical: nat, bucket: nat, size: nat)

  /** What a receiver checks before it decrypts, and what it checks after. */
  predicate Readable(p: Payload) {
    MIN_BUCKET <= p.size <= MAX_PAYLOAD
  }

  predicate ProperlyPadded(p: Payload) {
    SupportedBucket(p.bucket) && p.logical <= MAX_LOGICAL && PaddedSize(p.logical, p.bucket) == p.size
  }

  /** Padding rounds up to a whole number of buckets, and by less than one. */
  lemma PaddingBounds(logical: nat, bucket: nat) returns (buckets: nat)
    requires SupportedBucket(bucket)
    ensures PaddedSize(logical, bucket) == buckets * bucket
    ensures logical + LENGTH_PREFIX <= PaddedSize(logical, bucket) <= logical + LENGTH_PREFIX + MaxPadding(bucket)
  {
    var n := logical + LENGTH_PREFIX + bucket - 1;
    buckets := n / bucket;
    DivisionBounds(n, bucket);
  }

  /** A session frame never exceeds its payload by more than the overhead budgeted for it. */
  lemma FrameWithinOverhead(logical: nat, bucket: nat)
    ensures FrameSize(logical, bucket).Some? ==> FrameSize(logical, bucket).value <= logical + FrameOverhead(bucket)
  {
    if SupportedBucket(bucket) {
      var _ := PaddingBounds(logical, bucket);
    }
  }

  /** Padding never pushes a payload over the limit: a frame can be made exactly when the payload alone fits. */
  lemma FrameMade(logical: nat, bucket: nat)
    ensures FrameSize(logical, bucket).Some? <==> SupportedBucket(bucket) && logical <= MAX_LOGICAL
  {
    if SupportedBucket(bucket) && logical <= MAX_LOGICAL {
      var buckets := PaddingBounds(logical, bucket);
      if bucket == 32 { assert buckets <= 128; }
      else if bucket == 64 { assert buckets <= 64; }
      else if bucket == 128 { assert buckets <= 32; }
      else { assert buckets <= 16; }
    }
  }

  /** Every frame that can be made is one that every receiver can read. */
  lemma MadeIsReadable(logical: nat, bucket: nat)
    requires FrameSize(logical, bucket).Some?
    ensures var p := Payload(logical, bucket, PaddedSize(logical, bucket)); Readable(p) && ProperlyPadded(p)
  {
    var buckets := PaddingBounds(logical, bucket);
    assert buckets >= 1;
  }

  lemma PaddedWorstCase(logical: nat, bucket: nat)
    requires SupportedBucket(bucket) && (logical + LENGTH_PREFIX) % bucket == 1
    ensures PaddedSize(logical, bucket) == logical + LENGTH_PREFIX + bucket - 1
  {
    var q := (logical + LENGTH_PREFIX) / bucket;
    if bucket == 32 { WholeBuckets(logical, 32, q); }
    else if bucket == 64 { WholeBuckets(logical, 64, q); }
    else if bucket == 128 { WholeBuckets(logical, 128, q); }
    else { WholeBuckets(logical, 256, q); }
  }

  lemma WholeBuckets(logical: nat, bucket: nat, q: nat)
    requires SupportedBucket(bucket) && logical + LENGTH_PREFIX == bucket * q + 1
    ensures PaddedSize(logical, bucket) == logical + LENGTH_PREFIX + bucket - 1
  {
    var n := logical + LENGTH_PREFIX + bucket - 1;
    assert n == bucket * (q + 1);
    assert n / bucket == q + 1;
  }

  /** The checks before and after decryption, in numbers: the payload rounded up to the bucket, within 32 and 4096 bytes. */
  lemma PaddingExactly(p: Payload)
    ensures Readable(p) && ProperlyPadded(p) <==>
      && p.bucket in {32, 64, 128, 256} && p.logical <= 4092 && p.size % p.bucket == 0
      && p.logical + 4 <= p.size < p.logical + 4 + p.bucket
  {
    if p.bucket in {32, 64, 128, 256} {
      var buckets := PaddingBounds(p.logical, p.bucket);
      if p.bucket == 32 { RoundedUp(p.logical, 32, p.size); }
      else if p.bucket == 64 { RoundedUp(p.logical, 64, p.size); }
      else if p.bucket == 128 { RoundedUp(p.logical, 128, p.size); }
      else { RoundedUp(p.logical, 256, p.size); }
      if p.logical <= 4092 {
        FrameMade(p.logical, p.bucket);
        MadeIsReadable(p.logical, p.bucket);
      }
    }
  }

  lemma RoundedUp(logical: nat, bucket: nat, size: nat)
    requires SupportedBucket(bucket)
    ensures size % bucket == 0 && logical + 4 <= size < logical + 4 + bucket <==> size == PaddedSize(logical, bucket)
  {
    var buckets := PaddingBounds(logical, bucket);
    if size % bucket == 0 && logical + 4 <= size < logical + 4 + bucket {
      var k := size / bucket;
      assert size == k * bucket;
      OneMultiple(bucket, k, buckets);
    }
    if size == PaddedSize(logical, bucket) {
      MultipleDivides(bucket, buckets, size);
    }
  }

  lemma MultipleDivides(b: nat, k: nat, n: nat)
    requires SupportedBucket(b) && n == k * b
    ensures n % b == 0
  {
    if b == 32 { assert n % 32 == 0; }
    else if b == 64 { assert n % 64 == 0; }
    else if b == 128 { assert n % 128 == 0; }
    else { assert n % 256 == 0; }
  }

  lemma OneMultiple(b: nat, j: nat, k: nat)
    requires SupportedBucket(b) && -(b as int) < j * b - k * b < b
    ensures j == k
  {
    if b == 32 {} else if b == 64 {} else if b == 128 {} else {}
  }
}
