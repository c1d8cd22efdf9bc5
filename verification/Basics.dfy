/** Datatypes shared by the models: optional values, node identities and public keys. */
module Basics {

  datatype Option<+T> = None | Some(value: T)

  newtype byte = b: int | 0 <= b < 256

  /** A 32-byte node identity, compared as a big-endian number. */
  type NodeId = nat

  const ZERO_NODE: NodeId := 0

  /** A 32-byte X25519 public key. Hashing is symbolic: distinct nonzero keys have distinct identities. */
  datatype PublicKey = ZeroKey | KeyOf(owner: NodeId)

  function HashPublicKey(key: PublicKey): NodeId {
    match key
    case ZeroKey => ZERO_NODE
    case KeyOf(owner) => owner
  }

  /** Clock readings; callers supply them and they never decrease along a run. */
  type Time = int

  function Min(a: int, b: int): int {
    if a <= b then a else b
  }

  function Max(a: int, b: int): int {
    if a >= b then a else b
  }

  lemma DivisionBounds(a: nat, b: nat)
    requires b > 0
    ensures 0 <= a / b && (a / b) * b <= a < (a / b) * b + b
  {
  }

  lemma SmallRoundTrip(n: int)
    requires 0 <= n < 256
    ensures (n as bv8) as int == n
  {
    if n < 128 { if n < 64 {} else {} } else { if n < 192 {} else {} }
  }

  lemma ByteRoundTrip(b: byte)
    ensures (b as bv8) as byte == b
  {
    SmallRoundTrip(b as int);
  }

  predicate NoRepeats<T(==)>(s: seq<T>) {
    forall i, j :: 0 <= i < j < |s| ==> s[i] != s[j]
  }

  lemma Associate<T>(a: seq<T>, b: seq<T>, c: seq<T>)
    ensures a + b + c == a + (b + c)
  {
  }

  lemma HeadAndTail<T>(a: seq<T>, b: seq<T>)
    requires a != []
    ensures (a + b)[0] == a[0] && (a + b)[1..] == a[1..] + b
  {
  }

  lemma MoveHead<T>(a: seq<T>, b: seq<T>)
    requires b != []
    ensures a + [b[0]] + b[1..] == a + b
  {
  }
}
