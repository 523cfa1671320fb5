// Vocabulary shared by every part of the model.
module Basics {

  datatype Option<+T> = None | Some(value: T) {

    predicate IsFailure() {
      None?
    }

    function PropagateFailure<U>(): Option<U>
      requires None?
    {
      None
    }

    function Extract(): T
      requires Some?
    {
      value
    }
  }

  datatype Result<+T, +E> = Ok(value: T) | Err(error: E)

  type Bytes = seq<bv8>

  const U32_MAX: nat := 0xFFFF_FFFF
  const U64_MAX: nat := 0xFFFF_FFFF_FFFF_FFFF
  const I64_MAX: nat := 0x7FFF_FFFF_FFFF_FFFF

  function Min(a: nat, b: nat): nat {
    if a <= b then a else b
  }

  /** A number as a byte. */
  function Byte(n: nat): (b: bv8)
    requires n < 256
    ensures b as nat == n
  {
    ByteRoundTrip(n);
    n as bv8
  }

  lemma ByteRoundTrip(n: nat)
    requires n < 256
    ensures (n as bv8) as nat == n
  {
    var wide := n as bv16;
    assert wide as nat == n;
  }

  function Power256(width: nat): nat {
    if width == 0 then 1 else 256 * Power256(width - 1)
  }

  /** The bytes of `parts`, one part after the other. */
  function Flatten(parts: seq<Bytes>): Bytes {
    if parts == [] then [] else Flatten(parts[..|parts| - 1]) + parts[|parts| - 1]
  }

  lemma FlattenSnoc(parts: seq<Bytes>, part: Bytes)
    ensures Flatten(parts + [part]) == Flatten(parts) + part
  {
  }

  /** Taking one more part only appends. */
  lemma FlattenNext(parts: seq<Bytes>, n: nat)
    requires n < |parts|
    ensures Flatten(parts[..n + 1]) == Flatten(parts[..n]) + parts[n]
  {
    assert parts[..n + 1] == parts[..n] + [parts[n]];
    FlattenSnoc(parts[..n], parts[n]);
  }

  lemma {:induction false} FlattenGrows(parts: seq<Bytes>, m: nat, n: nat)
    requires m <= n <= |parts|
    ensures Flatten(parts[..m]) <= Flatten(parts[..n])
    decreases n
  {
    if m < n {
      FlattenGrows(parts, m, n - 1);
      FlattenNext(parts, n - 1);
    }
  }
}
