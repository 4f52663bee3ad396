/** The parts of Rust's `str` that a query string leans on: text as a sequence
    of UTF-8 bytes, byte-wise equality, and hashing through a caller's hasher. */
module RustStr {

  newtype byte = x: int | 0 <= x < 256

  /** The bytes of a `str`. */
  type Bytes = seq<byte>

  /** `str == str`: the lengths agree, then the bytes agree front to back. */
  function StrEq(a: Bytes, b: Bytes): bool
    decreases |a|
  {
    if |a| != |b| then false
    else if |a| == 0 then true
    else a[0] == b[0] && StrEq(a[1..], b[1..])
  }

  /** Byte-wise `str` equality is exactly equality of the byte sequences, for
      every content: empty text, NUL bytes and multi-byte characters included. */
  lemma {:induction false} StrEqIffSame(a: Bytes, b: Bytes)
    ensures StrEq(a, b) <==> a == b
    decreases |a|
  {
    if |a| == |b| && |a| > 0 {
      StrEqIffSame(a[1..], b[1..]);
      assert a == [a[0]] + a[1..];
      assert b == [b[0]] + b[1..];
    }
  }

  /** The bytes of a text literal made of ASCII characters only. */
  function Ascii(s: string): Bytes
    requires forall i | 0 <= i < |s| :: s[i] < 128 as char
  {
    seq(|s|, i requires 0 <= i < |s| => s[i] as int as byte)
  }
}
