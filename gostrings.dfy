/**
 * Go strings are immutable byte sequences and `len` counts bytes, so the model
 * represents them as sequences of bytes. Literals written in the Go source are
 * ASCII and are brought in with `Ascii`.
 */
module GoStrings {

  newtype Byte = x: int | 0 <= x < 256

  type GoString = seq<Byte>

  /** The bytes of a string literal whose characters all fit in one byte. */
  function Ascii(s: string): (r: GoString)
    requires forall i :: 0 <= i < |s| ==> s[i] as int < 256
    ensures |r| == |s|
    ensures forall i :: 0 <= i < |s| ==> r[i] as int == s[i] as int
  {
    seq(|s|, i requires 0 <= i < |s| => s[i] as int as Byte)
  }

  /** strings.HasPrefix */
  predicate HasPrefix(s: GoString, prefix: GoString)
  {
    |prefix| <= |s| && s[..|prefix|] == prefix
  }

  /** strings.TrimPrefix: drops one leading copy of `prefix`, if there is one. */
  function TrimPrefix(s: GoString, prefix: GoString): (r: GoString)
    ensures HasPrefix(s, prefix) ==> prefix + r == s
    ensures !HasPrefix(s, prefix) ==> r == s
  {
    if HasPrefix(s, prefix) then s[|prefix|..] else s
  }
}
