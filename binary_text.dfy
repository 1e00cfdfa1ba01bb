/** `buffer2string`: the bytes of a buffer as a string of char codes, built chunk by chunk. */
module BinaryText {

  newtype byte = x: int | 0 <= x < 256

  /** The chunk size that keeps `String.fromCharCode.apply` within argument-count limits. */
  const SLICE_SIZE: nat := 8192

  /** `String.fromCharCode(c)` for a code below 256. */
  function CharOf(b: byte): char
  {
    (b as int) as char
  }

  /** The one-pass conversion: one char per byte, with the byte as its code. */
  function CharCodes(bytes: seq<byte>): (s: string)
    ensures |s| == |bytes|
    ensures forall i :: 0 <= i < |bytes| ==> s[i] as int == bytes[i] as int
  {
    seq(|bytes|, i requires 0 <= i < |bytes| => CharOf(bytes[i]))
  }

  /** The conversion of consecutive pieces concatenates. */
  lemma CharCodesAppend(a: seq<byte>, b: seq<byte>)
    ensures CharCodes(a + b) == CharCodes(a) + CharCodes(b)
  {
    assert forall i :: 0 <= i < |a + b| ==> CharCodes(a + b)[i] == (CharCodes(a) + CharCodes(b))[i];
  }

  /**
   * `buffer2string(buffer)`: converts `buffer[i .. i + 8192]` (clipped at the end)
   * for i = 0, 8192, ... and concatenates the pieces. The result is the one-pass
   * conversion, whatever the buffer size.
   */
  method Buffer2String(buffer: array<byte>) returns (str: string)
    ensures str == CharCodes(buffer[..])
    ensures |str| == buffer.Length
    ensures forall i :: 0 <= i < buffer.Length ==> str[i] as int == buffer[i] as int
  {
    str := "";
    var i := 0;
    while i < buffer.Length
      invariant 0 <= i
      invariant i < buffer.Length ==> str == CharCodes(buffer[..i])
      invariant i >= buffer.Length ==> str == CharCodes(buffer[..])
      decreases buffer.Length - i
    {
      var end := if i + SLICE_SIZE < buffer.Length then i + SLICE_SIZE else buffer.Length;
      CharCodesAppend(buffer[..i], buffer[i..end]);
      assert buffer[..i] + buffer[i..end] == buffer[..end];
      str := str + CharCodes(buffer[i..end]);
      i := i + SLICE_SIZE;
      assert end == buffer.Length ==> buffer[..end] == buffer[..];
    }
    if buffer.Length == 0 {
      assert buffer[..] == [];
    }
  }
}
