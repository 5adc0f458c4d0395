/** Octets, big-endian 16-bit words and C strings, shared by the codec and the gateway. */
module Bytes {

  type byte = x: int | 0 <= x < 256

  /** A C++ `std::string` used as a byte container. */
  type Text = seq<byte>

  type uint16 = x: int | 0 <= x < 0x1_0000

  /** `ntohs` of two octets. */
  function Word(hi: byte, lo: byte): (w: uint16)
  {
    hi * 256 + lo
  }

  /** `htons` written out as two octets. */
  function WordBytes(w: uint16): (s: seq<byte>)
    ensures |s| == 2 && Word(s[0], s[1]) == w
  {
    [w / 256, w % 256]
  }

  /** The stream obtained by joining a list of chunks. */
  function Concat<T>(chunks: seq<seq<T>>): seq<T>
  {
    if chunks == [] then [] else chunks[0] + Concat(chunks[1..])
  }

  lemma Reassociate<T>(a: seq<T>, b: seq<T>, c: seq<T>)
    ensures (a + b) + c == a + (b + c)
  {
  }

  lemma {:induction false} ConcatSnoc<T>(chunks: seq<seq<T>>, last: seq<T>)
    ensures Concat(chunks + [last]) == Concat(chunks) + last
  {
    if chunks == [] {
      assert chunks + [last] == [last];
      assert Concat([last]) == last + Concat<T>([]);
    } else {
      assert (chunks + [last])[1..] == chunks[1..] + [last];
      ConcatSnoc(chunks[1..], last);
      assert Concat(chunks + [last]) == chunks[0] + Concat(chunks[1..] + [last]);
      assert chunks[0] + (Concat(chunks[1..]) + last) == Concat(chunks) + last;
    }
  }
}
