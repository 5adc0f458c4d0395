/** The variable-length Remaining Length of MQTT 3.1.1, section 2.2.3, as the codec reads and
    writes it. The codec's numbers are 32-bit; four groups of seven bits stay far below that. */
module RemainingLength {
  import opened Bytes

  const MAX_GROUPS: nat := 4

  datatype Length = Length(value: nat, consumed: nat)

  ghost function Pow128(k: nat): (p: nat)
    ensures p >= 1
  {
    if k == 0 then 1 else 128 * Pow128(k - 1)
  }

  /** What the decoder reports for the octets `s`. `consumed` is one more than the index where it
      stopped, also when it stopped because the octets ran out or the group budget was used up. */
  function Decode(s: seq<byte>, budget: nat := MAX_GROUPS): (r: Length)
  {
    if s == [] || budget == 0 then Length(0, 1)
    else if s[0] < 128 then Length(s[0], 1)
    else
      var rest := Decode(s[1..], budget - 1);
      Length(s[0] - 128 + 128 * rest.value, 1 + rest.consumed)
  }

  /** The octets the encoder emits for `n`. */
  function Encode(n: nat): (s: seq<byte>)
    ensures |s| >= 1
  {
    if n < 128 then [n] else [n % 128 + 128] + Encode(n / 128)
  }

  /** A decoded value always fits the groups that were read. */
  lemma {:induction false} DecodeBounded(s: seq<byte>, budget: nat)
    ensures Decode(s, budget).value < Pow128(Decode(s, budget).consumed)
    ensures Decode(s, budget).value < Pow128(budget)
    ensures 1 <= Decode(s, budget).consumed <= budget + 1
    ensures Decode(s, budget).consumed <= |s| + 1
  {
    if s != [] && budget != 0 && s[0] >= 128 {
      DecodeBounded(s[1..], budget - 1);
    } else {
      assert Pow128(1) == 128;
    }
  }

  lemma Pow128Four()
    ensures Pow128(MAX_GROUPS) == 0x1000_0000
  {
    assert Pow128(2) == 128 * Pow128(1);
    assert Pow128(3) == 128 * Pow128(2);
    assert Pow128(4) == 128 * Pow128(3);
  }

  /** Decoding inverts encoding in front of any suffix, and finds exactly the octets emitted. */
  lemma {:induction false} DecodeEncode(n: nat, suffix: seq<byte>, budget: nat)
    requires n < Pow128(budget) && budget >= 1
    ensures Decode(Encode(n) + suffix, budget) == Length(n, |Encode(n)|)
  {
    if n >= 128 {
      assert budget >= 2 by { assert Pow128(1) == 128; }
      assert n / 128 < Pow128(budget - 1);
      DecodeEncode(n / 128, suffix, budget - 1);
      assert (Encode(n) + suffix)[1..] == Encode(n / 128) + suffix;
    }
  }

  /** Past the range of the format the decoder stops after its group budget, one octet late, with
      the value cut down to the groups it read. */
  lemma {:induction false} DecodeEncodeOverlong(n: nat, suffix: seq<byte>, budget: nat)
    requires n >= Pow128(budget)
    ensures Decode(Encode(n) + suffix, budget) == Length(n % Pow128(budget), budget + 1)
    ensures |Encode(n)| > budget
  {
    if budget > 0 {
      var p := Pow128(budget - 1);
      assert n >= 128;
      assert n / 128 >= p;
      DecodeEncodeOverlong(n / 128, suffix, budget - 1);
      assert (Encode(n) + suffix)[1..] == Encode(n / 128) + suffix;
      ModByDigits(n, p);
    }
  }

  lemma ModByDigits(n: nat, p: nat)
    requires p >= 1
    ensures 128 * p >= 1
    ensures n % (128 * p) == n % 128 + 128 * ((n / 128) % p)
  {
    var q, r := (n / 128) / p, (n / 128) % p;
    assert n / 128 == p * q + r;
    assert n == 128 * (p * q + r) + n % 128;
    var low := n % 128 + 128 * r;
    assert 128 * (p * q + r) == (128 * p) * q + 128 * r;
    assert n == (128 * p) * q + low;
    assert 0 <= low < 128 * p;
    ModUnique(n, 128 * p, q, low);
  }

  lemma ModUnique(n: nat, m: nat, q: nat, low: nat)
    requires m >= 1 && n == m * q + low && low < m
    ensures n % m == low
  {
    var q', low' := n / m, n % m;
    assert n == m * q' + low';
    assert q < q' ==> m * q' >= m * (q + 1);
    assert q' < q ==> m * q >= m * (q' + 1);
  }

  /** The number of octets emitted is the number of base-128 digits of `n`. */
  lemma {:induction false} EncodeLength(n: nat, k: nat)
    requires k >= 1
    ensures |Encode(n)| <= k <==> n < Pow128(k)
  {
    if n < 128 {
    } else if k == 1 {
      assert Pow128(1) == 128;
    } else {
      EncodeLength(n / 128, k - 1);
      assert Pow128(k) == 128 * Pow128(k - 1);
    }
  }

  /** Section 2.2.3: within range the encoder emits one to four octets, the decoder takes back the
      value and exactly those octets in front of anything, and no octets that decode to the same
      value with their terminator in sight are fewer. */
  lemma EncodeIsMinimalAndInverse(n: nat, suffix: seq<byte>, other: seq<byte>)
    requires n < 0x1000_0000
    ensures 1 <= |Encode(n)| <= 4
    ensures Decode(Encode(n) + suffix) == Length(n, |Encode(n)|)
    ensures Decode(other).value == n ==> |Encode(n)| <= Decode(other).consumed
  {
    Pow128Four();
    DecodeEncode(n, suffix, MAX_GROUPS);
    EncodeLength(n, MAX_GROUPS);
    DecodeBounded(other, MAX_GROUPS);
    EncodeLength(n, Decode(other).consumed);
  }

  /** A shorter view of the same octets decodes alike as soon as it contains what the decoder
      reports as consumed, and otherwise reports more octets than it has. */
  lemma {:induction false} DecodePrefix(t: seq<byte>, more: seq<byte>, budget: nat)
    ensures Decode(t, budget).consumed <= |t| ==> Decode(t + more, budget) == Decode(t, budget)
    ensures Decode(t + more, budget).consumed <= |t| ==> Decode(t + more, budget) == Decode(t, budget)
  {
    if t == [] {
      DecodeBounded(t, budget);
      DecodeBounded(t + more, budget);
    } else if budget != 0 && t[0] >= 128 {
      assert (t + more)[1..] == t[1..] + more;
      DecodePrefix(t[1..], more, budget - 1);
    }
  }
}
