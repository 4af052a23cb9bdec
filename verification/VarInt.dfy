/**
 MQTT variable byte integers (section 2.2.3 of MQTT 3.1.1, section 1.5.5 of MQTT 5.0): seven bits a
 byte, least significant first, the top bit set on every byte but the last, four bytes at most.
 */
module VarInt {
  import opened Basics

  /** The largest value four bytes can carry. */
  const MAX_VALUE: nat := 268_435_455

  /** `Value` with the number of bytes read; the other two are the decoder's two errors. */
  datatype Decoded = Value(value: nat, length: nat) | Incomplete | TooLong

  /** The number at the front of the input, when at most `room` bytes may spell it. */
  function DecodeIn(src: seq<byte>, room: nat): (r: Decoded)
    requires room >= 1
    decreases room
  {
    if src == [] then Incomplete
    else if src[0] < 128 then Value(src[0], 1)
    else if room == 1 then TooLong
    else
      match DecodeIn(src[1..], room - 1)
      case Value(v, l) => Value(src[0] - 128 + 128 * v, l + 1)
      case Incomplete => Incomplete
      case TooLong => TooLong
  }

  function Decode(src: seq<byte>): (r: Decoded) {
    DecodeIn(src, 4)
  }

  /** A number whose lower part and its number of bytes are already known. */
  ghost function After(low: nat, weight: nat, pos: nat, upper: Decoded): (r: Decoded) {
    if upper.Value? then Value(low + weight * upper.value, pos + upper.length) else upper
  }

  /** Reads byte by byte, adding each seven bits in at the current shift. */
  method DecodeVariableLength(src: seq<byte>) returns (r: Decoded)
    ensures r == Decode(src)
  {
    var weight: nat, len: nat, pos := 1, 0, 0;
    assert src[pos..] == src;
    while true
      invariant 0 <= pos <= 3 && pos <= |src|
      invariant After(len, weight, pos, DecodeIn(src[pos..], 4 - pos)) == Decode(src)
      decreases 3 - pos
    {
      if pos == |src| {
        return Incomplete;
      }
      var val: int := src[pos];
      var digit: nat := if val < 128 then val else val - 128;
      ghost var low := len;
      Distribute(weight, digit, 0);
      len := len + weight * digit;
      if val < 128 {
        r := Value(len, pos + 1);
        return;
      }
      if pos == 3 {
        return TooLong;
      }
      ContinueStep(src, low, weight, pos);
      weight, pos := weight * 128, pos + 1;
    }
  }

  lemma Distribute(weight: nat, digit: nat, v: nat)
    ensures weight * (digit + 128 * v) == weight * digit + weight * 128 * v
    ensures weight * digit >= 0
  {
  }

  lemma ContinueStep(src: seq<byte>, low: nat, weight: nat, pos: nat)
    requires pos < 3 && pos < |src| && src[pos] >= 128
    ensures After(low, weight, pos, DecodeIn(src[pos..], 4 - pos))
      == After(low + weight * (src[pos] - 128), weight * 128, pos + 1, DecodeIn(src[pos + 1..], 3 - pos))
  {
    assert src[pos..][1..] == src[pos + 1..];
    var upper := DecodeIn(src[pos + 1..], 3 - pos);
    if upper.Value? {
      Distribute(weight, src[pos] - 128, upper.value);
    }
  }

  /** The writer's four cases. */
  function Encode(n: nat): (r: seq<byte>)
    requires n <= MAX_VALUE
  {
    if n <= 127 then [n]
    else if n <= 16_383 then [n % 128 + 128, n / 128]
    else if n <= 2_097_151 then [n % 128 + 128, n / 128 % 128 + 128, n / 16_384]
    else [n % 128 + 128, n / 128 % 128 + 128, n / 16_384 % 128 + 128, n / 2_097_152]
  }

  /** The four cases are one rule: the low seven bits, then the rest. */
  lemma EncodeRest(n: nat)
    requires n <= MAX_VALUE
    ensures n < 128 ==> Encode(n) == [n]
    ensures n >= 128 ==> Encode(n) == [n % 128 + 128] + Encode(n / 128)
  {
    assert n / 128 / 128 == n / 16_384;
    assert n / 128 / 16_384 == n / 2_097_152;
  }

  /** Bytes that arrive later do not change a verdict already given. */
  lemma {:induction false} MoreBytesKeepVerdict(src: seq<byte>, more: seq<byte>, room: nat)
    requires room >= 1 && DecodeIn(src, room) != Incomplete
    ensures DecodeIn(src + more, room) == DecodeIn(src, room)
    decreases room
  {
    assert (src + more)[1..] == src[1..] + more;
    if src[0] >= 128 && room > 1 {
      MoreBytesKeepVerdict(src[1..], more, room - 1);
    }
  }

  /** Exactly the inputs of fewer bytes than there is room for, all continuing, are incomplete. */
  lemma {:induction false} IncompleteIff(src: seq<byte>, room: nat)
    requires room >= 1
    ensures DecodeIn(src, room) == Incomplete <==> |src| < room && forall i :: 0 <= i < |src| ==> src[i] >= 128
    decreases room
  {
    if src != [] && src[0] >= 128 && room > 1 {
      IncompleteIff(src[1..], room - 1);
      assert (forall i :: 0 <= i < |src[1..]| ==> src[1..][i] >= 128)
          ==> forall i :: 0 <= i < |src| ==> src[i] >= 128 by {
        if forall i :: 0 <= i < |src[1..]| ==> src[1..][i] >= 128 {
          forall i | 0 <= i < |src| ensures src[i] >= 128 {
            assert i > 0 ==> src[1..][i - 1] == src[i];
          }
        }
      }
    }
  }

  /** Exactly the inputs that begin with as many continuing bytes as there is room for are too long. */
  lemma {:induction false} TooLongIff(src: seq<byte>, room: nat)
    requires 1 <= room <= 4
    ensures DecodeIn(src, room) == TooLong <==> |src| >= room && forall i :: 0 <= i < room ==> src[i] >= 128
    decreases room
  {
    if src != [] && src[0] >= 128 && room > 1 {
      TooLongIff(src[1..], room - 1);
      if DecodeIn(src, room) == TooLong {
        forall i | 0 <= i < room ensures src[i] >= 128 {
          assert i > 0 ==> src[1..][i - 1] == src[i];
        }
      }
    }
  }

  /** The bytes of a decoded number decode on their own. */
  lemma {:induction false} DecodedAlone(src: seq<byte>, room: nat)
    requires 1 <= room <= 4 && DecodeIn(src, room).Value?
    ensures DecodeIn(src, room).length <= |src|
    ensures DecodeIn(src[..DecodeIn(src, room).length], room) == DecodeIn(src, room)
    decreases room
  {
    if src[0] >= 128 {
      DecodedAlone(src[1..], room - 1);
      var l := DecodeIn(src, room).length;
      assert src[..l][1..] == src[1..][..l - 1];
    }
  }

  /** The number digits of seven bits spell, least significant first. */
  ghost function LittleEndian(s: seq<byte>): (n: nat) {
    if s == [] then 0 else (s[0] as int) % 128 + 128 * LittleEndian(s[1..])
  }

  /** The value of a decoded number is what the low seven bits of its bytes spell, the last of them below 128. */
  lemma {:induction false} ValueIsPositional(src: seq<byte>, room: nat)
    requires 1 <= room <= 4 && DecodeIn(src, room).Value?
    ensures
      var v, l := DecodeIn(src, room).value, DecodeIn(src, room).length;
      && 1 <= l <= room && l <= |src|
      && v == LittleEndian(src[..l]) && src[l - 1] < 128 && forall i :: 0 <= i < l - 1 ==> src[i] >= 128
    decreases room
  {
    var l := DecodeIn(src, room).length;
    if src[0] < 128 {
      assert src[..1][1..] == [];
    } else {
      ValueIsPositional(src[1..], room - 1);
      assert src[..l][1..] == src[1..][..l - 1];
      assert forall i :: 1 <= i < l ==> src[i] == src[1..][i - 1];
    }
  }

  lemma {:induction false} EncodedLength(n: nat, room: nat)
    requires n <= MAX_VALUE && 1 <= room <= 4
    requires n < if room == 1 then 128 else if room == 2 then 16_384 else if room == 3 then 2_097_152 else 268_435_456
    ensures DecodeIn(Encode(n), room) == Value(n, |Encode(n)|)
    decreases room
  {
    EncodeRest(n);
    if n >= 128 {
      EncodedLength(n / 128, room - 1);
      assert Encode(n)[1..] == Encode(n / 128);
    }
  }

  /** A written value reads back, whatever follows it in the stream, with exactly the written length. */
  lemma RoundTrip(n: nat, suffix: seq<byte>)
    requires n <= MAX_VALUE
    ensures Decode(Encode(n) + suffix) == Value(n, |Encode(n)|)
  {
    EncodedLength(n, 4);
    MoreBytesKeepVerdict(Encode(n), suffix, 4);
  }

  /** A value that has only partly arrived is never taken for another one. */
  lemma StrictPrefixIsIncomplete(n: nat, k: nat)
    requires n <= MAX_VALUE && k < |Encode(n)|
    ensures Decode(Encode(n)[..k]) == Incomplete
  {
    IncompleteIff(Encode(n)[..k], 4);
  }

  lemma {:induction false} ShortestIn(src: seq<byte>, room: nat)
    requires 1 <= room <= 4 && DecodeIn(src, room).Value?
    ensures
      var v, l := DecodeIn(src, room).value, DecodeIn(src, room).length;
      && v < (if room == 1 then 128 else if room == 2 then 16_384 else if room == 3 then 2_097_152 else 268_435_456)
      && 1 <= l <= room && l <= |src|
      && |Encode(v)| <= l
      && (|Encode(v)| == l ==> src[..l] == Encode(v))
    decreases room
  {
    var v, l := DecodeIn(src, room).value, DecodeIn(src, room).length;
    if src[0] >= 128 {
      ShortestIn(src[1..], room - 1);
      var upper := DecodeIn(src[1..], room - 1).value;
      assert v / 128 == upper && v % 128 == src[0] - 128;
      EncodeRest(v);
      assert src[..l] == [src[0]] + src[1..][..l - 1];
    }
  }

  /**
   No decoded value exceeds the bound; the writer's form of it is the shortest the decoder accepts,
   and the only one of that length.
   */
  lemma WriterIsShortest(src: seq<byte>)
    requires Decode(src).Value?
    ensures
      var v, l := Decode(src).value, Decode(src).length;
      && v <= MAX_VALUE
      && 1 <= l <= 4 && l <= |src|
      && |Encode(v)| <= l
      && (|Encode(v)| == l ==> src[..l] == Encode(v))
  {
    ShortestIn(src, 4);
  }
}
