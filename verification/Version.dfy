/**
 Detecting the protocol version from the first bytes of a connection (the fixed header, protocol
 name and protocol level of CONNECT, sections 3.1.1 and 3.1.2 of MQTT 3.1.1 and MQTT 5.0).
 */
module Version {
  import opened Basics
  import opened VarInt

  const CONNECT: byte := 0x10
  const MQTT: seq<byte> := [77, 81, 84, 84]
  const MQISDP: seq<byte> := [77, 81, 73, 115, 100, 112]

  datatype ProtocolVersion = MQTT3 | MQTT5

  datatype Error = InvalidLength | InvalidProtocol | UnsupportedPacketType

  datatype Verdict = NeedMore | Detected(version: ProtocolVersion) | Rejected(error: Error)

  function Level(level: byte): (r: Verdict) {
    if level == 3 || level == 4 then Detected(MQTT3)
    else if level == 5 then Detected(MQTT5)
    else Rejected(InvalidProtocol)
  }

  function U16(high: byte, low: byte): (r: nat) {
    (high as int) * 256 + low as int
  }

  /** The bytes after the fixed header, which is `consumed` bytes long. */
  function DetectName(src: seq<byte>, consumed: nat): (r: Verdict)
    requires consumed <= |src|
  {
    if |src| <= consumed + 6 then NeedMore
    else
      var nameLength := U16(src[consumed], src[consumed + 1]);
      if nameLength == 4 then
        if src[consumed + 2..consumed + 6] != MQTT then Rejected(InvalidProtocol)
        else Level(src[consumed + 6])
      else if nameLength == 6 then
        if |src| <= consumed + 8 then NeedMore
        else if src[consumed + 2..consumed + 8] != MQISDP then Rejected(InvalidProtocol)
        else Level(src[consumed + 8])
      else Rejected(InvalidProtocol)
  }

  /** Only reads the buffer; a verdict other than `NeedMore` ends the detection. */
  function Detect(src: seq<byte>): (r: Verdict) {
    if |src| < 2 then NeedMore
    else
      match Decode(src[1..])
      case TooLong => Rejected(InvalidLength)
      case Incomplete => NeedMore
      case Value(_, length) =>
        ShortestIn(src[1..], 4);
        if src[0] == CONNECT then DetectName(src, length + 1) else Rejected(UnsupportedPacketType)
  }

  lemma NameVerdictIsFinal(src: seq<byte>, more: seq<byte>, consumed: nat)
    requires consumed <= |src| && DetectName(src, consumed) != NeedMore
    ensures DetectName(src + more, consumed) == DetectName(src, consumed)
  {
    var all := src + more;
    assert all[consumed + 2..consumed + 6] == src[consumed + 2..consumed + 6];
    if |src| >= consumed + 8 {
      assert all[consumed + 2..consumed + 8] == src[consumed + 2..consumed + 8];
    }
  }

  /** Once a prefix of the stream is accepted or rejected, every longer prefix gets the same verdict. */
  lemma VerdictIsFinal(src: seq<byte>, more: seq<byte>)
    requires Detect(src) != NeedMore
    ensures Detect(src + more) == Detect(src)
  {
    assert (src + more)[1..] == src[1..] + more;
    MoreBytesKeepVerdict(src[1..], more, 4);
    if Decode(src[1..]).Value? && src[0] == CONNECT {
      ShortestIn(src[1..], 4);
      NameVerdictIsFinal(src, more, Decode(src[1..]).length + 1);
    }
  }

  /** However the stream is cut, each look at it either asks for more or gives the verdict on the whole. */
  lemma ChunksDoNotMatter(stream: seq<byte>, seen: nat)
    requires seen <= |stream|
    ensures Detect(stream[..seen]) == NeedMore || Detect(stream[..seen]) == Detect(stream)
  {
    assert stream == stream[..seen] + stream[seen..];
    if Detect(stream[..seen]) != NeedMore {
      VerdictIsFinal(stream[..seen], stream[seen..]);
    }
  }

  /** Fourteen bytes are always enough. */
  lemma FourteenBytesDecide(src: seq<byte>)
    requires |src| >= 14
    ensures Detect(src) != NeedMore
  {
    IncompleteIff(src[1..], 4);
    if Decode(src[1..]).Value? {
      ShortestIn(src[1..], 4);
    }
  }

  // ---------------------------------------------------------------------------------------------
  // What is detected and what is rejected
  // ---------------------------------------------------------------------------------------------

  /** The bytes of a remaining length: up to four, all but the last with the top bit set. */
  ghost predicate IsLength(header: seq<byte>) {
    && 1 <= |header| <= 4 && header[|header| - 1] < 128
    && forall i :: 0 <= i < |header| - 1 ==> header[i] >= 128
  }

  /** A packet of this first byte: the byte, its remaining length, anything. */
  ghost predicate IsPacket(src: seq<byte>, first: byte, header: seq<byte>, rest: seq<byte>) {
    src == [first] + header + rest && IsLength(header)
  }

  /** A protocol name of at most 255 letters with its length in front, a level, anything. */
  ghost predicate IsNamed(rest: seq<byte>, name: seq<byte>, level: byte, more: seq<byte>) {
    |name| < 256 && rest == [0, |name|] + name + [level] + more
  }

  /** The grammar of an accepted stream: a CONNECT packet, MQTT or MQIsdp, the level. */
  ghost predicate IsConnect(src: seq<byte>, level: byte) {
    exists header, rest, name, more ::
      && IsPacket(src, 0x10, header, rest)
      && IsNamed(rest, name, level, more)
      && (name == [77, 81, 84, 84] || name == [77, 81, 73, 115, 100, 112])
  }

  lemma {:induction false} LengthDecodes(header: seq<byte>, room: nat)
    requires IsLength(header) && |header| <= room <= 4
    ensures DecodeIn(header, room).Value? && DecodeIn(header, room).length == |header|
    decreases room
  {
    if |header| > 1 {
      LengthDecodes(header[1..], room - 1);
    }
  }

  /** The bytes of a decoded number are such a length. */
  lemma {:induction false} DecodedIsLength(src: seq<byte>, room: nat)
    requires 1 <= room <= 4 && DecodeIn(src, room).Value?
    ensures
      var l := DecodeIn(src, room).length;
      1 <= l <= room && l <= |src| && IsLength(src[..l])
    decreases room
  {
    if src[0] >= 128 {
      DecodedIsLength(src[1..], room - 1);
      var l := DecodeIn(src, room).length;
      assert src[..l] == [src[0]] + src[1..][..l - 1];
    }
  }

  /** Behind a complete header the first byte and the rest decide. */
  lemma PacketVerdict(src: seq<byte>, first: byte, header: seq<byte>, rest: seq<byte>)
    requires IsPacket(src, first, header, rest)
    ensures Detect(src) == if first == 0x10 then DetectName(src, |header| + 1) else Rejected(UnsupportedPacketType)
    ensures src[|header| + 1..] == rest
  {
    assert src[0] == first && src[1..] == header + rest;
    LengthDecodes(header, 4);
    MoreBytesKeepVerdict(header, rest, 4);
  }

  lemma CutPacket(src: seq<byte>) returns (header: seq<byte>, rest: seq<byte>)
    requires |src| >= 2 && Decode(src[1..]).Value?
    ensures IsPacket(src, src[0], header, rest)
  {
    DecodedIsLength(src[1..], 4);
    var l := Decode(src[1..]).length;
    header, rest := src[1..][..l], src[1..][l..];
    assert src == [src[0]] + src[1..];
  }

  lemma NameAt(src: seq<byte>, c: nat, name: seq<byte>, level: byte, more: seq<byte>)
    requires c <= |src| && IsNamed(src[c..], name, level, more)
    ensures c + 3 + |name| <= |src| && src[c] == 0 && src[c + 1] == |name|
    ensures src[c + 2..c + 2 + |name|] == name && src[c + 2 + |name|] == level
  {
    var rest := src[c..];
    var length: seq<byte> := [0, |name|];
    assert rest == length + (name + [level] + more);
    assert rest == length + name + ([level] + more);
    assert rest[0] == 0 && rest[1] == |name|;
    assert rest[2..2 + |name|] == name && rest[2 + |name|] == level;
  }

  lemma CutName(rest: seq<byte>, n: byte)
    requires |rest| >= 3 + n && rest[0] == 0 && rest[1] == n
    ensures IsNamed(rest, rest[2..2 + n], rest[2 + n], rest[3 + n..])
  {
  }

  /** A finished name of either spelling: the level alone decides. */
  lemma NamedVerdict(src: seq<byte>, c: nat, name: seq<byte>, level: byte, more: seq<byte>)
    requires c <= |src| && IsNamed(src[c..], name, level, more)
    requires name == [77, 81, 84, 84] || name == [77, 81, 73, 115, 100, 112]
    ensures DetectName(src, c) ==
      if level == 5 then Detected(MQTT5)
      else if level == 3 || level == 4 then Detected(MQTT3)
      else Rejected(InvalidProtocol)
  {
    NameAt(src, c, name, level, more);
  }

  lemma DetectedName(src: seq<byte>, c: nat) returns (name: seq<byte>, level: byte, more: seq<byte>)
    requires c <= |src| && DetectName(src, c).Detected?
    ensures IsNamed(src[c..], name, level, more)
    ensures name == [77, 81, 84, 84] || name == [77, 81, 73, 115, 100, 112]
  {
    var n := if U16(src[c], src[c + 1]) == 4 then 4 else 6;
    var rest := src[c..];
    CutName(rest, n);
    name, level, more := rest[2..2 + n], rest[2 + n], rest[3 + n..];
    assert name == src[c + 2..c + 2 + n];
  }

  lemma ConnectVerdict(src: seq<byte>, level: byte)
    requires IsConnect(src, level)
    ensures Detect(src) ==
      if level == 5 then Detected(MQTT5)
      else if level == 3 || level == 4 then Detected(MQTT3)
      else Rejected(InvalidProtocol)
  {
    var header, rest, name, more :|
      && IsPacket(src, 0x10, header, rest)
      && IsNamed(rest, name, level, more)
      && (name == [77, 81, 84, 84] || name == [77, 81, 73, 115, 100, 112]);
    PacketVerdict(src, 0x10, header, rest);
    NamedVerdict(src, |header| + 1, name, level, more);
  }

  lemma DetectedConnect(src: seq<byte>) returns (level: byte)
    requires Detect(src).Detected?
    ensures IsConnect(src, level)
  {
    var header, rest := CutPacket(src);
    PacketVerdict(src, src[0], header, rest);
    var name, l, more := DetectedName(src, |header| + 1);
    level := l;
  }

  /**
   MQTT 5.0 is detected exactly in CONNECT packets of either protocol name with level 5, and MQTT 3
   exactly in those with level 3 or 4.
   */
  lemma DetectsExactlyConnect(src: seq<byte>)
    ensures Detect(src) == Detected(MQTT5) <==> IsConnect(src, 5)
    ensures Detect(src) == Detected(MQTT3) <==> IsConnect(src, 3) || IsConnect(src, 4)
  {
    if Detect(src).Detected? {
      var level := DetectedConnect(src);
      ConnectVerdict(src, level);
    }
    forall level | IsConnect(src, level) && level in {3, 4, 5}
      ensures Detect(src) == if level == 5 then Detected(MQTT5) else Detected(MQTT3)
    {
      ConnectVerdict(src, level);
    }
  }

  /** What follows the header of a CONNECT packet has a name that cannot be accepted, or the level cannot. */
  ghost predicate IsForeign(rest: seq<byte>) {
    && |rest| >= 7
    && (if rest[..2] == [0, 4] then rest[2..6] != [77, 81, 84, 84] || rest[6] !in {3, 4, 5}
        else if rest[..2] == [0, 6] then
          |rest| >= 9 && (rest[2..8] != [77, 81, 73, 115, 100, 112] || rest[8] !in {3, 4, 5})
        else true)
  }

  lemma ForeignName(src: seq<byte>, c: nat)
    requires c <= |src|
    ensures DetectName(src, c) == Rejected(InvalidProtocol) <==> IsForeign(src[c..])
    ensures DetectName(src, c).Rejected? ==> DetectName(src, c) == Rejected(InvalidProtocol)
  {
    var rest := src[c..];
    if |rest| >= 7 {
      assert rest[..2] == [src[c], src[c + 1]];
      assert rest[2..6] == src[c + 2..c + 6];
      assert |rest| >= 9 ==> rest[2..8] == src[c + 2..c + 8];
    }
  }

  /**
   Every rejection: a remaining length of more than four bytes; a complete one behind another first byte
   than that of CONNECT; and behind the right one a finished name of another length or other letters,
   or another level. All other streams that are not accepted ask for more.
   */
  lemma RejectsExactly(src: seq<byte>)
    ensures Detect(src) == Rejected(InvalidLength) <==>
      |src| >= 5 && src[1] >= 128 && src[2] >= 128 && src[3] >= 128 && src[4] >= 128
    ensures Detect(src) == Rejected(UnsupportedPacketType) <==>
      exists first, header, rest :: first != 0x10 && IsPacket(src, first, header, rest)
    ensures Detect(src) == Rejected(InvalidProtocol) <==>
      exists header, rest :: IsPacket(src, 0x10, header, rest) && IsForeign(rest)
  {
    LengthVerdict(src);
    if Detect(src).Rejected? && Detect(src).error != InvalidLength {
      var header, rest := CutPacket(src);
      PacketVerdict(src, src[0], header, rest);
      ForeignName(src, |header| + 1);
    }
    forall first, header, rest | IsPacket(src, first, header, rest)
      ensures first != 0x10 ==> Detect(src) == Rejected(UnsupportedPacketType)
      ensures first == 0x10 && IsForeign(rest) ==> Detect(src) == Rejected(InvalidProtocol)
    {
      PacketVerdict(src, first, header, rest);
      ForeignName(src, |header| + 1);
    }
  }

  lemma LengthVerdict(src: seq<byte>)
    ensures Detect(src) == Rejected(InvalidLength) <==>
      |src| >= 5 && src[1] >= 128 && src[2] >= 128 && src[3] >= 128 && src[4] >= 128
    ensures Detect(src).Rejected? && Detect(src).error != InvalidLength ==> |src| >= 2 && Decode(src[1..]).Value?
  {
    if |src| >= 2 {
      TooLongIff(src[1..], 4);
      if Decode(src[1..]) == TooLong {
        assert forall i :: 0 <= i < 4 ==> src[1..][i] == src[i + 1];
      } else if Decode(src[1..]).Value? {
        ShortestIn(src[1..], 4);
        ForeignName(src, Decode(src[1..]).length + 1);
      }
    }
  }
}
