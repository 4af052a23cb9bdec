/** Fields of MQTT packets: fixed-width integers, length-prefixed byte strings and property blocks. */
module Fields {
  import opened Basics
  import opened Utf8
  import opened VarInt

  datatype Field =
    | Flag(on: bool)
    | Short(short: int)
    | Word(word: int)
    | NonZeroShort(short: int)
    | NonZeroWord(word: int)
    | Binary(bytes: seq<byte>)
    | Text(bytes: seq<byte>)

  datatype Kind = KFlag | KShort | KWord | KNonZeroShort | KNonZeroWord | KBinary | KText

  datatype Error = InvalidLength | MalformedPacket | Utf8Error

  /** A decoded value or an error, with the input that is left in either case. */
  datatype Result<+T> = Ok(value: T, rest: seq<byte>) | Err(error: Error, rest: seq<byte>)

  const MAX_SHORT: int := 0xFFFF
  const MAX_WORD: int := 0xFFFF_FFFF

  /** What the field's type guarantees of its value. */
  predicate WellTyped(f: Field) {
    match f
    case Flag(_) => true
    case Short(n) => 0 <= n <= MAX_SHORT
    case Word(n) => 0 <= n <= MAX_WORD
    case NonZeroShort(n) => 1 <= n <= MAX_SHORT
    case NonZeroWord(n) => 1 <= n <= MAX_WORD
    case Binary(_) => true
    case Text(b) => IsUtf8(b)
  }

  function KindOf(f: Field): (k: Kind) {
    match f
    case Flag(_) => KFlag
    case Short(_) => KShort
    case Word(_) => KWord
    case NonZeroShort(_) => KNonZeroShort
    case NonZeroWord(_) => KNonZeroWord
    case Binary(_) => KBinary
    case Text(_) => KText
  }

  function PutShort(n: int): (r: seq<byte>)
    requires 0 <= n <= MAX_SHORT
  {
    [n / 256, n % 256]
  }

  function PutWord(n: int): (r: seq<byte>)
    requires 0 <= n <= MAX_WORD
  {
    PutShort(n / 0x1_0000) + PutShort(n % 0x1_0000)
  }

  function GetShort(s: seq<byte>): (n: int)
    requires |s| >= 2
    ensures 0 <= n <= MAX_SHORT
  {
    (s[0] as int) * 256 + s[1] as int
  }

  function GetWord(s: seq<byte>): (n: int)
    requires |s| >= 4
    ensures 0 <= n <= MAX_WORD
  {
    GetShort(s) * 0x1_0000 + GetShort(s[2..])
  }

  function EncodedSize(f: Field): (n: nat) {
    match f
    case Flag(_) => 1
    case Short(_) => 2
    case NonZeroShort(_) => 2
    case Word(_) => 4
    case NonZeroWord(_) => 4
    case Binary(b) => 2 + |b|
    case Text(b) => 2 + |b|
  }

  /** A byte string needs a length that fits its 16-bit prefix. */
  predicate Encodable(f: Field) {
    f.Binary? || f.Text? ==> |f.bytes| <= MAX_SHORT
  }

  function EncodeField(f: Field): (r: seq<byte>)
    requires WellTyped(f) && Encodable(f)
  {
    match f
    case Flag(b) => [if b then 1 else 0]
    case Short(n) => PutShort(n)
    case NonZeroShort(n) => PutShort(n)
    case Word(n) => PutWord(n)
    case NonZeroWord(n) => PutWord(n)
    case Binary(b) => PutShort(|b|) + b
    case Text(b) => PutShort(|b|) + b
  }

  function DecodeBytes(src: seq<byte>): (r: Result<seq<byte>>) {
    if |src| < 2 then Err(InvalidLength, src)
    else
      var n := GetShort(src);
      if |src| - 2 < n then Err(InvalidLength, src[2..]) else Ok(src[2..n + 2], src[n + 2..])
  }

  function DecodeField(k: Kind, src: seq<byte>): (r: Result<Field>) {
    match k
    case KFlag =>
      if src == [] then Err(InvalidLength, src)
      else if src[0] > 1 then Err(MalformedPacket, src[1..])
      else Ok(Flag(src[0] == 1), src[1..])
    case KShort => if |src| < 2 then Err(InvalidLength, src) else Ok(Short(GetShort(src)), src[2..])
    case KWord => if |src| < 4 then Err(InvalidLength, src) else Ok(Word(GetWord(src)), src[4..])
    case KNonZeroShort =>
      if |src| < 2 then Err(InvalidLength, src)
      else if GetShort(src) == 0 then Err(MalformedPacket, src[2..])
      else Ok(NonZeroShort(GetShort(src)), src[2..])
    case KNonZeroWord =>
      if |src| < 4 then Err(InvalidLength, src)
      else if GetWord(src) == 0 then Err(MalformedPacket, src[4..])
      else Ok(NonZeroWord(GetWord(src)), src[4..])
    case KBinary => (
      match DecodeBytes(src)
      case Ok(b, rest) => Ok(Binary(b), rest)
      case Err(e, rest) => Err(e, rest))
    case KText =>
      match DecodeBytes(src)
      case Ok(b, rest) => if IsUtf8(b) then Ok(Text(b), rest) else Err(Utf8Error, rest)
      case Err(e, rest) => Err(e, rest)
  }

  /** The front of the input up to a variable-length count of bytes. */
  function TakeProperties(src: seq<byte>): (r: Result<seq<byte>>) {
    match Decode(src)
    case Incomplete => Err(MalformedPacket, [])
    case TooLong => Err(InvalidLength, if |src| >= 4 then src[4..] else [])
    case Value(n, l) =>
      ShortestIn(src, 4);
      if |src| - l < n then Err(InvalidLength, src[l..]) else Ok(src[l..l + n], src[l + n..])
  }

  // ---------------------------------------------------------------------------------------------

  lemma ShortReadsBack(n: int, more: seq<byte>)
    requires 0 <= n <= MAX_SHORT
    ensures GetShort(PutShort(n) + more) == n
    ensures (PutShort(n) + more)[2..] == more
  {
  }

  lemma WordReadsBack(n: int, more: seq<byte>)
    requires 0 <= n <= MAX_WORD
    ensures GetWord(PutWord(n) + more) == n
    ensures (PutWord(n) + more)[4..] == more
  {
    var low := PutShort(n % 0x1_0000);
    assert PutWord(n) + more == PutShort(n / 0x1_0000) + (low + more);
    ShortReadsBack(n / 0x1_0000, low + more);
    ShortReadsBack(n % 0x1_0000, more);
  }

  lemma BytesReadBack(b: seq<byte>, more: seq<byte>)
    requires |b| <= MAX_SHORT
    ensures DecodeBytes(PutShort(|b|) + b + more) == Ok(b, more)
  {
    var src := PutShort(|b|) + b + more;
    assert src == PutShort(|b|) + (b + more);
    ShortReadsBack(|b|, b + more);
    assert src[2..|b| + 2] == b && src[|b| + 2..] == more;
  }

  lemma FieldReadsBack(f: Field, more: seq<byte>)
    requires WellTyped(f) && Encodable(f)
    ensures |EncodeField(f)| == EncodedSize(f)
    ensures DecodeField(KindOf(f), EncodeField(f) + more) == Ok(f, more)
  {
    match f
    case Flag(_) =>
    case Short(n) => ShortReadsBack(n, more);
    case NonZeroShort(n) => ShortReadsBack(n, more);
    case Word(n) => WordReadsBack(n, more);
    case NonZeroWord(n) => WordReadsBack(n, more);
    case Binary(b) => BytesReadBack(b, more);
    case Text(b) => BytesReadBack(b, more);
  }

  /** The number bytes spell, most significant first. */
  ghost function BigEndian(s: seq<byte>): (n: nat) {
    if s == [] then 0 else 256 * BigEndian(s[..|s| - 1]) + s[|s| - 1]
  }

  lemma TwoBigEndian(s: seq<byte>)
    requires |s| == 2
    ensures BigEndian(s) == 256 * (s[0] as int) + s[1] as int
  {
    assert s[..1] == [s[0]] && [s[0]][..0] == [];
    assert BigEndian([s[0]]) == s[0];
  }

  lemma FourBigEndian(s: seq<byte>)
    requires |s| == 4
    ensures BigEndian(s)
      == 0x100_0000 * (s[0] as int) + 0x1_0000 * (s[1] as int) + 256 * (s[2] as int) + s[3] as int
  {
    TwoBigEndian(s[..2]);
    assert s[..3][..2] == s[..2];
    assert BigEndian(s[..3]) == 256 * BigEndian(s[..2]) + s[2];
  }

  lemma GetIsBigEndian(s: seq<byte>)
    ensures |s| >= 2 ==> GetShort(s) == BigEndian(s[..2])
    ensures |s| >= 4 ==> GetWord(s) == BigEndian(s[..4])
  {
    if |s| >= 2 {
      TwoBigEndian(s[..2]);
    }
    if |s| >= 4 {
      FourBigEndian(s[..4]);
    }
  }

  /**
   What is on the wire: a flag is 1 or 0, numbers are in network byte order with their fixed width, a byte
   string follows its length in two bytes.
   */
  lemma FieldOnTheWire(f: Field)
    requires WellTyped(f) && Encodable(f)
    ensures
      var wire := EncodeField(f);
      match f
      case Flag(on) => wire == [if on then 1 else 0]
      case Short(n) => |wire| == 2 && BigEndian(wire) == n
      case NonZeroShort(n) => |wire| == 2 && BigEndian(wire) == n
      case Word(n) => |wire| == 4 && BigEndian(wire) == n
      case NonZeroWord(n) => |wire| == 4 && BigEndian(wire) == n
      case Binary(b) => |wire| == 2 + |b| && BigEndian(wire[..2]) == |b| && wire[2..] == b
      case Text(b) => |wire| == 2 + |b| && BigEndian(wire[..2]) == |b| && wire[2..] == b
  {
    var wire := EncodeField(f);
    FieldReadsBack(f, []);
    assert wire + [] == wire;
    GetIsBigEndian(wire);
    assert |wire| == 2 ==> wire[..2] == wire;
    assert |wire| == 4 ==> wire[..4] == wire;
  }

  lemma ShortWritesBack(s: seq<byte>)
    requires |s| >= 2
    ensures PutShort(GetShort(s)) == s[..2] && s == PutShort(GetShort(s)) + s[2..]
  {
  }

  lemma WordWritesBack(s: seq<byte>)
    requires |s| >= 4
    ensures s == PutWord(GetWord(s)) + s[4..]
  {
    ShortWritesBack(s);
    ShortWritesBack(s[2..]);
    var high, low := GetShort(s), GetShort(s[2..]);
    assert (high * 0x1_0000 + low) / 0x1_0000 == high && (high * 0x1_0000 + low) % 0x1_0000 == low;
    assert s[2..][2..] == s[4..];
  }

  lemma BytesWriteBack(s: seq<byte>)
    requires DecodeBytes(s).Ok?
    ensures
      var r := DecodeBytes(s);
      |r.value| <= MAX_SHORT && s == PutShort(|r.value|) + r.value + r.rest
  {
    ShortWritesBack(s);
    var n := GetShort(s);
    assert s[2..] == s[2..n + 2] + s[n + 2..];
  }

  lemma DecodedWritesBack(k: Kind, src: seq<byte>)
    requires DecodeField(k, src).Ok?
    ensures
      var r := DecodeField(k, src);
      && KindOf(r.value) == k && WellTyped(r.value) && Encodable(r.value)
      && src == EncodeField(r.value) + r.rest
  {
    match k
    case KFlag =>
    case KShort => ShortWritesBack(src);
    case KNonZeroShort => ShortWritesBack(src);
    case KWord => WordWritesBack(src);
    case KNonZeroWord => WordWritesBack(src);
    case KBinary => BytesWriteBack(src);
    case KText => BytesWriteBack(src);
  }

  /** A field is read exactly where its encoding stands: each value has one encoding, and nothing else decodes. */
  lemma DecodesExactly(k: Kind, src: seq<byte>, f: Field, rest: seq<byte>)
    ensures DecodeField(k, src) == Ok(f, rest) <==>
      KindOf(f) == k && WellTyped(f) && Encodable(f) && src == EncodeField(f) + rest
  {
    if DecodeField(k, src) == Ok(f, rest) {
      DecodedWritesBack(k, src);
    }
    if KindOf(f) == k && WellTyped(f) && Encodable(f) && src == EncodeField(f) + rest {
      FieldReadsBack(f, rest);
    }
  }

  /**
   Every error: too few bytes for the fixed part, which then stays unread, or for the announced string;
   text that is not UTF-8, read entirely; and a flag above one or a zero where none may be, read as well.
   */
  lemma FailsExactly(k: Kind, src: seq<byte>)
    requires DecodeField(k, src).Err?
    ensures
      var r := DecodeField(k, src);
      if |src| < (if k == KFlag then 1 else if k == KWord || k == KNonZeroWord then 4 else 2)
      then r == Err(InvalidLength, src)
      else
        match k
        case KFlag => src[0] >= 2 && r == Err(MalformedPacket, src[1..])
        case KNonZeroShort => src[..2] == [0, 0] && r == Err(MalformedPacket, src[2..])
        case KNonZeroWord => src[..4] == [0, 0, 0, 0] && r == Err(MalformedPacket, src[4..])
        case KBinary => |src| < 2 + BigEndian(src[..2]) && r == Err(InvalidLength, src[2..])
        case KText =>
          var end := 2 + BigEndian(src[..2]);
          if |src| < end then r == Err(InvalidLength, src[2..])
          else !IsUtf8(src[2..end]) && r == Err(Utf8Error, src[end..])
        case _ => false
  {
    GetIsBigEndian(src);
    if k == KNonZeroWord && |src| >= 4 {
      assert GetShort(src) == 0 && GetShort(src[2..]) == 0;
    }
  }

  function EncodeAll(fs: seq<Field>): (r: seq<byte>)
    requires forall f :: f in fs ==> WellTyped(f) && Encodable(f)
  {
    if fs == [] then [] else EncodeField(fs[0]) + EncodeAll(fs[1..])
  }

  function SizeOfAll(fs: seq<Field>): (n: nat) {
    if fs == [] then 0 else EncodedSize(fs[0]) + SizeOfAll(fs[1..])
  }

  function KindsOf(fs: seq<Field>): (ks: seq<Kind>) {
    if fs == [] then [] else [KindOf(fs[0])] + KindsOf(fs[1..])
  }

  function DecodeAll(ks: seq<Kind>, src: seq<byte>): (r: Result<seq<Field>>) {
    if ks == [] then Ok([], src)
    else
      match DecodeField(ks[0], src)
      case Err(e, rest) => Err(e, rest)
      case Ok(f, rest) =>
        match DecodeAll(ks[1..], rest)
        case Err(e, rest') => Err(e, rest')
        case Ok(fs, rest') => Ok([f] + fs, rest')
  }

  lemma DecodeCons(f: Field, fs: seq<Field>, src: seq<byte>, rest: seq<byte>, suffix: seq<byte>)
    requires DecodeField(KindOf(f), src) == Ok(f, rest)
    requires DecodeAll(KindsOf(fs), rest) == Ok(fs, suffix)
    ensures DecodeAll([KindOf(f)] + KindsOf(fs), src) == Ok([f] + fs, suffix)
  {
    assert ([KindOf(f)] + KindsOf(fs))[1..] == KindsOf(fs);
  }

  /** Any sequence of fields takes the announced number of bytes and reads back, whatever follows. */
  lemma {:induction false} FieldsRoundTrip(fs: seq<Field>, suffix: seq<byte>)
    requires forall f :: f in fs ==> WellTyped(f) && Encodable(f)
    ensures |EncodeAll(fs)| == SizeOfAll(fs)
    ensures DecodeAll(KindsOf(fs), EncodeAll(fs) + suffix) == Ok(fs, suffix)
  {
    if fs != [] {
      var f, tail := fs[0], fs[1..];
      assert fs == [f] + tail;
      var rest := EncodeAll(tail) + suffix;
      assert EncodeAll(fs) + suffix == EncodeField(f) + rest;
      FieldsRoundTrip(tail, suffix);
      FieldReadsBack(f, rest);
      DecodeCons(f, tail, EncodeAll(fs) + suffix, rest, suffix);
    }
  }

  lemma BlockSplitsOff(block: seq<byte>, suffix: seq<byte>)
    requires |block| <= MAX_VALUE
    ensures TakeProperties(Encode(|block|) + block + suffix) == Ok(block, suffix)
  {
    var head := Encode(|block|);
    var src := head + block + suffix;
    assert src == head + (block + suffix);
    RoundTrip(|block|, block + suffix);
    assert src[|head|..|head| + |block|] == block;
    assert src[|head| + |block|..] == suffix;
  }

  lemma HeaderDecodes(src: seq<byte>)
    requires Decode(src).Value?
    ensures
      var l := Decode(src).length;
      l <= |src| && Decode(src[..l]) == Decode(src)
  {
    ShortestIn(src, 4);
    DecodedAlone(src, 4);
  }

  /** The input begins with a complete length of this value. */
  ghost predicate BeginsWith(src: seq<byte>, header: seq<byte>, n: nat, rest: seq<byte>) {
    src == header + rest && Decode(header) == Value(n, |header|)
  }

  lemma OneLength(src: seq<byte>, header: seq<byte>, n: nat, rest: seq<byte>)
    ensures BeginsWith(src, header, n, rest) <==>
      && Decode(src).Value? && Decode(src).value == n && Decode(src).length == |header|
      && src == header + rest
  {
    if BeginsWith(src, header, n, rest) {
      MoreBytesKeepVerdict(header, rest, 4);
    }
    if Decode(src) == Value(n, |header|) && src == header + rest {
      HeaderDecodes(src);
      assert src[..|header|] == header;
    }
  }

  lemma CutLength(src: seq<byte>) returns (header: seq<byte>, n: nat, rest: seq<byte>)
    requires Decode(src).Value?
    ensures BeginsWith(src, header, n, rest)
    ensures TakeProperties(src) == if |rest| < n then Err(InvalidLength, rest) else Ok(rest[..n], rest[n..])
  {
    HeaderDecodes(src);
    var l := Decode(src).length;
    header, n, rest := src[..l], Decode(src).value, src[l..];
    OneLength(src, header, n, rest);
    if |rest| >= n {
      SlicesOfRest(src, l, n);
    }
  }

  lemma SlicesOfRest(src: seq<byte>, l: nat, n: nat)
    requires l + n <= |src|
    ensures src[l..][..n] == src[l..l + n] && src[l..][n..] == src[l + n..]
  {
  }

  lemma SameCut(src: seq<byte>, h1: seq<byte>, n1: nat, r1: seq<byte>, h2: seq<byte>, n2: nat, r2: seq<byte>)
    requires BeginsWith(src, h1, n1, r1) && BeginsWith(src, h2, n2, r2)
    ensures h1 == h2 && n1 == n2 && r1 == r2
  {
    OneLength(src, h1, n1, r1);
    OneLength(src, h2, n2, r2);
    assert h1 == src[..|h1|] == h2;
    assert r1 == src[|h1|..] == r2;
  }

  /** A block is split off exactly where a length and that many bytes stand. */
  lemma TakesPropertiesExactly(src: seq<byte>, block: seq<byte>, rest: seq<byte>)
    ensures TakeProperties(src) == Ok(block, rest) <==> exists header :: BeginsWith(src, header, |block|, block + rest)
  {
    if TakeProperties(src) == Ok(block, rest) {
      var header, n, all := CutLength(src);
      assert all == block + rest;
    }
    forall header | BeginsWith(src, header, |block|, block + rest) ensures TakeProperties(src) == Ok(block, rest) {
      OneLength(src, header, |block|, block + rest);
      var h, n, all := CutLength(src);
      SameCut(src, h, n, all, header, |block|, block + rest);
      assert all[..n] == block && all[n..] == rest;
    }
  }

  /**
   Otherwise: a length that does not end is malformed and used up; one that goes on after four bytes or
   announces more than what follows is invalid and read.
   */
  lemma PropertiesFailExactly(src: seq<byte>, rest: seq<byte>)
    ensures TakeProperties(src) == Err(MalformedPacket, rest) <==>
      rest == [] && |src| < 4 && forall i :: 0 <= i < |src| ==> src[i] >= 128
    ensures TakeProperties(src) == Err(InvalidLength, rest) <==>
      || (|src| >= 4 && (forall i :: 0 <= i < 4 ==> src[i] >= 128) && rest == src[4..])
      || exists header, n :: BeginsWith(src, header, n, rest) && |rest| < n
    ensures TakeProperties(src).Err? ==> TakeProperties(src).error != Utf8Error
  {
    IncompleteIff(src, 4);
    TooLongIff(src, 4);
    if Decode(src).Value? {
      var header, n, all := CutLength(src);
      forall h, m | BeginsWith(src, h, m, rest) ensures rest == all && m == n {
        SameCut(src, h, m, rest, header, n, all);
      }
    } else {
      forall h, m ensures !BeginsWith(src, h, m, rest) {
        OneLength(src, h, m, rest);
      }
    }
  }

  /** A property block behind its length is split off exactly, and its fields read back. */
  lemma PropertiesSplitOff(fs: seq<Field>, suffix: seq<byte>)
    requires forall f :: f in fs ==> WellTyped(f) && Encodable(f)
    requires SizeOfAll(fs) <= MAX_VALUE
    ensures
      var r := TakeProperties(Encode(SizeOfAll(fs)) + EncodeAll(fs) + suffix);
      r == Ok(EncodeAll(fs), suffix) && DecodeAll(KindsOf(fs), r.value) == Ok(fs, [])
  {
    FieldsRoundTrip(fs, []);
    assert EncodeAll(fs) + [] == EncodeAll(fs);
    BlockSplitsOff(EncodeAll(fs), suffix);
  }

  // ---------------------------------------------------------------------------------------------

  /** A byte buffer that encoders append to and decoders advance. */
  class Buffer {
    var data: seq<byte>

    constructor (data: seq<byte>)
      ensures this.data == data
    {
      this.data := data;
    }

    /** Too long a byte string is refused before anything is written. */
    method Put(f: Field) returns (ok: bool)
      requires WellTyped(f)
      modifies this
      ensures ok == Encodable(f)
      ensures data == old(data) + if ok then EncodeField(f) else []
    {
      ok := true;
      match f {
        case Flag(b) => data := data + [if b then 1 else 0];
        case Short(n) => data := data + PutShort(n);
        case NonZeroShort(n) => data := data + PutShort(n);
        case Word(n) => data := data + PutWord(n);
        case NonZeroWord(n) => data := data + PutWord(n);
        case Binary(b) => ok := PutBytes(b);
        case Text(b) => ok := PutBytes(b);
      }
    }

    method PutBytes(b: seq<byte>) returns (ok: bool)
      modifies this
      ensures ok == (|b| <= MAX_SHORT)
      ensures data == old(data) + if ok then PutShort(|b|) + b else []
    {
      if |b| > MAX_SHORT {
        return false;
      }
      data := data + PutShort(|b|);
      data := data + b;
      return true;
    }

    method Take(k: Kind) returns (r: Result<Field>)
      modifies this
      ensures r == DecodeField(k, old(data)) && data == r.rest
    {
      var need := if k == KFlag then 1 else if k == KWord || k == KNonZeroWord then 4 else 2;
      if |data| < need {
        return Err(InvalidLength, data);
      }
      if k == KBinary || k == KText {
        var bytes := TakeBytes();
        if bytes.Err? {
          return Err(bytes.error, data);
        }
        if k == KBinary {
          return Ok(Binary(bytes.value), data);
        }
        return if IsUtf8(bytes.value) then Ok(Text(bytes.value), data) else Err(Utf8Error, data);
      }
      var front := data[..need];
      data := data[need..];
      match k {
        case KFlag =>
          r := if front[0] > 1 then Err(MalformedPacket, data) else Ok(Flag(front[0] == 1), data);
        case KShort =>
          r := Ok(Short(GetShort(front)), data);
        case KNonZeroShort =>
          var n := GetShort(front);
          r := if n == 0 then Err(MalformedPacket, data) else Ok(NonZeroShort(n), data);
        case KWord =>
          r := Ok(Word(GetWord(front)), data);
        case KNonZeroWord =>
          var n := GetWord(front);
          r := if n == 0 then Err(MalformedPacket, data) else Ok(NonZeroWord(n), data);
      }
    }

    method TakeBytes() returns (r: Result<seq<byte>>)
      modifies this
      ensures r == DecodeBytes(old(data)) && data == r.rest
    {
      if |data| < 2 {
        return Err(InvalidLength, data);
      }
      var n := GetShort(data);
      data := data[2..];
      if |data| < n {
        return Err(InvalidLength, data);
      }
      var bytes := data[..n];
      data := data[n..];
      assert bytes == old(data)[2..n + 2] && data == old(data)[n + 2..];
      return Ok(bytes, data);
    }
  }
}
