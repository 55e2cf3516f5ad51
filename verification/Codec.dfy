/**
 The two framings of Net/src/Codec.cpp: messages that end with a line break, and messages after a magic
 word and a length of four bytes in network order.

 `tryDecode` returns how many bytes a first frame takes, 0 when there is no whole frame yet and -1 for
 bytes that are no frame; the message is what it points to.
 */
module Codec {
  import opened Modular
  import opened TcpBuffer

  type Bytes = seq<Byte>

  datatype Decoded = Decoded(size: int, msg: Bytes)

  const CR: Byte := 13
  const LF: Byte := 10
  const EOT: Byte := 4

  // ---------------------------------------------------------------- the line codec

  function LineFrame(msg: Bytes): Bytes {
    msg + [CR, LF]
  }

  /** What tryDecode finds when the first i bytes have no line break. */
  function LineFrom(data: Bytes, i: nat): Decoded
    requires i <= |data|
    decreases |data| - i
  {
    if i == |data| then Decoded(0, [])
    else if data[i] == LF then Decoded(i + 1, data[..if i > 0 && data[i - 1] == CR then i - 1 else i])
    else LineFrom(data, i + 1)
  }

  /** A single end-of-transmission byte is a message of its own. */
  function LineDecode(data: Bytes): Decoded {
    if |data| == 1 && data[0] == EOT then Decoded(1, data) else LineFrom(data, 0)
  }

  method LineTryDecode(data: Bytes) returns (decoded: Decoded)
    ensures decoded == LineDecode(data)
  {
    if |data| == 1 && data[0] == EOT {
      return Decoded(1, data);
    }
    for i := 0 to |data|
      invariant LineFrom(data, 0) == LineFrom(data, i)
    {
      if data[i] == LF {
        var end := if i > 0 && data[i - 1] == CR then i - 1 else i;
        return Decoded(i + 1, data[..end]);
      }
    }
    decoded := Decoded(0, []);
  }

  method LineEncode(msg: Bytes, buf: TcpBuffer)
    requires buf.Valid()
    modifies buf`buffer, buf`readIndex, buf`writeIndex, buf.buffer
    ensures buf.Valid() && buf.Contents() == old(buf.Contents()) + LineFrame(msg)
  {
    buf.Append(msg);
    buf.Append([CR, LF]);
  }

  lemma {:induction false} LineFromFound(data: Bytes, i: nat, k: nat)
    requires i <= k < |data| && data[k] == LF && forall j :: i <= j < k ==> data[j] != LF
    ensures LineFrom(data, i) == Decoded(k + 1, data[..if k > 0 && data[k - 1] == CR then k - 1 else k])
    decreases k - i
  {
    if i < k {
      LineFromFound(data, i + 1, k);
    }
  }

  lemma {:induction false} LineFromNone(data: Bytes, i: nat)
    requires i <= |data| && forall j :: i <= j < |data| ==> data[j] != LF
    ensures LineFrom(data, i) == Decoded(0, [])
    decreases |data| - i
  {
    if i < |data| {
      LineFromNone(data, i + 1);
    }
  }

  /** A line's frame decodes to the line, whatever follows, exactly when the line has no line break. */
  lemma LineRoundTrip(msg: Bytes, rest: Bytes)
    ensures LineDecode(LineFrame(msg) + rest) == Decoded(|msg| + 2, msg) <==> LF !in msg
  {
    var data := LineFrame(msg) + rest;
    if LF !in msg {
      forall j | 0 <= j < |msg| + 1
        ensures data[j] != LF
      {
        assert j < |msg| ==> data[j] == msg[j];
      }
      LineFromFound(data, 0, |msg| + 1);
      assert data[..|msg|] == msg;
    } else {
      var k := FirstBreak(msg);
      assert data[k] == msg[k] && forall j :: 0 <= j < k ==> data[j] == msg[j];
      LineFromFound(data, 0, k);
    }
  }

  lemma {:induction false} FirstBreak(msg: Bytes) returns (k: nat)
    requires LF in msg
    ensures k < |msg| && msg[k] == LF && forall j :: 0 <= j < k ==> msg[j] != LF
  {
    if msg[0] == LF {
      k := 0;
    } else {
      k := FirstBreak(msg[1..]);
      k := k + 1;
      forall j | 0 <= j < k
        ensures msg[j] != LF
      {
        assert j > 0 ==> msg[j] == msg[1..][j - 1];
      }
    }
  }

  /** A part of a frame decodes to nothing, unless it is a single end-of-transmission byte. */
  lemma LinePrefix(msg: Bytes, k: nat)
    requires LF !in msg && k < |LineFrame(msg)|
    ensures LineDecode(LineFrame(msg)[..k]).size == (if LineFrame(msg)[..k] == [EOT] then 1 else 0)
  {
    var data := LineFrame(msg)[..k];
    forall j | 0 <= j < |data|
      ensures data[j] != LF
    {
      assert j < |msg| ==> data[j] == msg[j];
    }
    LineFromNone(data, 0);
  }

  /** The case that does not wait for the rest of the frame. */
  lemma LinePrefixTaken()
    ensures LineDecode(LineFrame([EOT, 65])[..1]) == Decoded(1, [EOT])
  {
    assert LineFrame([EOT, 65])[..1] == [EOT];
  }

  lemma {:induction false} LineFromIs(data: Bytes, i: nat)
    requires i <= |data| && forall j :: 0 <= j < i ==> data[j] != LF
    ensures var d := LineFrom(data, i);
      if LF in data then
        && i < d.size <= |data| && data[d.size - 1] == LF && (forall j :: 0 <= j < d.size - 1 ==> data[j] != LF)
        && d.msg == data[..if d.size > 1 && data[d.size - 2] == CR then d.size - 2 else d.size - 1]
      else d == Decoded(0, [])
    decreases |data| - i
  {
    if i < |data| && data[i] != LF {
      LineFromIs(data, i + 1);
    }
  }

  /** What any bytes decode to: the first line, without its break (10, or 13 and 10); nothing without a break,
      but for a single byte 4. */
  lemma LineDecodeExactly(data: Bytes)
    ensures var d := LineDecode(data);
      if data == [4] then d == Decoded(1, [4])
      else if 10 !in data then d == Decoded(0, [])
      else
        && 0 < d.size <= |data| && 10 !in data[..d.size - 1]
        && data[..d.size] == d.msg + (if |d.msg| + 2 == d.size then [13, 10] else [10])
        && |d.msg| + 1 <= d.size <= |d.msg| + 2
        && (|d.msg| + 1 == d.size ==> d.msg == [] || d.msg[|d.msg| - 1] != 13)
  {
    if data != [4] {
      LineFromIs(data, 0);
    }
  }

  // ---------------------------------------------------------------- the length codec

  const MAGIC: Bytes := [109, 66, 100, 84]
  const MAX_LENGTH := 1024 * 1024

  /** Four bytes in network order; a longer length is cut off. */
  function BigEndian(n: nat): (b: Bytes)
    ensures |b| == 4
  {
    var q1 := n / 0x100;
    var q2 := q1 / 0x100;
    var q3 := q2 / 0x100;
    [(q3 % 0x100) as Byte, (q2 % 0x100) as Byte, (q1 % 0x100) as Byte, (n % 0x100) as Byte]
  }

  function FromBigEndian(b: Bytes): nat
    requires |b| == 4
  {
    b[0] as nat * 0x1000000 + b[1] as nat * 0x10000 + b[2] as nat * 0x100 + b[3] as nat
  }

  lemma Digits(n: nat, d0: nat, q1: nat, d1: nat, q2: nat, d2: nat, q3: nat, d3: nat, q4: nat)
    requires n == 0x100 * q1 + d0 && q1 == 0x100 * q2 + d1 && q2 == 0x100 * q3 + d2 && q3 == 0x100 * q4 + d3
    requires d0 < 0x100 && d1 < 0x100 && d2 < 0x100 && d3 < 0x100
    ensures n % 0x1_0000_0000 == d3 * 0x1000000 + d2 * 0x10000 + d1 * 0x100 + d0
  {
    DivModIs(n, q4, d3 * 0x1000000 + d2 * 0x10000 + d1 * 0x100 + d0, 0x1_0000_0000);
  }

  lemma BigEndianInverse(n: nat)
    ensures FromBigEndian(BigEndian(n)) == n % 0x1_0000_0000
  {
    var q1 := n / 0x100;
    var q2 := q1 / 0x100;
    var q3 := q2 / 0x100;
    Digits(n, n % 0x100, q1, q1 % 0x100, q2, q2 % 0x100, q3, q3 % 0x100, q3 / 0x100);
  }

  function LengthFrame(msg: Bytes): Bytes {
    MAGIC + BigEndian(|msg|) + msg
  }

  function LengthDecode(data: Bytes): Decoded {
    if |data| < 8 then Decoded(0, [])
    else
      var len := FromBigEndian(data[4..8]);
      if len > MAX_LENGTH || data[..4] != MAGIC then Decoded(-1, [])
      else if |data| >= len + 8 then Decoded(len + 8, data[8..8 + len])
      else Decoded(0, [])
  }

  method LengthEncode(msg: Bytes, buf: TcpBuffer)
    requires buf.Valid()
    modifies buf`buffer, buf`readIndex, buf`writeIndex, buf.buffer
    ensures buf.Valid() && buf.Contents() == old(buf.Contents()) + LengthFrame(msg)
  {
    buf.Append(MAGIC);
    buf.Append(BigEndian(|msg|));
    buf.Append(msg);
  }

  lemma LengthHeader(msg: Bytes, rest: Bytes)
    ensures var data := LengthFrame(msg) + rest;
      |data| >= 8 && data[..4] == MAGIC && FromBigEndian(data[4..8]) == |msg| % 0x1_0000_0000 && data[8..] == msg + rest
  {
    var data := LengthFrame(msg) + rest;
    assert data[4..8] == BigEndian(|msg|);
    BigEndianInverse(|msg|);
    assert data[8..] == msg + rest;
    assert data[..4] == MAGIC;
  }

  /** A message's frame decodes to the message, whatever follows, exactly when it is not too long. */
  lemma LengthRoundTrip(msg: Bytes, rest: Bytes)
    ensures LengthDecode(LengthFrame(msg) + rest) == Decoded(|msg| + 8, msg) <==> |msg| <= MAX_LENGTH
  {
    hide LengthFrame, FromBigEndian, BigEndian;
    var data := LengthFrame(msg) + rest;
    LengthHeader(msg, rest);
    if |msg| <= MAX_LENGTH {
      assert data[8..8 + |msg|] == data[8..][..|msg|] == msg;
    }
  }

  lemma BigEndianBytes(b: Bytes)
    requires |b| == 4
    ensures BigEndian(FromBigEndian(b)) == b
  {
    var n := FromBigEndian(b);
    var b0, b1, b2, b3 := b[0] as nat, b[1] as nat, b[2] as nat, b[3] as nat;
    DivModIs(n, 0x10000 * b0 + 0x100 * b1 + b2, b3, 0x100);
    DivModIs(0x10000 * b0 + 0x100 * b1 + b2, 0x100 * b0 + b1, b2, 0x100);
    DivModIs(0x100 * b0 + b1, b0, b1, 0x100);
    DivModIs(b0, 0, b0, 0x100);
    assert b == [b[0], b[1], b[2], b[3]];
  }

  /** The length that the bytes say. */
  function LengthOf(data: Bytes): nat
    requires |data| >= 8
  {
    0x1000000 * data[4] as nat + 0x10000 * data[5] as nat + 0x100 * data[6] as nat + data[7] as nat
  }

  /** Any bytes decode to a message exactly when they start with its frame and it is not too long. */
  lemma LengthDecodeSound(data: Bytes, msg: Bytes)
    ensures LengthDecode(data) == Decoded(|msg| + 8, msg) <==> |msg| <= 1048576 && LengthFrame(msg) <= data
  {
    hide LengthFrame, LengthDecode;
    if LengthFrame(msg) <= data {
      var rest := data[|LengthFrame(msg)|..];
      assert data == LengthFrame(msg) + rest;
      LengthRoundTrip(msg, rest);
    }
    if LengthDecode(data) == Decoded(|msg| + 8, msg) {
      FrameDecoded(data, msg);
    }
  }

  lemma FrameDecoded(data: Bytes, msg: Bytes)
    requires LengthDecode(data) == Decoded(|msg| + 8, msg)
    ensures |msg| <= MAX_LENGTH && LengthFrame(msg) <= data
  {
    hide FromBigEndian, BigEndian;
    BigEndianBytes(data[4..8]);
    assert data[..|msg| + 8] == data[..4] + data[4..8] + data[8..8 + |msg|];
  }

  /** Bytes are refused exactly when their first eight are there and do not start with "mBdT", or say a length
      above 2^20; they are whole exactly when neither is so and the length is there. */
  lemma LengthDecodeExactly(data: Bytes)
    ensures var size := LengthDecode(data).size;
      && (size == -1 <==> |data| >= 8 && (data[..4] != [109, 66, 100, 84] || LengthOf(data) > 1048576))
      && (size > 0 <==> |data| >= 8 && data[..4] == [109, 66, 100, 84] && LengthOf(data) <= 1048576 && |data| >= LengthOf(data) + 8)
      && -1 <= size && (size > 0 ==> size == LengthOf(data) + 8 && LengthDecode(data).msg == data[8..size])
  {
  }

  /** Byte by byte, what a frame is. */
  lemma FrameBytes(msg: Bytes)
    ensures LengthFrame([65]) == [109, 66, 100, 84, 0, 0, 0, 1, 65] && LineFrame([65]) == [65, 13, 10]
    ensures |LengthFrame(msg)| == |msg| + 8 && LengthFrame(msg)[..4] == [109, 66, 100, 84] && LengthFrame(msg)[8..] == msg
    ensures LengthOf(LengthFrame(msg)) == |msg| % 4294967296
  {
    LengthHeader(msg, []);
    assert LengthFrame(msg) + [] == LengthFrame(msg);
    DivModIs(1, 0, 1, 0x100);
    DivModIs(0, 0, 0, 0x100);
  }

  /** A part of a frame decodes to nothing yet. */
  lemma LengthPrefix(msg: Bytes, k: nat)
    requires |msg| <= MAX_LENGTH && k < |LengthFrame(msg)|
    ensures LengthDecode(LengthFrame(msg)[..k]) == Decoded(0, [])
  {
    hide LengthFrame, FromBigEndian, BigEndian;
    LengthHeader(msg, []);
    assert LengthFrame(msg) + [] == LengthFrame(msg);
    var data := LengthFrame(msg)[..k];
    if k >= 8 {
      assert data[4..8] == LengthFrame(msg)[4..8] && data[..4] == LengthFrame(msg)[..4];
    }
  }

  // ---------------------------------------------------------------- streams

  /** The messages taken off the front of a stream, and the bytes that are left. */
  datatype Stream = Stream(msgs: seq<Bytes>, rest: Bytes)

  function LineDecodeAll(data: Bytes): Stream {
    var d := LineDecode(data);
    if d.size <= 0 then Stream([], data)
    else
      LineSize(data);
      var tail := LineDecodeAll(data[d.size..]);
      Stream([d.msg] + tail.msgs, tail.rest)
  }

  lemma LineSize(data: Bytes)
    ensures 0 <= LineDecode(data).size <= |data|
  {
    LineFromSize(data, 0);
  }

  lemma {:induction false} LineFromSize(data: Bytes, i: nat)
    requires i <= |data|
    ensures 0 <= LineFrom(data, i).size <= |data|
    decreases |data| - i
  {
    if i < |data| {
      LineFromSize(data, i + 1);
    }
  }

  function LineFrames(msgs: seq<Bytes>): Bytes {
    if msgs == [] then [] else LineFrame(msgs[0]) + LineFrames(msgs[1..])
  }

  /** Decoding again and again what was encoded message by message gives the messages back; a part of one
      more frame is left for later, unless it is a single end-of-transmission byte. */
  lemma {:induction false} LineStream(msgs: seq<Bytes>, last: Bytes, k: nat)
    requires forall j :: 0 <= j < |msgs| ==> LF !in msgs[j]
    requires LF !in last && k < |LineFrame(last)| && LineFrame(last)[..k] != [EOT]
    ensures LineDecodeAll(LineFrames(msgs) + LineFrame(last)[..k]) == Stream(msgs, LineFrame(last)[..k])
    decreases |msgs|
  {
    var part := LineFrame(last)[..k];
    if msgs == [] {
      LinePrefix(last, k);
      assert LineFrames(msgs) + part == part;
    } else {
      var tail := LineFrames(msgs[1..]) + part;
      assert LineFrames(msgs) + part == LineFrame(msgs[0]) + tail;
      LineRoundTrip(msgs[0], tail);
      assert (LineFrame(msgs[0]) + tail)[|msgs[0]| + 2..] == tail;
      LineStream(msgs[1..], last, k);
      assert [msgs[0]] + msgs[1..] == msgs;
    }
  }

  function LengthDecodeAll(data: Bytes): Stream {
    var d := LengthDecode(data);
    if d.size <= 0 then Stream([], data)
    else
      var tail := LengthDecodeAll(data[d.size..]);
      Stream([d.msg] + tail.msgs, tail.rest)
  }

  function LengthFrames(msgs: seq<Bytes>): Bytes {
    if msgs == [] then [] else LengthFrame(msgs[0]) + LengthFrames(msgs[1..])
  }

  lemma {:induction false} LengthStream(msgs: seq<Bytes>, last: Bytes, k: nat)
    requires forall j :: 0 <= j < |msgs| ==> |msgs[j]| <= MAX_LENGTH
    requires |last| <= MAX_LENGTH && k < |LengthFrame(last)|
    ensures LengthDecodeAll(LengthFrames(msgs) + LengthFrame(last)[..k]) == Stream(msgs, LengthFrame(last)[..k])
    decreases |msgs|
  {
    var part := LengthFrame(last)[..k];
    if msgs == [] {
      LengthPrefix(last, k);
      assert LengthFrames(msgs) + part == part;
    } else {
      var tail := LengthFrames(msgs[1..]) + part;
      assert LengthFrames(msgs) + part == LengthFrame(msgs[0]) + tail;
      LengthRoundTrip(msgs[0], tail);
      assert (LengthFrame(msgs[0]) + tail)[|msgs[0]| + 8..] == tail;
      LengthStream(msgs[1..], last, k);
      assert [msgs[0]] + msgs[1..] == msgs;
    }
  }
}
