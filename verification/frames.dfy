/** What a frame says: its layout in memory, how hosts read it, and how they create it. */
module Frames {
  import opened Types
  import opened Samples
  import opened Codec
  import opened Node

  const ID_AT: nat := 8
  const DATA_AT: nat := 16
  const SENSORS_AT: nat := 20
  datatype Reading = Rejected | Accepted(msg: Msg)

  // ---------------------------------------------------------------- integers in memory

  function Power(n: nat): (r: nat)
    ensures r >= 1
  {
    if n == 0 then 1 else 256 * Power(n - 1)
  }

  function BytesBig(n: nat, v: nat): (s: seq<byte>)
    ensures |s| == n
  {
    if n == 0 then [] else BytesBig(n - 1, v / 256) + [(v % 256) as byte]
  }

  /** The n bytes a host stores for v. */
  function Bytes(o: ByteOrder, n: nat, v: nat): (s: seq<byte>)
    ensures |s| == n
  {
    ToBig(o, BytesBig(n, v))
  }

  lemma {:induction false} ValueBelow(s: seq<byte>)
    ensures ValueBig(s) < Power(|s|)
  {
    if s != [] {
      ValueBelow(s[..|s| - 1]);
    }
  }

  lemma {:induction false} BytesBigValue(n: nat, v: nat)
    requires v < Power(n)
    ensures ValueBig(BytesBig(n, v)) == v
  {
    if n == 0 {
      assert ValueBig([]) == 0;
    } else {
      BytesBigValue(n - 1, v / 256);
      assert BytesBig(n, v)[..n - 1] == BytesBig(n - 1, v / 256);
    }
  }

  /** A host reads back the number it stored. */
  lemma BytesValue(o: ByteOrder, n: nat, v: nat)
    requires v < Power(n)
    ensures Value(o, Bytes(o, n, v)) == v
  {
    BytesBigValue(n, v);
    ToBigValue(o, Bytes(o, n, v));
    assert ToBig(o, Bytes(o, n, v)) == BytesBig(n, v);
  }

  lemma Powers()
    ensures Power(2) == 0x1_0000 && Power(8) == 0x1_0000_0000_0000_0000
  {
    assert Power(4) == 0x1_0000_0000;
  }

  const TWO63: int := 0x8000_0000_0000_0000

  const TWO64: int := 0x1_0000_0000_0000_0000

  /** The 64-bit pattern of a signed number, and the number back. */
  function Pattern(x: int): (v: nat)
    ensures v < TWO64
  {
    x % TWO64
  }

  function Signed(v: nat): int {
    if v < TWO63 then v else v - TWO64
  }

  predicate Fits(x: int) {
    -TWO63 <= x < TWO63
  }

  lemma SignedPattern(x: int)
    requires Fits(x)
    ensures Signed(Pattern(x)) == x
  {
  }

  // ---------------------------------------------------------------- reading

  function IdOf(o: ByteOrder, f: seq<byte>): ModuleId
    requires |f| == FRAME
  {
    ToBigValue(o, f[ID_AT..ID_AT + 2]);
    ValueBelow(ToBig(o, f[ID_AT..ID_AT + 2]));
    Powers();
    Value(o, f[ID_AT..ID_AT + 2])
  }

  /** Ten floats in a row. */
  function SampleAt(load: Word -> real, s: seq<byte>): (x: Sample)
    requires |s| == CHANNELS * WORD
  {
    seq(CHANNELS, i requires 0 <= i < CHANNELS => load(s[WORD * i..WORD * i + WORD]))
  }

  function TimeAt(o: ByteOrder, f: seq<byte>): Instant
    requires |f| == FRAME
  {
    Instant(Signed(Value(o, f[16..24])), Signed(Value(o, f[24..32])))
  }

  /** The fields of an opened frame as a host of order o reads them. */
  function Parse(o: ByteOrder, load: Word -> real, f: seq<byte>): Msg
    requires |f| == FRAME
  {
    var id := IdOf(o, f);
    if f[TYPE_AT] == SENSOR then SensorMsg(id, load(f[DATA_AT..SENSORS_AT]), SampleAt(load, f[SENSORS_AT..60]))
    else if f[TYPE_AT] == FLUSH then FlushMsg(id)
    else if f[TYPE_AT] == TIME then TimeMsg(id, TimeAt(o, f))
    else if f[TYPE_AT] == ADV then AdvMsg(id, f[DATA_AT..DATA_AT + 6])
    else OtherMsg(id)
  }

  /** What host h makes of 96 received bytes. */
  function Read(h: Host, w: Packed): Reading {
    var (found, r) := Open(h, w);
    if found == -1 then Accepted(Parse(h.order, h.floats.load, r[..FRAME])) else Rejected
  }

  lemma WireValue(o: ByteOrder, wire: seq<byte>, at: nat, n: nat)
    requires |wire| == FRAME && IsInteger(wire[TYPE_AT], at, n)
    ensures Value(o, Flip(o, wire)[at..at + n]) == ValueBig(wire[at..at + n])
  {
    var f := Flip(o, wire);
    FlipField(o, f, at, n);
    FlipTwice(o, wire);
    ToBigValue(o, f[at..at + n]);
  }

  lemma ParseWire(o: ByteOrder, load: Word -> real, wire: seq<byte>)
    requires |wire| == FRAME
    ensures Parse(o, load, Flip(o, wire)) == Parse(BigEndian, load, wire)
  {
    var f := Flip(o, wire);
    WireValue(o, wire, ID_AT, 2);
    FlipRest(o, wire);
    if wire[TYPE_AT] == TIME {
      WireValue(o, wire, 16, 8);
      WireValue(o, wire, 24, 8);
    } else {
      assert f[DATA_AT..SENSORS_AT] == f[TYPE_AT..][6..10] && wire[DATA_AT..SENSORS_AT] == wire[TYPE_AT..][6..10];
      assert f[SENSORS_AT..60] == f[TYPE_AT..][10..50] && wire[SENSORS_AT..60] == wire[TYPE_AT..][10..50];
      assert f[DATA_AT..DATA_AT + 6] == f[TYPE_AT..][6..12] && wire[DATA_AT..DATA_AT + 6] == wire[TYPE_AT..][6..12];
    }
  }

  /** The wire form decides what a frame says, up to how its floats are read. */
  lemma ReadWire(h: Host, w: Packed)
    ensures Read(h, w) == if w[FRAME..] == h.DigestOf(w[..FRAME])
                          then Accepted(Parse(BigEndian, h.floats.load, w[..FRAME])) else Rejected
  {
    RejectedIsUntouched(h, w);
    var (found, r) := Open(h, w);
    if found == -1 {
      assert r[..FRAME] == Flip(h.order, w[..FRAME]);
      ParseWire(h.order, h.floats.load, w[..FRAME]);
    }
  }

  /** Hosts with a common key that read floats alike read any 96 bytes alike, whatever their side and byte order. */
  lemma ReadAlike(a: Host, b: Host, w: Packed)
    requires Agree(a, b) && a.floats.load == b.floats.load
    ensures Read(a, w) == Read(b, w)
  {
    ReadWire(a, w);
    ReadWire(b, w);
  }

  /** The header's timestamp as host h reads it: seconds, as a 64-bit pattern. */
  function Stamp(h: Host, w: Packed): nat {
    Value(h.order, Open(h, w).1[..8])
  }

  lemma StampWire(h: Host, w: Packed)
    requires Read(h, w).Accepted?
    ensures Stamp(h, w) == ValueBig(w[..8])
  {
    var r := Open(h, w).1;
    WireValue(h.order, w[..FRAME], 0, 8);
    SubFrame(r, 0, 8);
    SubFrame(w, 0, 8);
    assert r[..FRAME] == Flip(h.order, w[..FRAME]);
    assert r[..8] == r[0..8] && w[..8] == w[0..8];
  }

  /** Hosts with a common key read the same timestamp from any frame they accept. */
  lemma StampAlike(a: Host, b: Host, w: Packed)
    requires Agree(a, b) && Read(a, w).Accepted?
    ensures Stamp(a, w) == Stamp(b, w)
  {
    hide Read, Stamp;
    ReadAlikeButFloats(a, b, w);
    StampWire(a, w);
    StampWire(b, w);
  }

  /** The same message, except that the floats of a SENSOR frame may differ. */
  predicate SameButFloats(a: Reading, b: Reading) {
    if a.Accepted? && a.msg.SensorMsg? then b.Accepted? && b.msg.SensorMsg? && b.msg.id == a.msg.id
    else a == b
  }

  /** Without a common reading of floats: everything else is read alike, for any pair of byte orders. */
  lemma ReadAlikeButFloats(a: Host, b: Host, w: Packed)
    requires Agree(a, b)
    ensures SameButFloats(Read(a, w), Read(b, w))
  {
    ReadWire(a, w);
    ReadWire(b, w);
  }

  const WORDS: nat := CHANNELS + 1

  /** The floats of a SENSOR frame: the aggregation time, then the channels. */
  function WordOf(w: Packed, i: nat): Word
    requires i < WORDS
  {
    w[DATA_AT + WORD * i..DATA_AT + WORD * i + WORD]
  }

  lemma Nested<T>(s: seq<T>, a: nat, b: nat, c: nat, d: nat)
    requires a <= b <= |s| && c <= d <= b - a
    ensures s[a..b][c..d] == s[a + c..a + d]
  {
    assert forall i :: 0 <= i < d - c ==> s[a..b][c..d][i] == s[a..b][c + i] == s[a + c..a + d][i];
  }

  lemma SensorWords(load: Word -> real, w: Packed)
    requires w[TYPE_AT] == SENSOR
    ensures var m := Parse(BigEndian, load, w[..FRAME]);
            m.SensorMsg? && m.period == load(WordOf(w, 0))
            && forall c :: 0 <= c < CHANNELS ==> m.values[c] == load(WordOf(w, c + 1))
  {
    var f := w[..FRAME];
    assert f[DATA_AT..SENSORS_AT] == WordOf(w, 0);
    forall c | 0 <= c < CHANNELS
      ensures f[SENSORS_AT..60][WORD * c..WORD * c + WORD] == WordOf(w, c + 1)
    {
      Nested(f, SENSORS_AT, 60, WORD * c, WORD * c + WORD);
      SubFrame(w, SENSORS_AT + WORD * c, WORD);
    }
  }

  /** What an accepted frame says, byte by byte of the wire. */
  lemma ReadLayout(h: Host, w: Packed)
    ensures Read(h, w).Accepted? <==> w[64..] == h.hmac(h.Key(), w[..64])
    ensures Read(h, w).Accepted? ==>
              var m := Read(h, w).msg;
              && m.id == 256 * w[8] as nat + w[9] as nat
              && (if w[10] == 0 then
                    && m.SensorMsg? && m.period == h.floats.load(w[16..20])
                    && forall c :: 0 <= c < 10 ==> m.values[c] == h.floats.load(w[20 + 4 * c..24 + 4 * c])
                  else if w[10] == 1 then m.FlushMsg?
                  else if w[10] == 2 then
                    m.TimeMsg? && m.clock == Instant(Signed64(w[16..24]), Signed64(w[24..32]))
                  else if w[10] == 3 then m.AdvMsg? && m.mac == w[16..22]
                  else m.OtherMsg?)
    ensures Read(h, w).Accepted? ==> Stamp(h, w) == ValueBig(w[..8])
  {
    hide Stamp, Open, Read;
    ReadWire(h, w);
    if Read(h, w).Accepted? {
      StampWire(h, w);
      WireId(w);
      if w[10] == 0 {
        SensorWords(h.floats.load, w);
        forall c | 0 <= c < 10
          ensures Read(h, w).msg.values[c] == h.floats.load(w[20 + 4 * c..24 + 4 * c])
        {
          assert WordOf(w, c + 1) == w[20 + 4 * c..24 + 4 * c];
        }
      } else if w[10] == 2 {
        SubFrame(w, 16, 8);
        SubFrame(w, 24, 8);
      } else if w[10] == 3 {
        SubFrame(w, 16, 6);
      }
    }
  }

  /** Eight bytes as a signed number, most significant first, in two's complement. */
  function Signed64(s: seq<byte>): int {
    if ValueBig(s) < 0x8000_0000_0000_0000 then ValueBig(s) else ValueBig(s) - 0x1_0000_0000_0000_0000
  }

  lemma WireId(w: Packed)
    ensures IdOf(BigEndian, w[..FRAME]) == 256 * w[8] as nat + w[9] as nat
  {
    var s := w[..FRAME][8..10];
    assert s == [w[8], w[9]] && s[..1] == [w[8]] && s[..1][..0] == [];
    assert ValueBig(s) == 256 * ValueBig(s[..1]) + s[1] as nat;
    assert ValueBig(s[..1]) == 256 * ValueBig([]) + s[0] as nat;
  }

  /** Each further byte, most significant first, multiplies by 256. */
  lemma ValueOfBytes(s: seq<byte>, b: byte)
    ensures ValueBig([]) == 0 && ValueBig(s + [b]) == 256 * ValueBig(s) + b as nat
  {
    assert (s + [b])[..|s|] == s;
  }

  /** The pattern of a number that fits is the number, or the number plus 2 to the 64th. */
  lemma PatternOf(x: int)
    requires Fits(x)
    ensures Pattern(x) == if x >= 0 then x else x + 0x1_0000_0000_0000_0000
  {
  }

  lemma ParsedType(o: ByteOrder, load: Word -> real, f: seq<byte>)
    requires |f| == FRAME
    ensures Parse(o, load, f).SensorMsg? <==> f[TYPE_AT] == SENSOR
  {
  }

  /** A SENSOR frame is read alike if and only if the two hosts read its eleven floats alike. */
  lemma SensorAlikeIff(a: Host, b: Host, w: Packed)
    requires Agree(a, b) && Read(a, w).Accepted? && Read(a, w).msg.SensorMsg?
    ensures Read(a, w) == Read(b, w)
            <==> forall i :: 0 <= i < WORDS ==> a.floats.load(WordOf(w, i)) == b.floats.load(WordOf(w, i))
  {
    ReadWire(a, w);
    ReadWire(b, w);
    ReadAlikeButFloats(a, b, w);
    ParsedType(BigEndian, a.floats.load, w[..FRAME]);
    SensorWords(a.floats.load, w);
    SensorWords(b.floats.load, w);
    hide Parse, Read, Open, WordOf;
    var m, n := Read(a, w).msg, Read(b, w).msg;
    if forall i :: 0 <= i < WORDS ==> a.floats.load(WordOf(w, i)) == b.floats.load(WordOf(w, i)) {
      assert m.values == n.values;
    }
    if Read(a, w) == Read(b, w) {
      forall i | 0 <= i < WORDS
        ensures a.floats.load(WordOf(w, i)) == b.floats.load(WordOf(w, i))
      {
        if i > 0 {
          assert m.values[i - 1] == n.values[i - 1];
        }
      }
    }
  }

  /** A float read through the host's own byte order, `bits` being what its 32 bits mean. */
  function Native(o: ByteOrder, bits: Word -> real): Word -> real {
    (w: Word) => bits(ToBig(o, w))
  }

  /** A SENSOR frame that a big-endian host accepts, with the bytes 1, 0, 0, 0 for its first float. */
  lemma OneFrame(h: Host) returns (w: Packed)
    requires h.order.BigEndian?
    ensures Read(h, w).Accepted? && Read(h, w).msg.SensorMsg? && WordOf(w, 0) == [1, 0, 0, 0]
  {
    hide Parse, Read, Open;
    var m: Packed := seq(WHOLE, i => if i == DATA_AT then 1 else 0);
    w := Seal(h, m);
    assert w[..FRAME] == m[..FRAME];
    assert w[FRAME..] == h.DigestOf(w[..FRAME]);
    ReadWire(h, w);
    ParsedType(BigEndian, h.floats.load, w[..FRAME]);
    SubFrame(w, DATA_AT, WORD);
    SubFrame(m, DATA_AT, WORD);
    assert m[DATA_AT..DATA_AT + WORD] == [1, 0, 0, 0];
  }

  lemma OneReversed()
    ensures ToBig(LittleEndian, [1, 0, 0, 0]) == [0, 0, 0, 1]
  {
  }

  /**
   * Hosts of different byte orders that each read floats in their own order: whatever the bits mean,
   * as long as 0x01000000 and 0x00000001 differ, a frame both accept says something else to each.
   * Floats are sent without conversion.
   */
  lemma FloatsNeedOneOrder(big: Host, little: Host, bits: Word -> real) returns (w: Packed)
    requires Agree(big, little) && big.order.BigEndian? && little.order.LittleEndian?
    requires big.floats.load == Native(BigEndian, bits) && little.floats.load == Native(LittleEndian, bits)
    requires bits([1, 0, 0, 0]) != bits([0, 0, 0, 1])
    ensures Read(big, w).Accepted? && Read(little, w).Accepted? && Read(big, w) != Read(little, w)
  {
    hide Read, WordOf, ToBig;
    w := OneFrame(big);
    ReadAlikeButFloats(big, little, w);
    SensorAlikeIff(big, little, w);
    OneReversed();
    assert ToBig(BigEndian, WordOf(w, 0)) == WordOf(w, 0) by {
      BigIsSame(WordOf(w, 0));
    }
    assert big.floats.load(WordOf(w, 0)) != little.floats.load(WordOf(w, 0));
  }

  lemma BigIsSame(s: seq<byte>)
    ensures ToBig(BigEndian, s) == s
  {
  }

  /** What a host seals, every host with its key that reads floats alike reads back. */
  lemma SealedReads(a: Host, b: Host, m: Packed)
    requires Agree(a, b) && a.floats.load == b.floats.load
    ensures Read(b, Seal(a, m)) == Accepted(Parse(a.order, a.floats.load, m[..FRAME]))
  {
    RoundTrip(a, a, m);
    ReadAlike(a, b, Seal(a, m));
  }

  /** And frames of every other type, whatever the floats. */
  lemma SealedReadsOthers(a: Host, b: Host, m: Packed)
    requires Agree(a, b) && m[TYPE_AT] != SENSOR
    ensures Read(b, Seal(a, m)) == Accepted(Parse(a.order, a.floats.load, m[..FRAME]))
  {
    RoundTrip(a, a, m);
    ReadAlikeButFloats(a, b, Seal(a, m));
    ParsedType(a.order, a.floats.load, m[..FRAME]);
  }

  // ---------------------------------------------------------------- creating

  /** The bytes of f with s written over them from `at` on. */
  function Put(f: seq<byte>, at: nat, s: seq<byte>): (r: seq<byte>)
    requires at + |s| <= |f|
    ensures |r| == |f| && r[at..at + |s|] == s
    ensures forall i :: 0 <= i < |f| && !(at <= i < at + |s|) ==> r[i] == f[i]
  {
    f[..at] + s + f[at + |s|..]
  }

  lemma PutApart(f: seq<byte>, at: nat, s: seq<byte>, from: nat, to: nat)
    requires at + |s| <= |f| && from <= to <= |f| && (to <= at || at + |s| <= from)
    ensures Put(f, at, s)[from..to] == f[from..to]
  {
  }

  method Store(f: array<byte>, at: nat, s: seq<byte>)
    requires at + |s| <= f.Length
    modifies f
    ensures f[..] == Put(old(f[..]), at, s)
  {
    forall i | 0 <= i < |s| {
      f[at + i] := s[i];
    }
    assert f[..] == Put(old(f[..]), at, s);
  }

  /** The header every frame starts with, over whatever the stack held. */
  function Header(o: ByteOrder, f: seq<byte>, id: nat, kind: byte, sec: int): (r: seq<byte>)
    requires |f| == WHOLE
    ensures |r| == WHOLE
  {
    Put(Put(Put(f, ID_AT, Bytes(o, 2, id % 0x1_0000)), TYPE_AT, [kind]), 0, Bytes(o, 8, Pattern(sec)))
  }

  lemma HeaderReads(o: ByteOrder, f: seq<byte>, id: nat, kind: byte, sec: int, s: seq<byte>)
    requires |f| == WHOLE && DATA_AT + |s| <= FRAME
    ensures var r := Put(Header(o, f, id, kind, sec), DATA_AT, s);
            |r| == WHOLE && r[TYPE_AT] == kind && IdOf(o, r[..FRAME]) == id % 0x1_0000
            && r[..FRAME][DATA_AT..DATA_AT + |s|] == s
  {
    var r := Put(Header(o, f, id, kind, sec), DATA_AT, s);
    var field := Bytes(o, 2, id % 0x1_0000);
    var f1 := Put(f, ID_AT, field);
    var f2 := Put(f1, TYPE_AT, [kind]);
    PutApart(f1, TYPE_AT, [kind], ID_AT, ID_AT + 2);
    PutApart(f2, 0, Bytes(o, 8, Pattern(sec)), ID_AT, ID_AT + 2);
    PutApart(Header(o, f, id, kind, sec), DATA_AT, s, ID_AT, ID_AT + 2);
    assert f2[TYPE_AT] == f2[TYPE_AT..TYPE_AT + 1][0];
    assert r[..FRAME][ID_AT..ID_AT + 2] == r[ID_AT..ID_AT + 2] == field;
    Powers();
    BytesValue(o, 2, id % 0x1_0000);
    assert r[..FRAME][DATA_AT..DATA_AT + |s|] == r[DATA_AT..DATA_AT + |s|];
  }

  /** The timestamp of a frame just sealed is the one written into its header. */
  lemma StampReads(h: Host, junk: Packed, id: nat, kind: byte, sec: int, data: seq<byte>)
    requires DATA_AT + |data| <= FRAME
    ensures Stamp(h, Seal(h, Put(Header(h.order, junk, id, kind, sec), DATA_AT, data))) == Pattern(sec)
  {
    hide Open, Seal, Put;
    var o, head := h.order, Header(h.order, junk, id, kind, sec);
    var m: Packed := Put(head, DATA_AT, data);
    RoundTrip(h, h, m);
    var r := Open(h, Seal(h, m)).1;
    SubFrame(r, 0, 8);
    SubFrame(m, 0, 8);
    PutApart(head, DATA_AT, data, 0, 8);
    HeaderStamp(o, junk, id, kind, sec);
    Powers();
    BytesValue(o, 8, Pattern(sec));
    assert r[..8] == r[0..8];
  }

  lemma HeaderStamp(o: ByteOrder, f: Packed, id: nat, kind: byte, sec: int)
    ensures Header(o, f, id, kind, sec)[0..8] == Bytes(o, 8, Pattern(sec))
  {
  }

  /** A frame around `data`, over what the stack held. */
  method FillFrame(o: ByteOrder, id: nat, kind: byte, sec: int, data: seq<byte>, junk: Packed)
    returns (frame: array<byte>)
    requires DATA_AT + |data| <= FRAME
    ensures fresh(frame) && frame[..] == Put(Header(o, junk, id, kind, sec), DATA_AT, data)
  {
    hide Put, Bytes, Pattern;
    frame := new byte[WHOLE](i requires 0 <= i < WHOLE => junk[i]);
    assert frame[..] == junk;
    Store(frame, ID_AT, Bytes(o, 2, id % 0x1_0000));
    Store(frame, TYPE_AT, [kind]);
    Store(frame, 0, Bytes(o, 8, Pattern(sec)));
    Store(frame, DATA_AT, data);
  }

  /** Fills in a frame, seals it, and copies it out. */
  method SealInto(h: Host, id: nat, kind: byte, sec: int, data: seq<byte>, junk: Packed, buffer: array<byte>)
    requires DATA_AT + |data| <= FRAME && WHOLE <= buffer.Length
    modifies buffer
    ensures buffer[..WHOLE] == Seal(h, Put(Header(h.order, junk, id, kind, sec), DATA_AT, data))
    ensures buffer[WHOLE..] == old(buffer[WHOLE..])
  {
    hide Seal, Put, Header;
    var frame := FillFrame(h.order, id, kind, sec, data, junk);
    assert frame[..WHOLE] == frame[..];
    HtonFrameHmac(h, frame);
    forall i | 0 <= i < WHOLE {
      buffer[i] := frame[i];
    }
    assert buffer[..WHOLE] == frame[..WHOLE];
  }

  lemma TimeReads(h: Host, junk: Packed, id: nat, now: Instant)
    requires Fits(now.sec) && Fits(now.usec)
    ensures var s := Bytes(h.order, 8, Pattern(now.sec)) + Bytes(h.order, 8, Pattern(now.usec));
            Read(h, Seal(h, Put(Header(h.order, junk, id, TIME, now.sec), DATA_AT, s)))
            == Accepted(TimeMsg(id % 0x1_0000, now))
  {
    var o := h.order;
    var a, b := Bytes(o, 8, Pattern(now.sec)), Bytes(o, 8, Pattern(now.usec));
    var m := Put(Header(o, junk, id, TIME, now.sec), DATA_AT, a + b);
    HeaderReads(o, junk, id, TIME, now.sec, a + b);
    SealedReads(h, h, m);
    var f := m[..FRAME];
    assert f[16..24] == f[16..32][..8] == a;
    assert f[24..32] == f[16..32][8..] == b;
    Powers();
    BytesValue(o, 8, Pattern(now.sec));
    BytesValue(o, 8, Pattern(now.usec));
    SignedPattern(now.sec);
    SignedPattern(now.usec);
  }

  lemma AdvReads(h: Host, junk: Packed, id: nat, mac: Mac, sec: int)
    ensures Read(h, Seal(h, Put(Header(h.order, junk, id, ADV, sec), DATA_AT, mac)))
            == Accepted(AdvMsg(id % 0x1_0000, mac))
  {
    HeaderReads(h.order, junk, id, ADV, sec, mac);
    SealedReads(h, h, Put(Header(h.order, junk, id, ADV, sec), DATA_AT, mac));
  }

  lemma SensorReads(h: Host, junk: Packed, id: nat, period: Word, sensors: seq<byte>, sec: int)
    requires |sensors| == CHANNELS * WORD
    ensures Read(h, Seal(h, Put(Header(h.order, junk, id, SENSOR, sec), DATA_AT, period + sensors)))
            == Accepted(SensorMsg(id % 0x1_0000, h.floats.load(period), SampleAt(h.floats.load, sensors)))
  {
    var s := period + sensors;
    var m := Put(Header(h.order, junk, id, SENSOR, sec), DATA_AT, s);
    HeaderReads(h.order, junk, id, SENSOR, sec, s);
    SealedReads(h, h, m);
    var f := m[..FRAME];
    assert f[DATA_AT..SENSORS_AT] == f[DATA_AT..60][..4] == period;
    assert f[SENSORS_AT..60] == f[DATA_AT..60][4..] == sensors;
  }

  /** The server's synchronisation frame. `junk` is what the stack held before. */
  method CreateTimeFrame(h: Host, id: nat, now: Instant, junk: Packed,
                         buffer: array<byte>, len: nat) returns (n: int)
    requires Fits(now.sec) && Fits(now.usec) && len <= buffer.Length
    modifies buffer
    ensures n == if len < WHOLE then -1 else WHOLE
    ensures len < WHOLE ==> buffer[..] == old(buffer[..])
    ensures len >= WHOLE ==> && Read(h, buffer[..WHOLE]) == Accepted(TimeMsg(id % 0x1_0000, now))
                             && Stamp(h, buffer[..WHOLE]) == Pattern(now.sec)
                             && buffer[WHOLE..] == old(buffer[WHOLE..])
  {
    if len < WHOLE {
      return -1;
    }
    var data := Bytes(h.order, 8, Pattern(now.sec)) + Bytes(h.order, 8, Pattern(now.usec));
    SealInto(h, id, TIME, now.sec, data, junk, buffer);
    TimeReads(h, junk, id, now);
    StampReads(h, junk, id, TIME, now.sec, data);
    n := WHOLE;
  }

  method CreateAdvFrame(h: Host, id: nat, mac: Mac, now: Instant, junk: Packed,
                        buffer: array<byte>, len: nat) returns (n: int)
    requires len <= buffer.Length
    modifies buffer
    ensures n == if len < WHOLE then -1 else WHOLE
    ensures len < WHOLE ==> buffer[..] == old(buffer[..])
    ensures len >= WHOLE ==> && Read(h, buffer[..WHOLE]) == Accepted(AdvMsg(id % 0x1_0000, mac))
                             && Stamp(h, buffer[..WHOLE]) == Pattern(now.sec)
                             && buffer[WHOLE..] == old(buffer[WHOLE..])
  {
    if len < WHOLE {
      return -1;
    }
    SealInto(h, id, ADV, now.sec, mac, junk, buffer);
    AdvReads(h, junk, id, mac, now.sec);
    StampReads(h, junk, id, ADV, now.sec, mac);
    n := WHOLE;
  }

  method CreateSensorFrame(h: Host, id: nat, period: Word, sensors: seq<byte>, now: Instant,
                           junk: Packed, buffer: array<byte>, len: nat) returns (n: int)
    requires len <= buffer.Length && |sensors| == CHANNELS * WORD
    modifies buffer
    ensures n == if len < WHOLE then -1 else WHOLE
    ensures len < WHOLE ==> buffer[..] == old(buffer[..])
    ensures len >= WHOLE ==>
              && Read(h, buffer[..WHOLE])
                 == Accepted(SensorMsg(id % 0x1_0000, h.floats.load(period), SampleAt(h.floats.load, sensors)))
              && Stamp(h, buffer[..WHOLE]) == Pattern(now.sec)
              && buffer[WHOLE..] == old(buffer[WHOLE..])
  {
    if len < WHOLE {
      return -1;
    }
    SealInto(h, id, SENSOR, now.sec, period + sensors, junk, buffer);
    SensorReads(h, junk, id, period, sensors, now.sec);
    StampReads(h, junk, id, SENSOR, now.sec, period + sensors);
    n := WHOLE;
  }
}
