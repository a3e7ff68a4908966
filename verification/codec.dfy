/**
 * The authenticated frame codec, written once in the firmware (ms_network.c) and once in the
 * server (udp_network.c): integer fields go to big-endian order in place, a digest follows.
 * The digest is an uninterpreted function of key and message (HMAC, section 2 of RFC 2104).
 */
module Codec {
  import opened Types

  const FRAME: nat := 64
  const WHOLE: nat := 96

  const SENSOR: byte := 0
  const FLUSH: byte := 1
  const TIME: byte := 2
  const ADV: byte := 3

  const TYPE_AT: nat := 10

  type Digest = s: seq<byte> | |s| == 32 witness seq(32, _ => 0)

  /** The frame with its digest, as laid out in memory. */
  type Packed = s: seq<byte> | |s| == WHOLE witness seq(96, _ => 0)

  datatype ByteOrder = BigEndian | LittleEndian

  datatype Side = Firmware | Server

  const WORD: nat := 4

  /** A float as it lies in memory. */
  type Word = s: seq<byte> | |s| == WORD witness [0, 0, 0, 0]

  /** How a host reads floats from its memory and stores them. */
  datatype Floats = Floats(load: Word -> real, store: real -> Word)

  const BLOCK: nat := 64

  /** A key no longer than a block of the hash: HMAC fills it up with zeros (section 2 of RFC 2104). */
  type Secret = s: seq<byte> | |s| <= BLOCK witness []

  type BlockKey = s: seq<byte> | |s| == BLOCK witness seq(64, _ => 0)

  function Padded(s: Secret): BlockKey {
    s + seq(BLOCK - |s|, _ => 0)
  }

  datatype Host = Host(side: Side, order: ByteOrder, secret: Secret, hmac: (BlockKey, seq<byte>) -> Digest,
                       floats: Floats) {
    function Key(): BlockKey {
      Padded(if side.Firmware? then secret else CString(secret))
    }

    function DigestOf(frame: seq<byte>): Digest {
      hmac(Key(), frame)
    }
  }

  /** The server measures its key with strlen; the firmware passes a fixed length. */
  function CString(s: seq<byte>): (r: seq<byte>)
    ensures |r| <= |s|
  {
    if s == [] || s[0] == 0 then [] else [s[0]] + CString(s[1..])
  }

  /** Both hosts compute the same digests. */
  ghost predicate Agree(a: Host, b: Host) {
    a.hmac == b.hmac && a.Key() == b.Key()
  }

  // ---------------------------------------------------------------- specification

  /** Where the byte at i comes from when the integer fields are reversed. */
  function Mirror(kind: byte, i: nat): (j: nat)
    ensures i < FRAME ==> j < FRAME
    ensures i == TYPE_AT ==> j == i
  {
    if i < 8 then 7 - i
    else if 8 <= i < 10 then 17 - i
    else if kind == TIME && 16 <= i < 24 then 39 - i
    else if kind == TIME && 24 <= i < 32 then 55 - i
    else i
  }

  /** Host order to wire order, and back: the same reversal of the integer fields. */
  function Flip(o: ByteOrder, f: seq<byte>): (r: seq<byte>)
    requires |f| == FRAME
    ensures |r| == FRAME && r[TYPE_AT] == f[TYPE_AT]
  {
    if o.BigEndian? then f else seq(FRAME, i requires 0 <= i < FRAME => f[Mirror(f[TYPE_AT], i)])
  }

  lemma FlipTwice(o: ByteOrder, f: seq<byte>)
    requires |f| == FRAME
    ensures Flip(o, Flip(o, f)) == f
  {
    if o.LittleEndian? {
      forall i | 0 <= i < FRAME
        ensures Flip(o, Flip(o, f))[i] == f[i]
      {
        assert Mirror(f[TYPE_AT], Mirror(f[TYPE_AT], i)) == i;
      }
    }
  }

  /** The first index where two digests differ, -1 if they agree. */
  function FirstDifference(a: Digest, b: Digest, i: nat := 0): (k: int)
    requires i <= 32
    ensures k == -1 || i <= k < 32
    ensures k == -1 ==> a[i..] == b[i..]
    ensures k >= 0 ==> a[k] != b[k] && a[i..k] == b[i..k]
    decreases 32 - i
  {
    if i == 32 then -1
    else if a[i] != b[i] then i
    else
      var k := FirstDifference(a, b, i + 1);
      assert a[i..] == [a[i]] + a[i + 1..] && b[i..] == [b[i]] + b[i + 1..];
      assert k >= 0 ==> a[i..k] == [a[i]] + a[i + 1..k] && b[i..k] == [b[i]] + b[i + 1..k];
      k
  }

  function Seal(h: Host, m: Packed): Packed {
    var wire := Flip(h.order, m[..FRAME]);
    wire + h.DigestOf(wire)
  }

  /** The verdict (-1: accepted) and the buffer afterwards. */
  function Open(h: Host, w: Packed): (int, Packed) {
    var found := FirstDifference(w[FRAME..], h.DigestOf(w[..FRAME]));
    (found, if found == -1 then Flip(h.order, w[..FRAME]) + w[FRAME..] else w)
  }

  // ---------------------------------------------------------------- field values

  function ValueBig(s: seq<byte>): nat {
    if s == [] then 0 else 256 * ValueBig(s[..|s| - 1]) + s[|s| - 1] as nat
  }

  function ValueLittle(s: seq<byte>): nat {
    if s == [] then 0 else s[0] as nat + 256 * ValueLittle(s[1..])
  }

  /** The number a host reads from n bytes of its memory. */
  function Value(o: ByteOrder, s: seq<byte>): nat {
    if o.BigEndian? then ValueBig(s) else ValueLittle(s)
  }

  function Reverse(s: seq<byte>): (r: seq<byte>)
    ensures |r| == |s| && forall i :: 0 <= i < |s| ==> r[i] == s[|s| - 1 - i]
  {
    seq(|s|, i requires 0 <= i < |s| => s[|s| - 1 - i])
  }

  function ToBig(o: ByteOrder, s: seq<byte>): seq<byte> {
    if o.BigEndian? then s else Reverse(s)
  }

  lemma {:induction false} ReversedValue(s: seq<byte>)
    ensures ValueBig(Reverse(s)) == ValueLittle(s)
  {
    if s != [] {
      ReversedValue(s[1..]);
      assert Reverse(s)[..|s| - 1] == Reverse(s[1..]);
    }
  }

  lemma ToBigValue(o: ByteOrder, s: seq<byte>)
    ensures ValueBig(ToBig(o, s)) == Value(o, s)
  {
    ReversedValue(s);
  }

  /** Start and length of the integer fields of a frame of the given type. */
  predicate IsInteger(kind: byte, at: nat, n: nat) {
    (at == 0 && n == 8) || (at == 8 && n == 2) || (kind == TIME && (at == 16 || at == 24) && n == 8)
  }

  lemma FlipField(o: ByteOrder, f: seq<byte>, at: nat, n: nat)
    requires |f| == FRAME && IsInteger(f[TYPE_AT], at, n)
    ensures Flip(o, f)[at..at + n] == ToBig(o, f[at..at + n])
  {
    if o.LittleEndian? {
      var field := f[at..at + n];
      forall i | 0 <= i < n
        ensures Flip(o, f)[at + i] == Reverse(field)[i]
      {
        assert Mirror(f[TYPE_AT], at + i) == at + n - 1 - i;
      }
    }
  }

  lemma FlipRest(o: ByteOrder, f: seq<byte>)
    requires |f| == FRAME
    ensures Flip(o, f)[TYPE_AT..16] == f[TYPE_AT..16]
    ensures Flip(o, f)[32..] == f[32..]
    ensures f[TYPE_AT] != TIME ==> Flip(o, f)[TYPE_AT..] == f[TYPE_AT..]
  {
  }

  // ---------------------------------------------------------------- round trips

  lemma SealedIsAccepted(a: Host, b: Host, m: Packed)
    requires Agree(a, b)
    ensures Open(b, Seal(a, m)) == (-1, Flip(b.order, Flip(a.order, m[..FRAME])) + Seal(a, m)[FRAME..])
  {
    var w := Seal(a, m);
    assert w[..FRAME] == Flip(a.order, m[..FRAME]);
    assert w[FRAME..] == b.DigestOf(w[..FRAME]);
  }

  /** Hosts of one byte order: opening a sealed frame restores it, whichever side sealed it. */
  lemma RoundTrip(a: Host, b: Host, m: Packed)
    requires Agree(a, b) && a.order == b.order
    ensures Open(b, Seal(a, m)).0 == -1
    ensures Open(b, Seal(a, m)).1[..FRAME] == m[..FRAME]
  {
    SealedIsAccepted(a, b, m);
    FlipTwice(a.order, m[..FRAME]);
  }

  lemma SubFrame(m: Packed, at: nat, n: nat)
    requires at + n <= FRAME
    ensures m[..FRAME][at..at + n] == m[at..at + n]
  {
  }

  /** Any two byte orders: every integer field keeps its value. */
  lemma IntegersArrive(a: Host, b: Host, m: Packed, at: nat, n: nat)
    requires Agree(a, b) && IsInteger(m[TYPE_AT], at, n)
    ensures Open(b, Seal(a, m)).0 == -1
    ensures Value(b.order, Open(b, Seal(a, m)).1[at..at + n]) == Value(a.order, m[at..at + n])
  {
    var f := m[..FRAME];
    var wire := Flip(a.order, f);
    var back := Flip(b.order, wire);
    SealedIsAccepted(a, b, m);
    FlipField(a.order, f, at, n);
    FlipField(b.order, back, at, n);
    FlipTwice(b.order, wire);
    ToBigValue(a.order, f[at..at + n]);
    ToBigValue(b.order, back[at..at + n]);
    SubFrame(m, at, n);
    assert Open(b, Seal(a, m)).1[at..at + n] == back[at..at + n];
  }

  /** Any two byte orders: type, padding and, except for TIME, the payload arrive as they are. */
  lemma BytesArrive(a: Host, b: Host, m: Packed)
    requires Agree(a, b)
    ensures var r := Open(b, Seal(a, m)).1;
            r[TYPE_AT..16] == m[TYPE_AT..16]
            && (m[TYPE_AT] != TIME ==> r[TYPE_AT..FRAME] == m[TYPE_AT..FRAME])
  {
    var wire := Flip(a.order, m[..FRAME]);
    SealedIsAccepted(a, b, m);
    FlipRest(a.order, m[..FRAME]);
    FlipRest(b.order, wire);
    assert m[..FRAME][TYPE_AT..16] == m[TYPE_AT..16];
    assert m[..FRAME][TYPE_AT..] == m[TYPE_AT..FRAME];
    var r := Open(b, Seal(a, m)).1;
    assert r[TYPE_AT..16] == Flip(b.order, wire)[TYPE_AT..16];
    assert r[TYPE_AT..FRAME] == Flip(b.order, wire)[TYPE_AT..];
  }

  /** The digest covers the whole frame, and nothing but the frame. */
  lemma DigestCovers(h: Host, frame: seq<byte>)
    ensures h.DigestOf(frame) == h.hmac(h.Key(), frame)
  {
  }

  /** A sealed frame carries the digest of all its 64 bytes. */
  lemma SealedDigest(h: Host, m: Packed)
    ensures Seal(h, m)[64..] == h.hmac(h.Key(), Seal(h, m)[..64])
  {
  }

  /** A rejected frame is left as it came, and the verdict is the first wrong digest byte. */
  lemma RejectedIsUntouched(h: Host, w: Packed)
    ensures var (found, r) := Open(h, w);
            var digest := h.hmac(h.Key(), w[..64]);
            && (found == -1 <==> w[FRAME..] == digest)
            && (found != -1 ==> && 0 <= found < 32 && r == w && w[FRAME + found] != digest[found]
                                && w[FRAME..FRAME + found] == digest[..found])
  {
    var k := FirstDifference(w[FRAME..], h.DigestOf(w[..FRAME]));
    assert w[FRAME..][0..] == w[FRAME..];
    if k >= 0 {
      assert w[FRAME..][0..k] == w[FRAME..FRAME + k];
    }
  }

  /**
   * A frame changed in any of its 64 bytes under its old digest is rejected, unless the two frames
   * have one digest.
   */
  lemma TamperedIsRejected(h: Host, w: Packed, v: Packed)
    requires Open(h, w).0 == -1 && v[64..] == w[64..] && v[..64] != w[..64]
    requires h.hmac(h.Key(), v[..64]) != h.hmac(h.Key(), w[..64])
    ensures Open(h, v).0 != -1
  {
    RejectedIsUntouched(h, w);
    RejectedIsUntouched(h, v);
  }

  /** The key each side hands to HMAC: the secret, on the server up to its first zero, then zeros. */
  lemma KeyOf(h: Host)
    ensures |h.Key()| == 64
    ensures h.side.Firmware? ==> forall i :: 0 <= i < 64 ==> h.Key()[i] == if i < |h.secret| then h.secret[i] else 0
    ensures h.side.Server? ==> forall i :: 0 <= i < 64 ==>
              h.Key()[i] == if i < |h.secret| && 0 !in h.secret[..i + 1] then h.secret[i] else 0
  {
    CStringOf(h.secret);
    var n := |CString(h.secret)|;
    if h.side.Server? {
      forall i | 0 <= i < 64
        ensures h.Key()[i] == if i < |h.secret| && 0 !in h.secret[..i + 1] then h.secret[i] else 0
      {
        if n <= i < |h.secret| {
          assert h.secret[..i + 1][n] == 0;
        }
      }
    }
  }

  /** Nothing but zeros after the first zero. */
  predicate ZerosLast(s: seq<byte>) {
    forall i, j :: 0 <= i < j < |s| && s[i] == 0 ==> s[j] == 0
  }

  lemma {:induction false} CStringOf(s: seq<byte>)
    ensures CString(s) == s[..|CString(s)|]
    ensures |CString(s)| < |s| ==> s[|CString(s)|] == 0
    ensures forall i :: 0 <= i < |CString(s)| ==> s[i] != 0
  {
    if s != [] && s[0] != 0 {
      CStringOf(s[1..]);
    }
  }

  /** Measuring the key as a string changes the filled-up key only by bytes after the first zero. */
  lemma PaddedCString(s: Secret)
    ensures Padded(CString(s)) == Padded(s) <==> ZerosLast(s)
  {
    CStringOf(s);
    var n := |CString(s)|;
    assert forall i :: 0 <= i < BLOCK ==> Padded(CString(s))[i] == if i < n then s[i] else 0;
    assert forall i :: 0 <= i < BLOCK ==> Padded(s)[i] == if i < |s| then s[i] else 0;
    if ZerosLast(s) {
      assert forall i :: n <= i < |s| ==> s[i] == 0;
    }
    if Padded(CString(s)) == Padded(s) {
      assert forall i :: n <= i < |s| ==> s[i] == Padded(s)[i] == 0;
    }
  }

  /** A digest function that tells key k from all others. */
  function Telling(k: BlockKey): (BlockKey, seq<byte>) -> Digest {
    (key, frame) => if key == k then seq(32, _ => 0) else seq(32, _ => 1)
  }

  /**
   * Firmware and server compute the same digests, for every digest function and frame, if and
   * only if the secret holds nothing but zeros after its first zero byte.
   */
  lemma KeysAgree(order: ByteOrder, secret: Secret, floats: Floats)
    ensures (forall hmac: (BlockKey, seq<byte>) -> Digest, frame: seq<byte> ::
               Host(Server, order, secret, hmac, floats).DigestOf(frame)
               == Host(Firmware, order, secret, hmac, floats).DigestOf(frame))
            <==> ZerosLast(secret)
  {
    PaddedCString(secret);
    if !ZerosLast(secret) {
      var hmac := Telling(Padded(secret));
      var server, firmware := Host(Server, order, secret, hmac, floats), Host(Firmware, order, secret, hmac, floats);
      assert server.DigestOf([])[0] == 1 && firmware.DigestOf([])[0] == 0;
    }
  }

  /**
   * Why forwarders copy the bytes first: the opened buffer passes again exactly when opening
   * left it unchanged (unless the digests of these two frames collide).
   */
  lemma OpenedBufferPassesAgain(h: Host, w: Packed)
    requires Open(h, w).0 == -1
    requires h.DigestOf(Flip(h.order, w[..FRAME])) == h.DigestOf(w[..FRAME]) ==> Flip(h.order, w[..FRAME]) == w[..FRAME]
    ensures Open(h, Open(h, w).1).0 == -1 <==> Open(h, w).1 == w
  {
    var r := Open(h, w).1;
    RejectedIsUntouched(h, w);
    RejectedIsUntouched(h, r);
    assert r[..FRAME] == Flip(h.order, w[..FRAME]) && r[FRAME..] == w[FRAME..];
    assert w == w[..FRAME] + w[FRAME..];
  }

  // ---------------------------------------------------------------- in place

  /** One field assignment `x = htobeN(x)` (or beNtoh) as it acts on the bytes of the field. */
  method SwapField(o: ByteOrder, buf: array<byte>, at: nat, n: nat)
    requires at + n <= buf.Length
    modifies buf
    ensures forall i :: 0 <= i < buf.Length ==>
              buf[i] == old(buf[if o.LittleEndian? && at <= i < at + n then at + at + n - 1 - i else i])
  {
    if o.LittleEndian? {
      forall i | at <= i < at + n {
        buf[i] := buf[at + at + n - 1 - i];
      }
    }
  }

  /** The two fields every frame has. */
  method SwapHeader(o: ByteOrder, buf: array<byte>)
    requires buf.Length >= WHOLE
    modifies buf
    ensures forall i :: 0 <= i < buf.Length ==>
              buf[i] == old(buf[if o.LittleEndian? && i < 10 then Mirror(SENSOR, i) else i])
  {
    SwapField(o, buf, 0, 8);
    SwapField(o, buf, 8, 2);
  }

  /** The two fields of a TIME frame. */
  method SwapTimes(o: ByteOrder, buf: array<byte>)
    requires buf.Length >= WHOLE
    modifies buf
    ensures forall i :: 0 <= i < buf.Length ==>
              buf[i] == old(buf[if o.LittleEndian? && 16 <= i < 32 then Mirror(TIME, i) else i])
  {
    SwapField(o, buf, 16, 8);
    SwapField(o, buf, 24, 8);
  }

  method SwapFields(o: ByteOrder, buf: array<byte>)
    requires buf.Length >= WHOLE
    modifies buf
    ensures buf[..FRAME] == Flip(o, old(buf[..FRAME]))
    ensures buf[FRAME..] == old(buf[FRAME..])
  {
    ghost var was := buf[..FRAME];
    var kind := buf[TYPE_AT];
    SwapHeader(o, buf);
    if kind == TIME {
      SwapTimes(o, buf);
    }
    assert buf[..FRAME] == Flip(o, was);
  }

  method HtonFrameHmac(h: Host, buf: array<byte>)
    requires buf.Length >= WHOLE
    modifies buf
    ensures buf[..WHOLE] == Seal(h, old(buf[..WHOLE]))
    ensures buf[WHOLE..] == old(buf[WHOLE..])
  {
    ghost var was := buf[..WHOLE];
    ghost var rest := buf[WHOLE..];
    SwapFields(h.order, buf);
    assert was[..FRAME] == old(buf[..FRAME]) && rest == buf[FRAME..][32..];
    var digest := h.DigestOf(buf[..FRAME]);
    ghost var wire := buf[..FRAME];
    forall i | 0 <= i < 32 {
      buf[FRAME + i] := digest[i];
    }
    assert buf[..WHOLE] == wire + digest;
  }

  method NtohFrameHmac(h: Host, buf: array<byte>) returns (found: int)
    requires buf.Length >= WHOLE
    modifies buf
    ensures (found, buf[..WHOLE]) == Open(h, old(buf[..WHOLE]))
    ensures buf[WHOLE..] == old(buf[WHOLE..])
  {
    ghost var was := buf[..WHOLE];
    assert was[..FRAME] == buf[..FRAME];
    var digest := h.DigestOf(buf[..FRAME]);
    found := -1;
    var i := 0;
    while i < 32
      invariant 0 <= i <= 32 && found == -1
      invariant FirstDifference(was[FRAME..], digest) == FirstDifference(was[FRAME..], digest, i)
    {
      if buf[FRAME + i] != digest[i] {
        found := i;
        break;
      }
      i := i + 1;
    }
    if found == -1 {
      SwapFields(h.order, buf);
      assert buf[..WHOLE] == buf[..FRAME] + buf[FRAME..][..32];
      assert was[FRAME..] == old(buf[FRAME..])[..32];
      assert buf[WHOLE..] == buf[FRAME..][32..];
    }
  }
}
