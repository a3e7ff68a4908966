/** The UDP server: it counts accepted SENSOR frames and answers every eleventh with a TIME frame. */
module Server {
  import opened Types
  import opened Codec
  import opened Frames
  import opened Node
  import opened Service

  const BUF_SIZE: nat := 1024

  const TIME_TICKS: nat := 10

  /** A datagram as it arrives: the sender's address, the bytes, and the server's clock at that time. */
  datatype Datagram = Datagram(from: nat, bytes: seq<byte>, clock: Instant)

  /** A TIME frame sent after datagram `at`. */
  datatype Answer = Answer(at: nat, to: nat, frame: Packed)

  /** Long enough, digest good, type SENSOR. */
  predicate IsSensor(h: Host, d: Datagram) {
    && |d.bytes| >= WHOLE
    && var r := Read(h, d.bytes[..WHOLE]); r.Accepted? && r.msg.SensorMsg?
  }

  /** Said of the bytes alone: 96 of them or more, the digest of the first 64 right, type 0. */
  lemma SensorBytes(h: Host, d: Datagram)
    ensures IsSensor(h, d) <==>
            |d.bytes| >= 96 && d.bytes[64..96] == h.hmac(h.Key(), d.bytes[..64]) && d.bytes[10] == 0
  {
    if |d.bytes| >= 96 {
      hide Read, Parse, Open;
      var w: Packed := d.bytes[..96];
      assert w[..64] == d.bytes[..64] && w[64..] == d.bytes[64..96];
      ReadWire(h, w);
      ParsedType(BigEndian, h.floats.load, w[..64]);
    }
  }

  /** A sealed frame counts, at the very length it is sent with or longer, if and only if it is of type SENSOR. */
  lemma SealedCounts(h: Host, m: Packed, tail: seq<byte>, from: nat, clock: Instant)
    ensures IsSensor(h, Datagram(from, Seal(h, m) + tail, clock)) <==> m[10] == 0
  {
    var w := Seal(h, m);
    SensorBytes(h, Datagram(from, w + tail, clock));
    SealedDigest(h, m);
    assert (w + tail)[64..96] == w[64..] && (w + tail)[..64] == w[..64];
  }

  /** How many of the datagrams are accepted SENSOR frames. */
  function Counted(h: Host, ds: seq<Datagram>): (n: nat)
    ensures n <= |ds|
  {
    if ds == [] then 0
    else Counted(h, ds[..|ds| - 1]) + if IsSensor(h, ds[|ds| - 1]) then 1 else 0
  }

  /** The datagrams after which a TIME frame is due. */
  predicate Due(h: Host, ds: seq<Datagram>, i: nat)
    requires i < |ds|
  {
    IsSensor(h, ds[i]) && Counted(h, ds[..i + 1]) % 11 == 0
  }

  lemma CountNext(h: Host, ds: seq<Datagram>, i: nat)
    requires i < |ds|
    ensures Counted(h, ds[..i + 1]) == Counted(h, ds[..i]) + if IsSensor(h, ds[i]) then 1 else 0
  {
    assert ds[..i + 1][..i] == ds[..i];
  }

  /** Datagrams that are short, rejected or of another type change no count. */
  lemma {:induction false} OnlySensorsCount(h: Host, ds: seq<Datagram>, i: nat)
    requires i < |ds| && !IsSensor(h, ds[i])
    ensures Counted(h, ds[..i] + ds[i + 1..]) == Counted(h, ds)
  {
    hide IsSensor;
    var n := |ds| - 1;
    if i == n {
      assert ds[..i] + ds[i + 1..] == ds[..n];
    } else {
      OnlySensorsCount(h, ds[..n], i);
      assert ds[..n][..i] + ds[..n][i + 1..] == (ds[..i] + ds[i + 1..])[..n - 1];
    }
  }

  /** A datagram's bytes: a sealed frame, with whatever after it, or less than a frame. */
  datatype Sent = Whole(m: Packed, tail: seq<byte>) | Short(bytes: seq<byte>)

  function SentBytes(h: Host, s: Sent): seq<byte> {
    match s
    case Whole(m, tail) => Seal(h, m) + tail
    case Short(bytes) => bytes
  }

  /** How many of them are sealed SENSOR frames. */
  function SensorFrames(sent: seq<Sent>): nat {
    if sent == [] then 0
    else SensorFrames(sent[..|sent| - 1]) + if sent[|sent| - 1].Whole? && sent[|sent| - 1].m[10] == 0 then 1 else 0
  }

  /** Sealed SENSOR frames are what counts, among any short datagrams and sealed frames of other types. */
  lemma {:induction false} SealedSensorsCount(h: Host, ds: seq<Datagram>, sent: seq<Sent>)
    requires |ds| == |sent|
    requires forall i :: 0 <= i < |ds| ==>
               ds[i].bytes == SentBytes(h, sent[i]) && (sent[i].Short? ==> |sent[i].bytes| < 96)
    ensures Counted(h, ds) == SensorFrames(sent)
  {
    hide IsSensor;
    if ds != [] {
      var n := |ds| - 1;
      SealedSensorsCount(h, ds[..n], sent[..n]);
      SensorBytes(h, ds[n]);
      if sent[n].Whole? {
        SealedCounts(h, sent[n].m, sent[n].tail, ds[n].from, ds[n].clock);
        assert ds[n] == Datagram(ds[n].from, SentBytes(h, sent[n]), ds[n].clock);
      }
    }
  }

  /** An answer to the k-th eleventh accepted SENSOR frame, sent where that frame came from. */
  ghost predicate Answers(h: Host, ds: seq<Datagram>, k: nat, a: Answer) {
    && a.at < |ds| && Due(h, ds, a.at)
    && Counted(h, ds[..a.at + 1]) == 11 * (k + 1)
    && a.to == ds[a.at].from
    && Read(h, a.frame) == Accepted(TimeMsg(0, ds[a.at].clock))
  }

  /**
   * An answer reaches the whole mesh: the root accepts it and passes it on, and from the bytes it
   * passes on every node with the key reads the server's clock, addressed to all.
   */
  lemma AnswersArrive(server: Host, root: Host, node: Host, ds: seq<Datagram>, k: nat, a: Answer, from: Mac)
    requires Answers(server, ds, k, a) && Agree(server, root) && Agree(server, node)
    ensures Read(root, a.frame) == Accepted(TimeMsg(0, ds[a.at].clock))
    ensures Heard(node, Got(from, 96), a.frame) == Accepted(TimeMsg(0, ds[a.at].clock))
  {
    hide Read;
    ReadAlikeButFloats(server, root, a.frame);
    ReadAlikeButFloats(server, node, a.frame);
  }

  /** One receive: the datagram's bytes, cut to the buffer, over what the buffer held before. */
  method ReceiveUdp(d: Datagram, rx: array<byte>) returns (n: nat)
    requires rx.Length == BUF_SIZE
    modifies rx
    ensures n == if |d.bytes| < BUF_SIZE then |d.bytes| else BUF_SIZE
    ensures rx[..n] == d.bytes[..n]
  {
    n := if |d.bytes| < BUF_SIZE then |d.bytes| else BUF_SIZE;
    forall i | 0 <= i < n {
      rx[i] := d.bytes[i];
    }
  }

  /** The validation of one received datagram. */
  method Validate(h: Host, d: Datagram, rx: array<byte>) returns (sensor: bool)
    requires rx.Length == BUF_SIZE
    modifies rx
    ensures sensor == IsSensor(h, d)
    ensures sensor <==> |d.bytes| >= 96 && d.bytes[64..96] == h.hmac(h.Key(), d.bytes[..64]) && d.bytes[10] == 0
  {
    hide Open, Parse;
    SensorBytes(h, d);
    var n := ReceiveUdp(d, rx);
    sensor := false;
    if n >= WHOLE {
      ghost var w: Packed := rx[..WHOLE];
      assert w == rx[..n][..WHOLE] == d.bytes[..WHOLE];
      var found := NtohFrameHmac(h, rx);
      if found == -1 {
        assert rx[..WHOLE][..FRAME] == rx[..FRAME];
        ParsedType(h.order, h.floats.load, rx[..FRAME]);
        sensor := rx[TYPE_AT] == SENSOR;
      }
    }
  }

  /** The state of the loop after i datagrams. */
  ghost predicate Served(h: Host, ds: seq<Datagram>, i: nat, ticks: nat, answers: seq<Answer>) {
    && i <= |ds| && ticks <= TIME_TICKS
    && Counted(h, ds[..i]) == 11 * |answers| + ticks
    && (forall k :: 0 <= k < |answers| ==> Answers(h, ds, k, answers[k]))
    && (forall j :: 0 <= j < i && Due(h, ds, j) ==> exists k :: 0 <= k < |answers| && answers[k].at == j)
  }

  lemma ServedNone(h: Host, ds: seq<Datagram>)
    ensures Served(h, ds, 0, 0, [])
  {
    assert ds[..0] == [];
  }

  lemma ServedAll(h: Host, ds: seq<Datagram>, ticks: nat, answers: seq<Answer>)
    requires Served(h, ds, |ds|, ticks, answers)
    ensures |answers| == Counted(h, ds) / 11
    ensures ticks == Counted(h, ds) % 11
    ensures forall k :: 0 <= k < |answers| ==> Answers(h, ds, k, answers[k])
    ensures forall i :: 0 <= i < |ds| && Due(h, ds, i) ==> exists k :: 0 <= k < |answers| && answers[k].at == i
  {
    hide Answers, Due, Counted;
    assert ds[..|ds|] == ds;
  }

  lemma ServedNoAnswer(h: Host, ds: seq<Datagram>, i: nat, ticks: nat, answers: seq<Answer>)
    requires Served(h, ds, i, ticks, answers) && i < |ds|
    requires IsSensor(h, ds[i]) ==> ticks < TIME_TICKS
    ensures Served(h, ds, i + 1, ticks + if IsSensor(h, ds[i]) then 1 else 0, answers)
  {
    hide IsSensor, Answers;
    CountNext(h, ds, i);
  }

  lemma ServedAnswer(h: Host, ds: seq<Datagram>, i: nat, answers: seq<Answer>, a: Answer)
    requires Served(h, ds, i, TIME_TICKS, answers) && i < |ds| && IsSensor(h, ds[i])
    requires a.at == i && a.to == ds[i].from && Read(h, a.frame) == Accepted(TimeMsg(0, ds[i].clock))
    ensures Served(h, ds, i + 1, 0, answers + [a])
  {
    hide IsSensor, Read;
    CountNext(h, ds, i);
    var after := answers + [a];
    assert Answers(h, ds, |answers|, a);
    forall j | 0 <= j < i + 1 && Due(h, ds, j)
      ensures exists k :: 0 <= k < |after| && after[k].at == j
    {
      if j == i {
        assert after[|answers|].at == i;
      } else {
        var k :| 0 <= k < |answers| && answers[k].at == j;
        assert after[k].at == j;
      }
    }
  }

  /** One turn of the loop: receive, validate, count, and answer when the count passes the threshold. */
  method HandleDatagram(h: Host, ghost ds: seq<Datagram>, i: nat, d: Datagram, rx: array<byte>,
                        tx: array<byte>, junk: Packed, before: nat, sent: seq<Answer>)
    returns (ticks: nat, answers: seq<Answer>)
    requires rx.Length == BUF_SIZE && tx.Length == BUF_SIZE && rx != tx
    requires i < |ds| && d == ds[i] && Fits(d.clock.sec) && Fits(d.clock.usec)
    requires before <= TIME_TICKS && Served(h, ds, i, before, sent)
    modifies rx, tx
    ensures ticks <= TIME_TICKS && Served(h, ds, i + 1, ticks, answers)
  {
    hide Read, IsSensor, Served;
    ticks, answers := before, sent;
    var sensor := Validate(h, d, rx);
    if sensor {
      ticks := ticks + 1;
    }
    if ticks > TIME_TICKS {
      var n := CreateTimeFrame(h, 0, d.clock, junk, tx, BUF_SIZE);
      var answer := Answer(i, d.from, tx[..n]);
      ServedAnswer(h, ds, i, sent, answer);
      answers := answers + [answer];
      ticks := 0;
    } else {
      ServedNoAnswer(h, ds, i, before, sent);
    }
  }

  /**
   * The server's loop over successfully received datagrams: one TIME frame for every eleventh
   * accepted SENSOR frame, at that frame and to its sender; the counter holds the remainder.
   */
  method ServeDatagrams(h: Host, ds: seq<Datagram>, rx: array<byte>, tx: array<byte>, junk: Packed)
    returns (ticks: nat, answers: seq<Answer>)
    requires rx.Length == BUF_SIZE && tx.Length == BUF_SIZE && rx != tx
    requires forall i :: 0 <= i < |ds| ==> Fits(ds[i].clock.sec) && Fits(ds[i].clock.usec)
    modifies rx, tx
    ensures |answers| == Counted(h, ds) / 11
    ensures ticks == Counted(h, ds) % 11
    ensures forall k :: 0 <= k < |answers| ==> Answers(h, ds, k, answers[k])
    ensures forall i :: 0 <= i < |ds| && Due(h, ds, i) ==> exists k :: 0 <= k < |answers| && answers[k].at == i
  {
    hide Answers, Due, Counted, Served;
    ticks, answers := 0, [];
    ServedNone(h, ds);
    var i := 0;
    while i < |ds|
      invariant i <= |ds| && ticks <= TIME_TICKS
      invariant Served(h, ds, i, ticks, answers)
    {
      ticks, answers := HandleDatagram(h, ds, i, ds[i], rx, tx, junk, ticks, answers);
      i := i + 1;
    }
    ServedAll(h, ds, ticks, answers);
  }
}
