/**
 * The two service tasks of mesh_main.c on raw bytes: frames are copied for sending before they are
 * decoded in place, because decoding changes the buffer.
 */
module Service {
  import opened Types
  import opened Samples
  import opened Codec
  import opened Frames
  import opened Aggregate
  import opened AggregateStore
  import opened Node
  import opened MeshNodes
  import opened ChildStore
  import Children

  /** What a receive call returns. */
  datatype Arrival =
    | TimedOut
    | Failed(from: Mac)
    | Got(from: Mac, size: nat)

  /** A frame handed to the network: where it goes and the bytes sent. */
  datatype Shipment = Shipment(out: Out, bytes: seq<byte>)

  function MsgOf(o: Out): Msg {
    match o
    case ToServer(m) => m
    case ToParent(m) => m
    case ToRoot(m) => m
  }

  function Outs(ships: seq<Shipment>): (r: seq<Out>)
    ensures |r| == |ships| && forall i :: 0 <= i < |ships| ==> r[i] == ships[i].out
  {
    seq(|ships|, i requires 0 <= i < |ships| => ships[i].out)
  }

  /** Every shipment's bytes say, to a reader of host h, the message it stands for. */
  ghost predicate Says(h: Host, ships: seq<Shipment>) {
    forall i :: 0 <= i < |ships| ==>
      |ships[i].bytes| == WHOLE && Read(h, ships[i].bytes) == Accepted(MsgOf(ships[i].out))
  }

  /** What the receive phase makes of an arrival: nothing, unless a whole frame with a good digest came. */
  function Heard(h: Host, a: Arrival, w: Packed): Reading {
    if a.Got? && a.size >= WHOLE then Read(h, w) else Rejected
  }

  /**
   * A node that gets such a shipment and has the key acts on the message it stands for: on exactly
   * that message if it reads floats alike, and otherwise on one that differs at most in its floats.
   */
  lemma HeardAsSent(a: Host, b: Host, ships: seq<Shipment>, i: nat, from: Mac)
    requires Says(a, ships) && Agree(a, b) && i < |ships|
    ensures |ships[i].bytes| == WHOLE
    ensures var heard := Heard(b, Got(from, WHOLE), ships[i].bytes);
            && SameButFloats(Accepted(MsgOf(ships[i].out)), heard)
            && (a.floats.load == b.floats.load ==> heard == Accepted(MsgOf(ships[i].out)))
  {
    hide Read;
    ReadAlikeButFloats(a, b, ships[i].bytes);
    if a.floats.load == b.floats.load {
      ReadAlike(a, b, ships[i].bytes);
    }
  }

  /** Less than a whole frame is not read, whatever the buffer still holds. */
  lemma ShortIsNotHeard(h: Host, from: Mac, n: nat, w: Packed)
    ensures Heard(h, Got(from, n), w) == if n < 96 then Rejected else Read(h, w)
    ensures Heard(h, TimedOut, w) == Heard(h, Failed(from), w) == Rejected
  {
  }

  function OnHeard(cfg: Config, s: State, a: Arrival, r: Reading, now: Instant, root: bool): Outcome
    requires s.Valid()
    requires r.Accepted? ==> a.Got?
  {
    if r.Accepted? then OnReceive(cfg, s, a.from, r.msg, now, root) else Outcome(s, [], [])
  }

  lemma ForwardSays(cfg: Config, s: State, from: Mac, msg: Msg, now: Instant, root: bool)
    requires s.Valid()
    ensures forall i :: 0 <= i < |OnReceive(cfg, s, from, msg, now, root).outs| ==>
              MsgOf(OnReceive(cfg, s, from, msg, now, root).outs[i]) == msg
  {
  }

  function Sent(outs: seq<Out>, bytes: seq<byte>): (r: seq<Shipment>)
    ensures Outs(r) == outs && forall i :: 0 <= i < |r| ==> r[i].bytes == bytes
  {
    seq(|outs|, i requires 0 <= i < |outs| => Shipment(outs[i], bytes))
  }

  /** What the receive phase hands on: the bytes as they came, for each frame it forwards. */
  function HandedOn(h: Host, cfg: Config, s: State, a: Arrival, w: Packed, now: Instant, root: bool): (r: seq<Shipment>)
    requires s.Valid()
    ensures forall i :: 0 <= i < |r| ==> r[i].bytes == w
  {
    Sent(OnHeard(cfg, s, a, Heard(h, a, w), now, root).outs, w)
  }

  lemma ReadOpened(h: Host, w: Packed)
    ensures Read(h, w) == if Open(h, w).0 == -1 then Accepted(Parse(h.order, h.floats.load, Open(h, w).1[..FRAME]))
                                else Rejected
  {
  }

  lemma OwnIgnored(cfg: Config, s: State, r: Reading, now: Instant, root: bool)
    requires s.Valid() && r.Accepted?
    ensures OnReceive(cfg, s, cfg.sta, r.msg, now, root) == Outcome(s, [], [])
  {
  }

  /** Copies n received bytes for sending, then decodes the frame in place. */
  method CopyAndRead(h: Host, rx: array<byte>, tx: array<byte>, n: nat) returns (r: Reading)
    requires rx != tx && WHOLE <= n <= rx.Length && n <= tx.Length
    modifies rx, tx
    ensures tx[..n] == old(rx[..n])
    ensures rx[..WHOLE] == Open(h, old(rx[..WHOLE])).1
    ensures r == Read(h, old(rx[..WHOLE]))
  {
    hide Open, Parse, Read;
    ghost var w := rx[..WHOLE];
    forall i | 0 <= i < n {
      tx[i] := rx[i];
    }
    assert tx[..n] == rx[..n] && rx[..WHOLE] == w;
    var found := NtohFrameHmac(h, rx);
    ReadOpened(h, w);
    assert rx[..WHOLE][..FRAME] == rx[..FRAME];
    r := if found == -1 then Accepted(Parse(h.order, h.floats.load, rx[..FRAME])) else Rejected;
  }

  /**
   * The receive phase of the mesh service. Whatever is forwarded are the bytes as they were
   * received, and they say the forwarded message.
   */
  method ReceiveFrame(h: Host, node: MeshNode, rx: array<byte>, tx: array<byte>, a: Arrival, now: Instant, root: bool)
    returns (ships: seq<Shipment>)
    requires node.Valid() && rx.Length >= WHOLE && tx.Length >= WHOLE
    requires rx != tx && {rx, tx} !! node.Footprint()
    modifies node.Footprint(), rx, tx
    ensures node.Shows(OnHeard(node.cfg, old(node.View()), a, Heard(h, a, old(rx[..WHOLE])), now, root),
                       old(node.ledger), Outs(ships))
    ensures (a.TimedOut? || a.Failed? || a.from == node.cfg.sta || a.size < 96
             || old(rx[64..96]) != h.hmac(h.Key(), old(rx[..64]))) ==>
              node.View() == old(node.View()) && node.ledger == old(node.ledger) && ships == []
    ensures (a.Got? && a.from != node.cfg.sta && a.size >= 96 && Read(h, old(rx[..WHOLE])).Accepted?) ==>
              node.Shows(OnReceive(node.cfg, old(node.View()), a.from, Read(h, old(rx[..WHOLE])).msg, now, root),
                         old(node.ledger), Outs(ships))
    ensures ships == HandedOn(h, node.cfg, old(node.View()), a, old(rx[..WHOLE]), now, root)
    ensures Says(h, ships)
  {
    hide Read, OnReceive, Open, Parse;
    ghost var w := rx[..WHOLE];
    assert w[..64] == rx[..64] && w[64..] == rx[64..96];
    ReadLayout(h, w);
    ships := [];
    if a.TimedOut? {
      return;
    }
    var own := SameAddress(node.cfg.sta, a.from);
    if own == 0 || a.Failed? || a.size < WHOLE {
      ghost var r := Heard(h, a, rx[..WHOLE]);
      if r.Accepted? {
        OwnIgnored(node.cfg, node.View(), r, now, root);
      }
      return;
    }
    ghost var was := node.View();
    var r := CopyAndRead(h, rx, tx, WHOLE);
    if r.Accepted? {
      var bytes := tx[..WHOLE];
      var outs := node.Receive(a.from, r.msg, now, root);
      ForwardSays(node.cfg, was, a.from, r.msg, now, root);
      ships := Sent(outs, bytes);
    }
  }

  // ---------------------------------------------------------------- many hops

  /** A node on the way of a frame, in its present state, and the neighbour the frame comes from. */
  datatype Station = Station(host: Host, cfg: Config, state: State, prev: Mac, now: Instant, root: bool)

  /** What the last of the stations reads when each one acts on what the one before hands on. */
  function Carry(path: seq<Station>, w: Packed): Reading
    requires path != [] && forall i :: 0 <= i < |path| ==> path[i].state.Valid()
  {
    var st := path[0];
    var a := Got(st.prev, WHOLE);
    if |path| == 1 then Heard(st.host, a, w)
    else
      var ships := HandedOn(st.host, st.cfg, st.state, a, w, st.now, st.root);
      if ships == [] then Rejected else Carry(path[1..], ships[0].bytes)
  }

  /** The station forwards frames of this module: they are not its own and not a known child's. */
  predicate HandsOn(st: Station, id: ModuleId)
    requires st.state.Valid()
  {
    st.prev != st.cfg.sta && !Children.IsChild(st.state.kids, st.prev, id)
  }

  lemma StationHandsOn(st: Station, w: Packed)
    requires st.state.Valid() && Read(st.host, w).Accepted? && Read(st.host, w).msg.SensorMsg?
    ensures var ships := HandedOn(st.host, st.cfg, st.state, Got(st.prev, WHOLE), w, st.now, st.root);
            if HandsOn(st, Read(st.host, w).msg.id) then |ships| == 1 && ships[0].bytes == w else ships == []
  {
    hide Read, Children.IsChild, Push, Associate;
  }

  /**
   * Store and forward: a SENSOR frame the first station accepts reaches the last one if and only if
   * every station before it hands it on, and then the last one reads it from the bytes first sent.
   */
  lemma {:induction false} CarriesOn(path: seq<Station>, w: Packed)
    requires path != [] && forall i :: 0 <= i < |path| ==> path[i].state.Valid() && Agree(path[0].host, path[i].host)
    requires Read(path[0].host, w).Accepted? && Read(path[0].host, w).msg.SensorMsg?
    ensures var id, last := Read(path[0].host, w).msg.id, path[|path| - 1].host;
            if forall i :: 0 <= i < |path| - 1 ==> HandsOn(path[i], id) then
              && Carry(path, w) == Read(last, w) && Read(last, w).Accepted?
              && SameButFloats(Read(path[0].host, w), Read(last, w))
            else Carry(path, w) == Rejected
    decreases |path|
  {
    hide Read, HandsOn, HandedOn;
    if |path| == 1 {
    } else {
      var rest := path[1..];
      StationHandsOn(path[0], w);
      ReadAlikeButFloats(path[0].host, path[1].host, w);
      CarriesOn(rest, w);
      assert forall i :: 0 <= i < |rest| ==> rest[i] == path[i + 1];
      assert forall i :: 0 < i < |path| - 1 ==> path[i] == rest[i - 1];
    }
  }

  // ---------------------------------------------------------------- sending

  /** The message as it survives storage in floats. */
  function Rounded(fp: Floats, m: Msg): Msg {
    if m.SensorMsg? then SensorMsg(m.id, fp.load(fp.store(m.period)), RoundedSample(fp, m.values)) else m
  }

  function RoundedSample(fp: Floats, x: Sample): (r: Sample) {
    seq(CHANNELS, c requires 0 <= c < CHANNELS => fp.load(fp.store(x[c])))
  }

  function Stored(store: real -> Word, x: Sample): (s: seq<byte>)
    ensures |s| == CHANNELS * WORD
  {
    seq(CHANNELS * WORD, i requires 0 <= i < CHANNELS * WORD => store(x[i / WORD])[i % WORD])
  }

  /** Values that four bytes can hold exactly are not changed at all. */
  lemma ExactRounded(fp: Floats, id: ModuleId, period: real, values: Sample)
    requires fp.load(fp.store(period)) == period
    requires forall c :: 0 <= c < CHANNELS ==> fp.load(fp.store(values[c])) == values[c]
    ensures Rounded(fp, SensorMsg(id, period, values)) == SensorMsg(id, period, values)
  {
  }

  lemma StoredReads(fp: Floats, x: Sample)
    ensures SampleAt(fp.load, Stored(fp.store, x)) == RoundedSample(fp, x)
  {
    forall c | 0 <= c < CHANNELS
      ensures SampleAt(fp.load, Stored(fp.store, x))[c] == RoundedSample(fp, x)[c]
    {
      assert Stored(fp.store, x)[WORD * c..WORD * c + WORD] == fp.store(x[c]);
    }
  }

  /** The node's own advertisement, sent to its parent when the service starts. */
  method SendAdvertisement(h: Host, node: MeshNode, tx: array<byte>, connected: bool,
                           root: bool, now: Instant, junk: Packed) returns (ships: seq<Shipment>)
    requires node.Valid() && tx.Length >= WHOLE && tx !in node.Footprint()
    modifies node.Footprint(), tx
    ensures node.Shows(OnStart(node.cfg, old(node.View()), connected, root), old(node.ledger), Outs(ships))
    ensures Says(h, ships)
  {
    hide Read;
    var outs := node.Start(connected, root);
    ships := [];
    if connected && !root {
      var _ := CreateAdvFrame(h, node.cfg.self, node.cfg.sta, now, junk, tx, tx.Length);
      ships := [Shipment(outs[0], tx[..WHOLE])];
    }
  }

  /** The shipment made of one report, stamped: to the server from the root, to the parent from others. */
  ghost predicate Ships(h: Host, root: bool, r: Report, stamp: Instant, s: Shipment) {
    && |s.bytes| == WHOLE && Stamp(h, s.bytes) == Pattern(stamp.sec)
    && s.out == (if root then ToServer(FrameOf(r)) else ToParent(FrameOf(r)))
    && Read(h, s.bytes) == Accepted(Rounded(h.floats, SensorMsg(r.id, r.delta, r.means)))
  }

  /** One aggregate as a frame. */
  method BuildReport(h: Host, r: Report, tx: array<byte>, now: Instant, root: bool, junk: Packed)
    returns (s: Shipment)
    requires tx.Length >= WHOLE
    modifies tx
    ensures Ships(h, root, r, now, s)
  {
    hide Read, Stamp;
    StoredReads(h.floats, r.means);
    var sensors := Stored(h.floats.store, r.means);
    var _ := CreateSensorFrame(h, r.id, h.floats.store(r.delta), sensors, now, junk, tx, tx.Length);
    s := Shipment(if root then ToServer(FrameOf(r)) else ToParent(FrameOf(r)), tx[..WHOLE]);
  }

  /** The last entries of live, last first, as reports at their clock readings and as shipments. */
  ghost predicate Drained(h: Host, root: bool, live: seq<Entry>, clock: Clock, stamps: Clock, reports: seq<Report>,
                          ships: seq<Shipment>)
    requires forall i :: 0 <= i < |live| ==> live[i].steps >= 1
  {
    && |ships| == |reports| <= |live|
    && forall i :: 0 <= i < |reports| ==>
         var k := |live| - 1 - i;
         reports[i] == ReportOf(live[k], ReadAt(clock, k)) && Ships(h, root, reports[i], ReadAt(stamps, k), ships[i])
  }

  lemma DrainedNext(h: Host, root: bool, live: seq<Entry>, clock: Clock, stamps: Clock, reports: seq<Report>,
                    ships: seq<Shipment>, s: Shipment)
    requires forall i :: 0 <= i < |live| ==> live[i].steps >= 1
    requires Drained(h, root, live, clock, stamps, reports, ships) && |reports| < |live|
    requires var k := |live| - 1 - |reports|;
             Ships(h, root, ReportOf(live[k], ReadAt(clock, k)), ReadAt(stamps, k), s)
    ensures var k := |live| - 1 - |reports|;
            Drained(h, root, live, clock, stamps, reports + [ReportOf(live[k], ReadAt(clock, k))], ships + [s])
  {
    hide Ships, ReportOf, ReadAt;
  }

  lemma DrainedAll(h: Host, root: bool, live: seq<Entry>, clock: Clock, stamps: Clock, reports: seq<Report>,
                   ships: seq<Shipment>)
    requires forall i :: 0 <= i < |live| ==> live[i].steps >= 1
    requires Drained(h, root, live, clock, stamps, reports, ships) && |reports| == |live|
    ensures reports == Drain(live, clock)
    ensures |ships| == |reports|
    ensures forall i :: 0 <= i < |ships| ==>
              Ships(h, root, reports[i], ReadAt(stamps, |ships| - 1 - i), ships[i])
  {
    hide Ships, ReportOf, ReadAt;
    DrainAt(live, clock);
  }

  /** The drain loop: take the last entry's aggregate, build its frame in the transmit buffer, send it. */
  method DrainFrames(h: Host, agg: AggregateTable, tx: array<byte>, clock: Clock, stamps: Clock, root: bool,
                     junk: Packed)
    returns (ships: seq<Shipment>, ghost reports: seq<Report>)
    requires agg.Valid() && tx.Length >= WHOLE
    modifies agg`size, agg.slots, tx
    ensures agg.Valid() && agg.View() == Table(old(agg.View()).slots, 0)
    ensures reports == Drain(old(agg.View()).Live(), clock)
    ensures |ships| == |reports|
    ensures forall i :: 0 <= i < |ships| ==>
              Ships(h, root, reports[i], ReadAt(stamps, |ships| - 1 - i), ships[i])
  {
    hide Ships, ReportOf, ReadAt, UniqueIds, Drained;
    ghost var live := agg.View().Live();
    ships, reports := [], [];
    var index, report := agg.AggregateLastSensors(ReadAt(clock, if agg.size > 0 then agg.size - 1 else 0));
    assert Drained(h, root, live, clock, stamps, [], []) by {
      DrainedNone(h, root, live, clock, stamps);
    }
    while index >= 0
      invariant -1 <= index < |live| == |reports| + index + 1
      invariant agg.Valid() && agg.size == if index >= 0 then index else 0
      invariant agg.slots[..] == old(agg.slots[..])
      invariant index >= 0 ==> report == ReportOf(live[index], ReadAt(clock, index))
      invariant Drained(h, root, live, clock, stamps, reports, ships)
      decreases index
    {
      var shipment := BuildReport(h, report, tx, ReadAt(stamps, index), root, junk);
      DrainedNext(h, root, live, clock, stamps, reports, ships, shipment);
      ships, reports := ships + [shipment], reports + [report];
      index, report := agg.AggregateLastSensors(ReadAt(clock, if agg.size > 0 then agg.size - 1 else 0));
    }
    DrainedAll(h, root, live, clock, stamps, reports, ships);
  }

  lemma DrainedNone(h: Host, root: bool, live: seq<Entry>, clock: Clock, stamps: Clock)
    requires forall i :: 0 <= i < |live| ==> live[i].steps >= 1
    ensures Drained(h, root, live, clock, stamps, [], [])
  {
  }

  /** The sending phase: once due, every aggregate leaves as one frame and the board starts afresh. */
  method SendAggregates(h: Host, node: MeshNode, tx: array<byte>, clock: Clock, stamps: Clock, root: bool,
                        junk: Packed)
    returns (ships: seq<Shipment>, ghost outs: seq<Out>)
    requires node.Valid() && tx.Length >= WHOLE && tx !in node.Footprint()
    modifies node.Footprint(), tx
    ensures node.Shows(OnServe(node.cfg, old(node.View()), clock, root), old(node.ledger), outs)
    ensures if old(node.flush) || old(node.board.ticks) >= node.cfg.sendAfter then
              node.agg.size == 0 && node.board.ticks == 0 && |ships| == old(node.agg.size)
            else
              node.View() == old(node.View()) && node.ledger == old(node.ledger) && ships == []
    ensures |ships| == |outs|
    ensures forall i :: 0 <= i < |outs| ==>
              && |ships[i].bytes| == WHOLE && ships[i].out == outs[i]
              && Read(h, ships[i].bytes) == Accepted(Rounded(h.floats, MsgOf(outs[i])))
              && Stamp(h, ships[i].bytes) == Pattern(ReadAt(stamps, |ships| - 1 - i).sec)
  {
    hide Read, Stamp, Rounded, Drain;
    ships, outs := [], [];
    DrainAt(node.agg.View().Live(), clock);
    if node.flush || node.board.ticks >= node.cfg.sendAfter {
      ghost var reports;
      ships, reports := DrainFrames(h, node.agg, tx, clock, stamps, root, junk);
      outs := FramesOut(reports, root);
      node.board.ResetSensors();
      node.ledger := node.ledger + Emits(reports, clock);
    }
  }

  // ---------------------------------------------------------------- time frames

  /** The routing table without the node itself. */
  function Others(self: Mac, routes: seq<Mac>): seq<Mac> {
    if routes == [] then []
    else Others(self, routes[..|routes| - 1]) + (if routes[|routes| - 1] == self then [] else [routes[|routes| - 1]])
  }

  /** Every other node keeps its number of entries; the node itself has none. */
  lemma {:induction false} OthersCount(self: Mac, routes: seq<Mac>, m: Mac)
    ensures multiset(Others(self, routes))[m] == if m == self then 0 else multiset(routes)[m]
  {
    if routes != [] {
      OthersCount(self, routes[..|routes| - 1], m);
      assert routes == routes[..|routes| - 1] + [routes[|routes| - 1]];
    }
  }

  /** A routing table without repetitions: exactly the other nodes are served, each once. */
  lemma OneCopyEach(self: Mac, routes: seq<Mac>, m: Mac)
    requires forall i, j :: 0 <= i < j < |routes| ==> routes[i] != routes[j]
    ensures multiset(Others(self, routes))[m] == if m != self && m in routes then 1 else 0
  {
    OthersCount(self, routes, m);
    CountOfDistinct(routes, m);
  }

  lemma {:induction false} CountOfDistinct(routes: seq<Mac>, m: Mac)
    requires forall i, j :: 0 <= i < j < |routes| ==> routes[i] != routes[j]
    ensures multiset(routes)[m] == if m in routes then 1 else 0
  {
    if routes != [] {
      CountOfDistinct(routes[..|routes| - 1], m);
      assert routes == routes[..|routes| - 1] + [routes[|routes| - 1]];
    }
  }

  /** A frame sent to one mesh address. */
  datatype Unicast = Unicast(to: Mac, bytes: seq<byte>)

  /**
   * The bridge, for one datagram of n bytes from the server: an accepted TIME frame sets the clock
   * when addressed to this node or to all, and goes unaltered, once, to every other routing entry.
   */
  method BridgeDatagram(h: Host, cfg: Config, rx: array<byte>, tx: array<byte>, n: nat,
                        routes: seq<Mac>) returns (clock: seq<Instant>, sent: seq<Unicast>)
    requires rx != tx && n <= rx.Length && n <= tx.Length && WHOLE <= rx.Length
    modifies rx, tx
    ensures var r := Read(h, old(rx[..WHOLE]));
            if n >= 96 && r.Accepted? && r.msg.TimeMsg? then
              && clock == (if r.msg.id == 0 || r.msg.id == cfg.self then [r.msg.clock] else [])
              && |sent| == |Others(cfg.sta, routes)|
              && forall i :: 0 <= i < |sent| ==> sent[i] == Unicast(Others(cfg.sta, routes)[i], old(rx[..n]))
            else clock == [] && sent == []
  {
    clock, sent := [], [];
    if n >= WHOLE {
      var r := CopyAndRead(h, rx, tx, n);
      if r.Accepted? && r.msg.TimeMsg? {
        if r.msg.id == 0 || r.msg.id == cfg.self {
          clock := [r.msg.clock];
        }
        assert routes[..0] == [];
        for i := 0 to |routes|
          invariant tx[..n] == old(rx[..n])
          invariant |sent| == |Others(cfg.sta, routes[..i])|
          invariant forall j :: 0 <= j < |sent| ==> sent[j] == Unicast(Others(cfg.sta, routes[..i])[j], old(rx[..n]))
        {
          assert routes[..i + 1][..i] == routes[..i];
          var same := SameAddress(cfg.sta, routes[i]);
          if same == 0 {
            continue;
          }
          sent := sent + [Unicast(routes[i], tx[..n])];
        }
        assert routes[..|routes|] == routes;
      }
    }
  }
}
