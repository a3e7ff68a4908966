/**
 * What the network delivers: every sample is in exactly one place at any time, and every value
 * that reaches the server is a mean of means of samples its module really took.
 */
module MeshFlow {
  import opened Types
  import opened Samples
  import opened Aggregate
  import opened Children
  import opened Node
  import opened Mesh

  // ---------------------------------------------------------------- runs

  function Blank(t: Topology, aggSlots: nat, kidSlots: nat): Net
    requires t.Tree()
  {
    Net(map n | n in t.id :: Site(Boot(aggSlots, kidSlots), map[]), [], [], [],
        map m | m in t.owner :: [])
  }

  lemma BlankSiteOk(t: Topology, n: Mac, aggSlots: nat, kidSlots: nat)
    requires t.Tree() && n in t.id && aggSlots >= 1
    ensures SiteOk(t, n, Site(Boot(aggSlots, kidSlots), map[]))
  {
  }

  lemma BlankInv(t: Topology, aggSlots: nat, kidSlots: nat)
    requires t.Tree() && aggSlots >= 1
    ensures Inv(t, Blank(t, aggSlots, kidSlots))
  {
    hide SiteOk, Boot;
    forall n | n in t.id
      ensures SiteOk(t, n, Blank(t, aggSlots, kidSlots).sites[n])
    {
      BlankSiteOk(t, n, aggSlots, kidSlots);
    }
  }

  /** The network before anything happened. */
  function Quiet(t: Topology, aggSlots: nat, kidSlots: nat): (r: Net)
    requires t.Tree() && aggSlots >= 1
    ensures Inv(t, r)
  {
    BlankInv(t, aggSlots, kidSlots);
    Blank(t, aggSlots, kidSlots)
  }

  /** A run; an event that is not enabled changes nothing. */
  function RunNet(t: Topology, net: Net, es: seq<NetEvent>): (r: Net)
    requires t.Tree() && Inv(t, net)
    ensures Inv(t, r)
    decreases |es|
  {
    if es == [] then net
    else if Enabled(t, net, es[0]) then
      NextKeeps(t, net, es[0]);
      RunNet(t, Next(t, net, es[0]), es[1..])
    else RunNet(t, net, es[1..])
  }

  // ---------------------------------------------------------------- counting samples

  function Count(s: seq<Sample>, x: Sample): nat {
    multiset(s)[x]
  }

  function InParcel(p: Parcel, m: ModuleId, x: Sample): nat {
    if p.msg.id == m then Count(Flatten(p.batches), x) else 0
  }

  function Inside(ps: seq<Parcel>, m: ModuleId, x: Sample): nat {
    if ps == [] then 0 else Inside(ps[..|ps| - 1], m, x) + InParcel(ps[|ps| - 1], m, x)
  }

  function Cargo(flight: seq<Packet>): (r: seq<Parcel>)
    ensures |r| == |flight| && forall i :: 0 <= i < |r| ==> r[i] == flight[i].parcel
  {
    seq(|flight|, i requires 0 <= i < |flight| => flight[i].parcel)
  }

  function AtSite(s: Site, m: ModuleId, x: Sample): nat {
    if m in s.batches then Count(Flatten(s.batches[m]), x) else 0
  }

  function AtNode(net: Net, n: Mac, m: ModuleId, x: Sample): nat {
    if n in net.sites then AtSite(net.sites[n], m, x) else 0
  }

  /** Module m's samples held in tables: at its own node and at that node's parent. */
  function HeldFor(t: Topology, net: Net, m: ModuleId, x: Sample): nat {
    if m !in t.owner then 0
    else if t.owner[m] !in t.parent then AtNode(net, t.owner[m], m, x)
    else AtNode(net, t.owner[m], m, x) + AtNode(net, t.parent[t.owner[m]], m, x)
  }

  function Taken(net: Net, m: ModuleId): seq<Sample> {
    if m in net.sampled then net.sampled[m] else []
  }

  /** Each sample of m is held by a table, in flight, at the server, or lost; none twice. */
  predicate Balanced(t: Topology, net: Net, m: ModuleId, x: Sample) {
    Count(Taken(net, m), x)
    == HeldFor(t, net, m, x) + Inside(Cargo(net.flight), m, x) + Inside(net.server, m, x) + Inside(net.lost, m, x)
  }

  lemma InsideAppend(ps: seq<Parcel>, p: Parcel, m: ModuleId, x: Sample)
    ensures Inside(ps + [p], m, x) == Inside(ps, m, x) + InParcel(p, m, x)
  {
    assert (ps + [p])[..|ps|] == ps;
  }

  lemma NothingInside(m: ModuleId, x: Sample)
    ensures Inside([], m, x) == 0
  {
  }

  lemma InsideOne(p: Parcel, m: ModuleId, x: Sample)
    ensures Inside([p], m, x) == InParcel(p, m, x)
  {
    assert [p][..0] == [];
    assert Inside([], m, x) == 0;
  }

  lemma {:induction false} InsideConcat(ps: seq<Parcel>, qs: seq<Parcel>, m: ModuleId, x: Sample)
    ensures Inside(ps + qs, m, x) == Inside(ps, m, x) + Inside(qs, m, x)
  {
    if qs == [] {
      assert ps + qs == ps;
    } else {
      var k := |qs| - 1;
      assert ps + qs == (ps + qs[..k]) + [qs[k]];
      InsideAppend(ps + qs[..k], qs[k], m, x);
      InsideConcat(ps, qs[..k], m, x);
    }
  }

  lemma InsideRemove(flight: seq<Packet>, k: nat, m: ModuleId, x: Sample)
    requires k < |flight|
    ensures Inside(Cargo(flight), m, x)
         == Inside(Cargo(Remove(flight, k)), m, x) + InParcel(flight[k].parcel, m, x)
  {
    var ps, p := Cargo(flight), flight[k].parcel;
    assert ps == (ps[..k] + [p]) + ps[k + 1..];
    assert Cargo(Remove(flight, k)) == ps[..k] + ps[k + 1..];
    InsideConcat(ps[..k] + [p], ps[k + 1..], m, x);
    InsideAppend(ps[..k], p, m, x);
    InsideConcat(ps[..k], ps[k + 1..], m, x);
  }

  /** A module's samples are only ever in the two tables. */
  lemma OnlyTwoTables(t: Topology, n: Mac, s: Site, m: ModuleId, x: Sample)
    requires t.Tree() && n in t.id && SiteOk(t, n, s) && m in t.owner
    requires n != t.owner[m] && (t.owner[m] in t.parent ==> n != t.parent[t.owner[m]])
    ensures AtSite(s, m, x) == 0
  {
    forall i | 0 <= i < s.node.agg.size
      ensures s.node.agg.slots[i].id != m
    {
      assert Near(t, n, s.node.agg.slots[i].id);
    }
  }

  lemma SiteChange(t: Topology, net: Net, n: Mac, s: Site, m: ModuleId, x: Sample)
    requires t.Tree() && Inv(t, net) && n in t.id && SiteOk(t, n, s) && m in t.owner
    ensures HeldFor(t, net.(sites := net.sites[n := s]), m, x) + AtSite(net.sites[n], m, x)
         == HeldFor(t, net, m, x) + AtSite(s, m, x)
  {
    hide SiteOk, PacketOk, ParcelOk;
    var o := t.owner[m];
    if o in t.parent {
      NoCycle(t, o);
    }
    if n != o && (o in t.parent ==> n != t.parent[o]) {
      OnlyTwoTables(t, n, net.sites[n], m, x);
      OnlyTwoTables(t, n, s, m, x);
    }
  }

  lemma PostBalance(t: Topology, net: Net, n: Mac, outs: seq<Out>, b: map<ModuleId, seq<Batch>>, m: ModuleId, x: Sample)
    requires t.Tree() && n in t.id
    ensures var net' := Post(t, net, n, outs, b);
            && net'.sites == net.sites && net'.sampled == net.sampled && net'.lost == net.lost
            && Inside(Cargo(net'.flight), m, x) + Inside(net'.server, m, x)
               == Inside(Cargo(net.flight), m, x) + Inside(net.server, m, x) + Inside(Parcels(outs, b), m, x)
  {
    if n == t.root {
      InsideConcat(net.server, Parcels(outs, b), m, x);
    } else {
      var more := Packets(t, n, outs, b);
      assert Cargo(net.flight + more) == Cargo(net.flight) + Parcels(outs, b);
      InsideConcat(Cargo(net.flight), Parcels(outs, b), m, x);
    }
  }

  // ---------------------------------------------------------------- sites and parcels

  lemma BatchAdded(b: map<ModuleId, seq<Batch>>, k: ModuleId, batch: Batch, m: ModuleId, x: Sample)
    ensures AtSite(Site(Boot(0, 0), AddBatch(b, k, batch)), m, x)
         == AtSite(Site(Boot(0, 0), b), m, x) + if m == k then Count(batch, x) else 0
  {
    if m == k {
      FlattenAppend(if k in b then b[k] else [], batch);
    }
  }

  lemma RefusedSample(id: ModuleId, y: Sample, m: ModuleId, x: Sample)
    ensures Inside([Parcel(SensorMsg(id, 0.0, y), [[y]])], m, x) == if m == id then Count([y], x) else 0
  {
    InsideOne(Parcel(SensorMsg(id, 0.0, y), [[y]]), m, x);
    FlattenAppend([], [y]);
    assert [] + [[y]] == [[y]] && Flatten([]) == [] && [] + [y] == [y];
  }

  lemma TickBalance(t: Topology, n: Mac, s: Site, y: Sample, now: Instant, m: ModuleId, x: Sample)
    requires t.Tree() && n in t.id && SiteOk(t, n, s)
    ensures var (s', refused) := TickSite(t, n, s, y, now);
            AtSite(s', m, x) + Inside(refused, m, x) == AtSite(s, m, x) + if m == t.id[n] then Count([y], x) else 0
  {
    TickSiteOk(t, n, s, y, now);
    hide SiteOk, TickSite, Inside, Topology.Tree, AddBatch;
    var (s', refused) := TickSite(t, n, s, y, now);
    if refused == [] {
      assert Inside(refused, m, x) == 0 by {
        NothingInside(m, x);
      }
      BatchAdded(s.batches, t.id[n], [y], m, x);
    } else {
      RefusedSample(t.id[n], y, m, x);
    }
  }

  lemma DetachBalance(t: Topology, n: Mac, s: Site, c: Mac, m: ModuleId, x: Sample)
    requires t.Tree() && n in t.id && SiteOk(t, n, s) && s.node.Valid()
    ensures var (s', gone) := DetachSite(t, n, s, c);
            AtSite(s', m, x) + Inside(gone, m, x) == AtSite(s, m, x)
  {
    hide SiteOk, LastByMac, PopAt, PopChild;
    SiteValid(t, n, s);
    var (s', gone) := DetachSite(t, n, s, c);
    if gone != [] {
      assert gone == [gone[0]];
      InsideOne(gone[0], m, x);
    }
  }

  lemma DrainParcels(live: seq<Entry>, b: map<ModuleId, seq<Batch>>, clock: Clock, root: bool)
    requires live != [] && forall i :: 0 <= i < |live| ==> live[i].steps >= 1
    ensures Parcels(FramesOut(Drain(live, clock), root), b)
         == [ParcelOf(FrameOf(ReportOf(live[|live| - 1], ReadAt(clock, |live| - 1))), b)]
            + Parcels(FramesOut(Drain(live[..|live| - 1], clock), root), b)
  {
  }

  lemma HasLast(live: seq<Entry>, m: ModuleId)
    requires live != [] && UniqueIds(live)
    ensures Has(live, m) <==> Has(live[..|live| - 1], m) || live[|live| - 1].id == m
    ensures Has(live[..|live| - 1], m) ==> live[|live| - 1].id != m
  {
    var front := live[..|live| - 1];
    if Has(front, m) {
      var i :| 0 <= i < |front| && front[i].id == m;
      assert live[i].id == m;
    }
    if Has(live, m) && live[|live| - 1].id != m {
      var i :| 0 <= i < |live| && live[i].id == m;
      assert front[i].id == m;
    }
  }

  /** A drain sends each module's batches exactly once. */
  lemma {:induction false} DrainBalance(live: seq<Entry>, b: map<ModuleId, seq<Batch>>, clock: Clock, root: bool,
                                        m: ModuleId, x: Sample)
    requires UniqueIds(live) && forall i :: 0 <= i < |live| ==> live[i].steps >= 1 && live[i].id in b
    ensures Has(live, m) ==> m in b
    ensures Inside(Parcels(FramesOut(Drain(live, clock), root), b), m, x)
         == if Has(live, m) then Count(Flatten(b[m]), x) else 0
  {
    if live == [] {
      assert Parcels(FramesOut(Drain(live, clock), root), b) == [];
    } else {
      var k := |live| - 1;
      DrainBalance(live[..k], b, clock, root, m, x);
      HasLast(live, m);
      DrainParcels(live, b, clock, root);
      hide Has, UniqueIds;
      var rest := Parcels(FramesOut(Drain(live[..k], clock), root), b);
      var first := ParcelOf(FrameOf(ReportOf(live[k], ReadAt(clock, k))), b);
      InsideConcat([first], rest, m, x);
      InsideOne(first, m, x);
    }
  }

  lemma ServeBalance(t: Topology, n: Mac, s: Site, clock: Clock, m: ModuleId, x: Sample)
    requires t.Tree() && n in t.id && SiteOk(t, n, s)
    ensures var (s', outs) := ServeSite(t, n, s, clock);
            AtSite(s', m, x) + Inside(Parcels(outs, s.batches), m, x) == AtSite(s, m, x)
  {
    if Ready(t.Conf(n), s.node) {
      DrainBalance(s.node.agg.Live(), s.batches, clock, n == t.root, m, x);
    }
  }

  lemma FoldBalance(t: Topology, s: Site, p: Packet, now: Instant, m: ModuleId, x: Sample)
    requires t.Tree() && PacketOk(t, p) && SiteOk(t, p.dst, s) && p.src != p.dst && IsClaimed(s, p)
    ensures var (s', outs, refused) := ReceiveSite(t, s, p, now);
            && outs == []
            && AtSite(s', m, x) + Inside(refused, m, x) == AtSite(s, m, x) + InParcel(p.parcel, m, x)
  {
    FoldSiteOk(t, s, p, now);
    hide SiteOk, PacketOk, ReceiveSite;
    var (s', outs, refused) := ReceiveSite(t, s, p, now);
    if refused == [] {
      BatchAdded(s.batches, p.parcel.msg.id, Flatten(p.parcel.batches), m, x);
    } else {
      InsideOne(p.parcel, m, x);
    }
  }

  lemma ForwardBalance(t: Topology, s: Site, p: Packet, now: Instant, m: ModuleId, x: Sample)
    requires t.Tree() && PacketOk(t, p) && SiteOk(t, p.dst, s) && p.src != p.dst && !IsClaimed(s, p)
    ensures var (s', outs, refused) := ReceiveSite(t, s, p, now);
            && s'.batches == s.batches && refused == []
            && Inside(Parcels(outs, map[p.parcel.msg.id := p.parcel.batches]), m, x) == InParcel(p.parcel, m, x)
  {
    var (s', outs, refused) := ReceiveSite(t, s, p, now);
    if p.parcel.msg.SensorMsg? {
      hide SiteOk, PacketOk;
      assert Parcels(outs, map[p.parcel.msg.id := p.parcel.batches]) == [p.parcel];
      InsideOne(p.parcel, m, x);
    }
  }

  lemma ReceiveBalance(t: Topology, s: Site, p: Packet, now: Instant, m: ModuleId, x: Sample)
    requires t.Tree() && PacketOk(t, p) && p.dst in t.id && SiteOk(t, p.dst, s) && s.node.Valid()
    ensures var (s', outs, refused) := ReceiveSite(t, s, p, now);
            AtSite(s', m, x) + Inside(Parcels(outs, map[p.parcel.msg.id := p.parcel.batches]), m, x)
            + Inside(refused, m, x)
            == AtSite(s, m, x) + InParcel(p.parcel, m, x)
  {
    hide SiteOk, PacketOk, ReceiveSite;
    PacketMoves(t, p);
    if IsClaimed(s, p) {
      FoldBalance(t, s, p, now, m, x);
      assert Parcels([], map[p.parcel.msg.id := p.parcel.batches]) == [];
    } else {
      ForwardBalance(t, s, p, now, m, x);
    }
  }

  // ---------------------------------------------------------------- conservation

  lemma DeliverBalance(t: Topology, net: Net, k: nat, now: Instant, m: ModuleId, x: Sample)
    requires t.Tree() && Inv(t, net) && k < |net.flight| && m in t.owner && Balanced(t, net, m, x)
    ensures Balanced(t, AtDeliver(t, net, k, now), m, x)
  {
    hide SiteOk, PacketOk, ParcelOk, Sendable, ReceiveSite;
    var p := net.flight[k];
    PacketEnds(t, p);
    SiteValid(t, p.dst, net.sites[p.dst]);
    ReceiveBalance(t, net.sites[p.dst], p, now, m, x);
    DeliverSiteOk(t, net.sites[p.dst], p, now);
    var (s, outs, refused) := ReceiveSite(t, net.sites[p.dst], p, now);
    SiteChange(t, net, p.dst, s, m, x);
    InsideRemove(net.flight, k, m, x);
    InsideConcat(net.lost, refused, m, x);
    PostBalance(t, net.(sites := net.sites[p.dst := s], flight := Remove(net.flight, k), lost := net.lost + refused),
                p.dst, outs, map[p.parcel.msg.id := p.parcel.batches], m, x);
  }

  lemma ServeStepBalance(t: Topology, net: Net, n: Mac, clock: Clock, m: ModuleId, x: Sample)
    requires t.Tree() && Inv(t, net) && n in t.id && m in t.owner && Balanced(t, net, m, x)
    ensures Balanced(t, AtServe(t, net, n, clock), m, x)
  {
    hide SiteOk, PacketOk, ParcelOk, Sendable, ServeSite;
    var s := net.sites[n];
    ServeBalance(t, n, s, clock, m, x);
    ServeSiteOk(t, n, s, clock);
    var (s', outs) := ServeSite(t, n, s, clock);
    SiteChange(t, net, n, s', m, x);
    PostBalance(t, net.(sites := net.sites[n := s']), n, outs, s.batches, m, x);
  }

  lemma SameBatchesBalance(t: Topology, net: Net, n: Mac, s: Site, m: ModuleId, x: Sample)
    requires t.Tree() && Inv(t, net) && n in t.id && SiteOk(t, n, s) && m in t.owner && Balanced(t, net, m, x)
    requires s.batches == net.sites[n].batches
    ensures Balanced(t, net.(sites := net.sites[n := s]), m, x)
  {
    hide SiteOk, PacketOk, ParcelOk;
    SiteChange(t, net, n, s, m, x);
  }

  lemma NoBatches(p: Parcel, m: ModuleId, x: Sample)
    requires p.batches == []
    ensures InParcel(p, m, x) == 0
  {
    assert Flatten(p.batches) == [];
  }

  /** An advertisement carries no samples. */
  lemma StartSends(t: Topology, n: Mac, s: Site, m: ModuleId, x: Sample)
    requires t.Tree() && n in t.id && SiteOk(t, n, s)
    ensures StartSite(t, n, s).0.batches == s.batches
    ensures Inside(Parcels(StartSite(t, n, s).1, map[]), m, x) == 0
  {
    hide SiteOk;
    var outs := StartSite(t, n, s).1;
    if outs == [] {
      assert Parcels(outs, map[]) == [];
    } else {
      var p := ParcelOf(outs[0].msg, map[]);
      assert Parcels(outs, map[]) == [p];
      InsideOne(p, m, x);
      NoBatches(p, m, x);
    }
  }

  lemma StartBalance(t: Topology, net: Net, n: Mac, m: ModuleId, x: Sample)
    requires t.Tree() && Inv(t, net) && n in t.id && m in t.owner && Balanced(t, net, m, x)
    ensures Balanced(t, AtStart(t, net, n), m, x)
  {
    hide SiteOk, PacketOk, ParcelOk, StartSite;
    var (s, outs) := StartSite(t, n, net.sites[n]);
    StartSends(t, n, net.sites[n], m, x);
    StartSiteOk(t, n, net.sites[n]);
    SameBatchesBalance(t, net, n, s, m, x);
    PostBalance(t, net.(sites := net.sites[n := s]), n, outs, map[], m, x);
  }

  lemma TickStepBalance(t: Topology, net: Net, n: Mac, y: Sample, now: Instant, m: ModuleId, x: Sample)
    requires t.Tree() && Inv(t, net) && n in t.id && m in t.owner && Balanced(t, net, m, x)
    ensures Balanced(t, AtTick(t, net, n, y, now), m, x)
  {
    hide SiteOk, PacketOk, ParcelOk, TickSite;
    TickSiteOk(t, n, net.sites[n], y, now);
    TickBalance(t, n, net.sites[n], y, now, m, x);
    var (s, refused) := TickSite(t, n, net.sites[n], y, now);
    SiteChange(t, net, n, s, m, x);
    InsideConcat(net.lost, refused, m, x);
  }

  lemma DetachStepBalance(t: Topology, net: Net, n: Mac, c: Mac, m: ModuleId, x: Sample)
    requires t.Tree() && Inv(t, net) && n in t.id && m in t.owner && Balanced(t, net, m, x)
    ensures Balanced(t, AtDetach(t, net, n, c), m, x)
  {
    hide SiteOk, PacketOk, ParcelOk, DetachSite;
    DetachSiteOk(t, n, net.sites[n], c);
    var (s, gone) := DetachSite(t, n, net.sites[n], c);
    SiteValid(t, n, net.sites[n]);
    DetachBalance(t, n, net.sites[n], c, m, x);
    SiteChange(t, net, n, s, m, x);
    InsideConcat(net.lost, gone, m, x);
  }

  lemma AttachBalance(t: Topology, net: Net, n: Mac, c: Mac, m: ModuleId, x: Sample)
    requires t.Tree() && Inv(t, net) && n in t.id && m in t.owner && Balanced(t, net, m, x)
    requires c in t.parent && t.parent[c] == n
    ensures Balanced(t, AtAttach(t, net, n, c), m, x)
  {
    hide SiteOk, PacketOk, ParcelOk;
    AttachSiteOk(t, n, net.sites[n], c);
    SameBatchesBalance(t, net, n, AttachSite(t, n, net.sites[n], c), m, x);
  }

  lemma FlushBalance(t: Topology, net: Net, n: Mac, from: Mac, m: ModuleId, x: Sample)
    requires t.Tree() && Inv(t, net) && n in t.id && m in t.owner && Balanced(t, net, m, x)
    ensures Balanced(t, AtFlush(t, net, n, from), m, x)
  {
    hide SiteOk, PacketOk, ParcelOk;
    FlushSiteOk(t, n, net.sites[n], from);
    SameBatchesBalance(t, net, n, FlushSite(t, n, net.sites[n], from), m, x);
  }

  lemma LoseBalance(t: Topology, net: Net, k: nat, m: ModuleId, x: Sample)
    requires k < |net.flight| && Balanced(t, net, m, x)
    ensures Balanced(t, AtLose(net, k), m, x)
  {
    InsideRemove(net.flight, k, m, x);
    InsideAppend(net.lost, net.flight[k].parcel, m, x);
  }

  /** No step loses track of a sample or doubles one. */
  lemma NextBalance(t: Topology, net: Net, e: NetEvent, m: ModuleId, x: Sample)
    requires t.Tree() && Inv(t, net) && Enabled(t, net, e) && m in t.owner && Balanced(t, net, m, x)
    ensures Balanced(t, Next(t, net, e), m, x)
  {
    hide SiteOk, Inv, AtTick, AtAttach, AtDetach, AtStart, AtFlush, AtDeliver, AtLose, AtServe, Balanced;
    match e {
      case Tick(n, y, now) => TickStepBalance(t, net, n, y, now, m, x);
      case Attach(n, c) => AttachBalance(t, net, n, c, m, x);
      case Detach(n, c) => DetachStepBalance(t, net, n, c, m, x);
      case StartService(n) => StartBalance(t, net, n, m, x);
      case FlushRequest(n, from) => FlushBalance(t, net, n, from, m, x);
      case Deliver(k, now) => DeliverBalance(t, net, k, now, m, x);
      case Lose(k) => LoseBalance(t, net, k, m, x);
      case Serve(n, clock) => ServeStepBalance(t, net, n, clock, m, x);
    }
  }

  lemma {:induction false} RunBalance(t: Topology, net: Net, es: seq<NetEvent>, m: ModuleId, x: Sample)
    requires t.Tree() && Inv(t, net) && m in t.owner && Balanced(t, net, m, x)
    ensures Balanced(t, RunNet(t, net, es), m, x)
    decreases |es|
  {
    hide Inv, Balanced, Enabled;
    if es != [] {
      if Enabled(t, net, es[0]) {
        NextKeeps(t, net, es[0]);
        NextBalance(t, net, es[0], m, x);
        RunBalance(t, Next(t, net, es[0]), es[1..], m, x);
      } else {
        RunBalance(t, net, es[1..], m, x);
      }
    }
  }

  lemma NothingYet(t: Topology, aggSlots: nat, kidSlots: nat, m: ModuleId, x: Sample)
    requires t.Tree() && m in t.owner && aggSlots >= 1
    ensures Balanced(t, Quiet(t, aggSlots, kidSlots), m, x)
  {
    assert Cargo(Quiet(t, aggSlots, kidSlots).flight) == [];
    assert Taken(Quiet(t, aggSlots, kidSlots), m) == [];
  }

  /**
   * Conservation over the whole network, in every run: each sample a module ever took is in
   * exactly one place, counted with multiplicity.
   */
  lemma EverySampleOnce(t: Topology, aggSlots: nat, kidSlots: nat, es: seq<NetEvent>, m: ModuleId, x: Sample)
    requires t.Tree() && m in t.owner && aggSlots >= 1
    ensures Balanced(t, RunNet(t, Quiet(t, aggSlots, kidSlots), es), m, x)
  {
    NothingYet(t, aggSlots, kidSlots, m, x);
    RunBalance(t, Quiet(t, aggSlots, kidSlots), es, m, x);
  }

  lemma {:induction false} PartOfInside(ps: seq<Parcel>, k: nat, m: ModuleId, x: Sample)
    requires k < |ps|
    ensures InParcel(ps[k], m, x) <= Inside(ps, m, x)
  {
    if k < |ps| - 1 {
      PartOfInside(ps[..|ps| - 1], k, m, x);
    }
  }

  lemma ServerParcelOk(t: Topology, net: Net, k: nat)
    requires t.Tree() && Inv(t, net) && k < |net.server|
    ensures ParcelOk(t, net.server[k])
  {
  }

  /** A good parcel's values stay within any bounds on its samples; even batches give the true mean. */
  lemma ParcelValues(t: Topology, p: Parcel, c: nat, lo: real, hi: real)
    requires ParcelOk(t, p) && c < CHANNELS
    ensures p.batches != [] && NonEmpty(p.batches) && p.msg.values[c] == MeanOfMeans(p.batches, c)
    ensures Within(Flatten(p.batches), c, lo, hi) ==> lo <= p.msg.values[c] <= hi
    ensures forall n :: n > 0 && EvenBatches(p.batches, n) ==>
              Flatten(p.batches) != [] && p.msg.values[c] == Mean(Flatten(p.batches), c)
  {
    if Within(Flatten(p.batches), c, lo, hi) {
      MeanOfMeansWithin(p.batches, c, lo, hi);
    }
    forall n: nat | n > 0 && EvenBatches(p.batches, n)
      ensures Flatten(p.batches) != [] && p.msg.values[c] == Mean(Flatten(p.batches), c)
    {
      EvenMeanOfMeans(p.batches, n, c);
    }
  }

  /**
   * What the server receives, in every run: a SENSOR frame whose values, channel by channel, lie
   * within any bounds on the samples it stands for, and equal their true mean when the batches
   * were even; and those samples are samples its module took.
   */
  lemma DeliveredValues(t: Topology, aggSlots: nat, kidSlots: nat, es: seq<NetEvent>, k: nat, c: nat,
                        lo: real, hi: real)
    requires t.Tree() && c < CHANNELS && aggSlots >= 1
    requires k < |RunNet(t, Quiet(t, aggSlots, kidSlots), es).server|
    ensures var net := RunNet(t, Quiet(t, aggSlots, kidSlots), es);
            var p := net.server[k];
            && p.msg.SensorMsg? && p.msg.id in t.owner
            && (Within(Flatten(p.batches), c, lo, hi) ==> lo <= p.msg.values[c] <= hi)
            && (forall n :: n > 0 && EvenBatches(p.batches, n) ==>
                  Flatten(p.batches) != [] && p.msg.values[c] == Mean(Flatten(p.batches), c))
            && (forall x :: Count(Flatten(p.batches), x) <= Count(Taken(net, p.msg.id), x))
  {
    hide Inv, ValuesOf;
    var net := RunNet(t, Quiet(t, aggSlots, kidSlots), es);
    ServerParcelOk(t, net, k);
    var p := net.server[k];
    ParcelValues(t, p, c, lo, hi);
    forall x
      ensures Count(Flatten(p.batches), x) <= Count(Taken(net, p.msg.id), x)
    {
      EverySampleOnce(t, aggSlots, kidSlots, es, p.msg.id, x);
      PartOfInside(net.server, k, p.msg.id, x);
    }
  }

  // ---------------------------------------------------------------- who folds, who forwards

  /** A module's entries are only at its own node and at that node's parent. */
  lemma EntriesNearOwner(t: Topology, net: Net, n: Mac, i: nat)
    requires t.Tree() && Inv(t, net) && n in t.id && net.sites[n].node.Valid() && i < net.sites[n].node.agg.size
    ensures var m := net.sites[n].node.agg.slots[i].id;
            m in t.owner && (t.owner[m] == n || (t.owner[m] in t.parent && t.parent[t.owner[m]] == n))
  {
    SiteAt(t, net, n);
    assert Near(t, n, net.sites[n].node.agg.slots[i].id);
  }

  lemma ReceiveOuts(t: Topology, s: Site, p: Packet, now: Instant)
    requires t.Tree() && PacketOk(t, p) && p.dst in t.id && SiteOk(t, p.dst, s) && s.node.Valid()
    requires p.parcel.msg.SensorMsg?
    ensures var (s', outs, refused) := ReceiveSite(t, s, p, now);
            if IsClaimed(s, p) then outs == []
            else
              && s' == s && refused == []
              && outs == [if p.dst == t.root then ToServer(p.parcel.msg) else ToRoot(p.parcel.msg)]
  {
    PacketMoves(t, p);
    hide SiteOk, PacketOk;
  }

  /** The receiver of frame k claims it for a direct child's. */
  predicate Claimed(t: Topology, net: Net, k: nat)
    requires k < |net.flight|
  {
    var p := net.flight[k];
    p.dst in net.sites && net.sites[p.dst].node.Valid() && IsClaimed(net.sites[p.dst], p)
  }

  /** A claimed frame becomes one more batch of its module at the receiver, or a full table refuses it. */
  predicate TakenIn(net: Net, net': Net, p: Packet) {
    && p.dst in net.sites && p.dst in net'.sites
    && if net'.lost != net.lost then net'.sites == net.sites && net'.lost == net.lost + [p.parcel]
       else
         && net'.sites == net.sites[p.dst := net'.sites[p.dst]]
         && net'.sites[p.dst].node == net.sites[p.dst].node.(agg := net'.sites[p.dst].node.agg)
         && net'.sites[p.dst].batches == AddBatch(net.sites[p.dst].batches, p.parcel.msg.id, Flatten(p.parcel.batches))
  }

  lemma ClaimedTakenIn(t: Topology, net: Net, k: nat, now: Instant)
    requires t.Tree() && Inv(t, net) && k < |net.flight| && net.flight[k].parcel.msg.SensorMsg? && Claimed(t, net, k)
    ensures TakenIn(net, AtDeliver(t, net, k, now), net.flight[k])
    ensures AtDeliver(t, net, k, now).flight == Remove(net.flight, k)
    ensures AtDeliver(t, net, k, now).server == net.server
    ensures net.flight[k].dst in AtDeliver(t, net, k, now).sites
    ensures AtDeliver(t, net, k, now).sites[net.flight[k].dst].node.agg.size > 0
  {
    hide SiteOk, PacketOk, ParcelOk, ReceiveSite, Inv;
    var p := net.flight[k];
    PacketIsOk(t, net, k);
    DestinationOk(t, net, k);
    FoldSiteOk(t, net.sites[p.dst], p, now);
    SourceHasParent(t, p);
    var b := map[p.parcel.msg.id := p.parcel.batches];
    assert Parcels([], b) == [];
    assert p.dst != t.root ==> Packets(t, p.dst, [], b) == [];
    hide AddBatch, IsClaimed, Topology.Tree;
    if ReceiveSite(t, net.sites[p.dst], p, now).2 != [] {
      assert net.sites[p.dst := net.sites[p.dst]] == net.sites;
    }
  }

  /**
   * Single hop: a frame of module m is folded only at the parent of m's node, and only as m's own
   * frame; any other receiver changes nothing and hands the parcel on unchanged, exactly once,
   * straight to the root, the root to the server and never back into the mesh.
   */
  lemma SingleHop(t: Topology, net: Net, k: nat, now: Instant)
    requires t.Tree() && Inv(t, net) && k < |net.flight| && net.flight[k].parcel.msg.SensorMsg?
    ensures var p := net.flight[k];
            var net' := AtDeliver(t, net, k, now);
            if Claimed(t, net, k) then
              && p.parcel.msg.id in t.owner && p.src == t.owner[p.parcel.msg.id]
              && p.src in t.parent && t.parent[p.src] == p.dst
              && TakenIn(net, net', p)
              && net'.flight == Remove(net.flight, k) && net'.server == net.server
            else
              && net'.sites == net.sites && net'.lost == net.lost
              && (if p.dst == t.root then
                    net'.server == net.server + [p.parcel] && net'.flight == Remove(net.flight, k)
                  else
                    net'.server == net.server
                    && net'.flight == Remove(net.flight, k) + [Packet(p.dst, t.root, p.parcel)])
  {
    hide SiteOk, PacketOk, ParcelOk, ReceiveSite, Inv, TakenIn;
    var p := net.flight[k];
    PacketIsOk(t, net, k);
    DestinationOk(t, net, k);
    var s := net.sites[p.dst];
    SiteValid(t, p.dst, s);
    if IsClaimed(s, p) {
      ClaimedIsChilds(t, s, p);
      SourceHasParent(t, p);
      ClaimedTakenIn(t, net, k, now);
    } else {
      ReceiveOuts(t, s, p, now);
      ForwardSendable(t, p);
      assert net.sites[p.dst := s] == net.sites;
    }
  }

  /** An advertisement sets the sender's id at its parent, if it is listed there, and nothing else. */
  lemma AdvertisementEffect(t: Topology, net: Net, k: nat, now: Instant)
    requires t.Tree() && Inv(t, net) && k < |net.flight| && net.flight[k].parcel.msg.AdvMsg?
    ensures var p := net.flight[k];
            var net' := AtDeliver(t, net, k, now);
            && p.src in t.parent && p.dst == t.parent[p.src] && p.dst in net.sites && p.src in t.id
            && p.dst != p.src && net.sites[p.dst].node.kids.Valid()
            && net' == net.(
                 flight := Remove(net.flight, k),
                 sites := net.sites[p.dst := net.sites[p.dst].(node := net.sites[p.dst].node.(
                   kids := SetChildId(net.sites[p.dst].node.kids, p.src, t.id[p.src])))])
  {
    hide SiteOk, ParcelOk, Inv, SetChildId;
    var p := net.flight[k];
    PacketIsOk(t, net, k);
    DestinationOk(t, net, k);
    PacketMoves(t, p);
    SiteValid(t, p.dst, net.sites[p.dst]);
    var b := map[p.parcel.msg.id := p.parcel.batches];
    assert Parcels([], b) == [];
    assert p.dst != t.root ==> Packets(t, p.dst, [], b) == [];
  }

  lemma SiteAt(t: Topology, net: Net, n: Mac)
    requires t.Tree() && Inv(t, net) && n in t.id
    ensures n in net.sites && SiteOk(t, n, net.sites[n])
  {
  }

  lemma SourceHasParent(t: Topology, p: Packet)
    requires t.Tree() && PacketOk(t, p)
    ensures p.src in t.parent
    ensures p.parcel.msg.SensorMsg? ==> p.parcel.msg.id in t.owner
  {
  }

  lemma PacketIsOk(t: Topology, net: Net, k: nat)
    requires t.Tree() && Inv(t, net) && k < |net.flight|
    ensures PacketOk(t, net.flight[k])
  {
  }

  lemma DestinationOk(t: Topology, net: Net, k: nat)
    requires t.Tree() && Inv(t, net) && k < |net.flight|
    ensures net.flight[k].dst in t.id && net.flight[k].dst in net.sites
    ensures SiteOk(t, net.flight[k].dst, net.sites[net.flight[k].dst])
  {
    assert PacketOk(t, net.flight[k]);
  }

  lemma {:induction false} RootBelow(t: Topology, n: Mac)
    requires t.Tree() && n in t.parent
    ensures t.layer[t.root] < t.layer[n]
    decreases t.layer[n]
  {
    if t.parent[n] != t.root {
      RootBelow(t, t.parent[n]);
    }
  }

  /**
   * A SENSOR frame in flight is on its first, second or third hop, whatever the depth of the
   * tree, and every hop leads closer to the root.
   */
  lemma AtMostThreeHops(t: Topology, net: Net, k: nat)
    requires t.Tree() && Inv(t, net) && k < |net.flight| && net.flight[k].parcel.msg.SensorMsg?
    ensures var p := net.flight[k];
            && p.parcel.msg.id in t.owner && p.src in t.layer && p.dst in t.layer
            && OnWay(t, p.src, p.dst, t.owner[p.parcel.msg.id])
            && p.src != t.root && t.layer[p.dst] < t.layer[p.src]
  {
    hide Inv, SiteOk, ValuesOf;
    PacketIsOk(t, net, k);
    RootBelow(t, net.flight[k].src);
  }
}
