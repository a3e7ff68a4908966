/**
 * Coming to rest: with the timers stopped and nothing lost, every run of deliveries and service
 * steps runs out of work, and when all data is sure to reach the server.
 */
module MeshRest {
  import opened Types
  import opened Samples
  import opened Aggregate
  import opened Children
  import opened Node
  import opened Mesh
  import opened MeshFlow

  // ---------------------------------------------------------------- the potential

  /** Steps still ahead of an entry: own entries have the parent's table before them. */
  function EntryWeight(own: ModuleId, id: ModuleId): nat {
    if id == own then 5 else 3
  }

  function IdsWeight(own: ModuleId, ids: seq<ModuleId>): nat {
    if ids == [] then 0 else IdsWeight(own, ids[..|ids| - 1]) + EntryWeight(own, ids[|ids| - 1])
  }

  function SiteWeight(own: ModuleId, s: Site): nat {
    if s.node.agg.InBounds() then IdsWeight(own, IdsOf(s.node.agg.Live())) else 0
  }

  function PacketWeight(t: Topology, p: Packet): nat {
    var m := p.parcel.msg.id;
    if p.parcel.msg.AdvMsg? then 1
    else if m in t.owner && p.src == t.owner[m] then 4
    else if p.dst == t.root then 1
    else 2
  }

  function FlightWeight(t: Topology, flight: seq<Packet>): nat {
    if flight == [] then 0
    else FlightWeight(t, flight[..|flight| - 1]) + PacketWeight(t, flight[|flight| - 1])
  }

  function SitesWeight(t: Topology, sites: map<Mac, Site>, ns: seq<Mac>): nat {
    if ns == [] then 0
    else
      var n := ns[|ns| - 1];
      SitesWeight(t, sites, ns[..|ns| - 1])
      + if n in sites && n in t.id then SiteWeight(t.id[n], sites[n]) else 0
  }

  ghost function Enumerate(s: set<Mac>): (r: seq<Mac>)
    ensures forall n :: n in r <==> n in s
    ensures forall i, j :: 0 <= i < j < |r| ==> r[i] != r[j]
  {
    if s == {} then []
    else
      var n :| n in s;
      Enumerate(s - {n}) + [n]
  }

  ghost function Weight(t: Topology, net: Net): nat {
    SitesWeight(t, net.sites, Enumerate(t.id.Keys)) + FlightWeight(t, net.flight)
  }

  lemma FlightAppend(t: Topology, flight: seq<Packet>, p: Packet)
    ensures FlightWeight(t, flight + [p]) == FlightWeight(t, flight) + PacketWeight(t, p)
  {
    assert (flight + [p])[..|flight|] == flight;
  }

  lemma FlightOne(t: Topology, p: Packet)
    ensures FlightWeight(t, [p]) == PacketWeight(t, p)
  {
    assert [p][..0] == [];
    assert FlightWeight(t, []) == 0;
  }

  lemma {:induction false} FlightConcat(t: Topology, a: seq<Packet>, b: seq<Packet>)
    ensures FlightWeight(t, a + b) == FlightWeight(t, a) + FlightWeight(t, b)
  {
    if b == [] {
      assert a + b == a;
    } else {
      var k := |b| - 1;
      assert a + b == (a + b[..k]) + [b[k]];
      FlightAppend(t, a + b[..k], b[k]);
      FlightConcat(t, a, b[..k]);
    }
  }

  lemma FlightRemove(t: Topology, flight: seq<Packet>, k: nat)
    requires k < |flight|
    ensures FlightWeight(t, flight) == FlightWeight(t, Remove(flight, k)) + PacketWeight(t, flight[k])
  {
    assert flight == (flight[..k] + [flight[k]]) + flight[k + 1..];
    FlightConcat(t, flight[..k] + [flight[k]], flight[k + 1..]);
    FlightAppend(t, flight[..k], flight[k]);
    FlightConcat(t, flight[..k], flight[k + 1..]);
  }

  lemma {:induction false} SitesUpdate(t: Topology, sites: map<Mac, Site>, ns: seq<Mac>, n: Mac, s: Site)
    requires n in sites && n in t.id
    requires forall i, j :: 0 <= i < j < |ns| ==> ns[i] != ns[j]
    ensures n in ns ==> (SitesWeight(t, sites[n := s], ns) + SiteWeight(t.id[n], sites[n])
                         == SitesWeight(t, sites, ns) + SiteWeight(t.id[n], s))
    ensures n !in ns ==> SitesWeight(t, sites[n := s], ns) == SitesWeight(t, sites, ns)
  {
    if ns != [] {
      SitesUpdate(t, sites, ns[..|ns| - 1], n, s);
    }
  }

  lemma WeightUpdate(t: Topology, net: Net, n: Mac, s: Site)
    requires n in net.sites && n in t.id
    ensures Weight(t, net.(sites := net.sites[n := s])) + SiteWeight(t.id[n], net.sites[n])
         == Weight(t, net) + SiteWeight(t.id[n], s)
  {
    SitesUpdate(t, net.sites, Enumerate(t.id.Keys), n, s);
  }

  // ---------------------------------------------------------------- settling steps

  /** A step with the timers stopped, no losses and no membership changes: a delivery or a service step. */
  predicate Settling(t: Topology, net: Net, e: NetEvent) {
    match e
    case Deliver(k, _) => k < |net.flight|
    case Serve(n, _) => n in t.id
    case _ => false
  }

  predicate ReadyAt(t: Topology, net: Net, n: Mac) {
    n in t.id && n in net.sites && Ready(t.Conf(n), net.sites[n].node)
  }

  predicate HasData(net: Net, n: Mac) {
    n in net.sites && net.sites[n].node.agg.size > 0
  }

  /** A settling step that delivers a packet or drains a table with data. */
  predicate Moves(t: Topology, net: Net, e: NetEvent) {
    e.Deliver? || (e.Serve? && ReadyAt(t, net, e.n) && HasData(net, e.n))
  }

  lemma IdsAppend(own: ModuleId, ids: seq<ModuleId>, id: ModuleId)
    ensures IdsWeight(own, ids + [id]) == IdsWeight(own, ids) + EntryWeight(own, id)
  {
    assert (ids + [id])[..|ids|] == ids;
  }

  lemma PushIds(t: Table, m: ModuleId, x: Sample, now: Instant)
    requires t.Valid()
    ensures var t' := Push(t, m, x, now).0;
            t'.Valid() && (IdsOf(t'.Live()) == IdsOf(t.Live()) || IdsOf(t'.Live()) == IdsOf(t.Live()) + [m])
  {
    PushValid(t, m, x, now);
    var (t', k) := Push(t, m, x, now);
    if k == t.size && t'.size == t.size + 1 {
      assert IdsOf(t'.Live()) == IdsOf(t.Live()) + [m];
    } else {
      assert IdsOf(t'.Live()) == IdsOf(t.Live());
    }
  }

  /** Folding keeps the ids listed, or lists one more. */
  lemma FoldIds(t: Table, m: ModuleId, x: Sample, now: Instant, mac: Mac)
    requires t.Valid()
    ensures var t' := Associate(Push(t, m, x, now).0, m, mac);
            t'.InBounds() && (IdsOf(t'.Live()) == IdsOf(t.Live()) || IdsOf(t'.Live()) == IdsOf(t.Live()) + [m])
  {
    PushIds(t, m, x, now);
    var pushed := Push(t, m, x, now).0;
    AssociateLive(pushed, m, mac);
    assert IdsOf(Associate(pushed, m, mac).Live()) == IdsOf(pushed.Live());
  }

  lemma FoldWeight(t: Topology, s: Site, p: Packet, now: Instant)
    requires t.Tree() && PacketOk(t, p) && p.dst in t.id && SiteOk(t, p.dst, s) && s.node.Valid() && IsClaimed(s, p)
    ensures SiteWeight(t.id[p.dst], ReceiveSite(t, s, p, now).0) <= SiteWeight(t.id[p.dst], s) + 3
    ensures PacketWeight(t, p) == 4
  {
    var m, own := p.parcel.msg.id, t.id[p.dst];
    PacketMoves(t, p);
    ClaimedIsChilds(t, s, p);
    assert m != own by {
      NoCycle(t, p.src);
    }
    SiteValid(t, p.dst, s);
    FoldSiteOk(t, s, p, now);
    hide SiteOk, PacketOk, Topology.Tree;
    FoldIds(s.node.agg, m, p.parcel.msg.values, now, p.src);
    IdsAppend(own, IdsOf(s.node.agg.Live()), m);
  }

  lemma DrainPackets(t: Topology, n: Mac, live: seq<Entry>, b: map<ModuleId, seq<Batch>>, clock: Clock)
    requires n in t.parent && live != [] && forall i :: 0 <= i < |live| ==> live[i].steps >= 1
    ensures Packets(t, n, FramesOut(Drain(live, clock), false), b)
         == [Packet(n, t.parent[n], ParcelOf(FrameOf(ReportOf(live[|live| - 1], ReadAt(clock, |live| - 1))), b))]
            + Packets(t, n, FramesOut(Drain(live[..|live| - 1], clock), false), b)
  {
  }

  lemma IdsLast(own: ModuleId, live: seq<Entry>)
    requires live != []
    ensures IdsWeight(own, IdsOf(live))
         == IdsWeight(own, IdsOf(live[..|live| - 1])) + EntryWeight(own, live[|live| - 1].id)
  {
    assert IdsOf(live)[..|live| - 1] == IdsOf(live[..|live| - 1]);
  }

  lemma ReportWeight(t: Topology, n: Mac, e: Entry, b: map<ModuleId, seq<Batch>>, now: Instant)
    requires t.Tree() && n in t.parent && e.steps >= 1 && e.id in t.owner
    ensures PacketWeight(t, Packet(n, t.parent[n], ParcelOf(FrameOf(ReportOf(e, now)), b))) + 1
         <= EntryWeight(t.id[n], e.id)
  {
    assert t.owner[e.id] == n <==> e.id == t.id[n];
  }

  lemma DrainLast(t: Topology, n: Mac, live: seq<Entry>, b: map<ModuleId, seq<Batch>>, clock: Clock)
    requires t.Tree() && n in t.parent && live != []
    requires forall i :: 0 <= i < |live| ==> live[i].steps >= 1 && live[i].id in t.owner
    ensures var k := |live| - 1;
            (FlightWeight(t, Packets(t, n, FramesOut(Drain(live, clock), false), b)) + 1
             <= FlightWeight(t, Packets(t, n, FramesOut(Drain(live[..k], clock), false), b))
                + EntryWeight(t.id[n], live[k].id))
  {
    hide PacketWeight, EntryWeight, Topology.Tree, FlightWeight, Drain, FramesOut, Packets, ParcelOf;
    var k := |live| - 1;
    DrainPackets(t, n, live, b, clock);
    ReportWeight(t, n, live[k], b, ReadAt(clock, k));
    var p := Packet(n, t.parent[n], ParcelOf(FrameOf(ReportOf(live[k], ReadAt(clock, k))), b));
    FlightConcat(t, [p], Packets(t, n, FramesOut(Drain(live[..k], clock), false), b));
    FlightOne(t, p);
  }

  lemma DrainNothing(t: Topology, n: Mac, b: map<ModuleId, seq<Batch>>, clock: Clock)
    requires n in t.parent
    ensures FlightWeight(t, Packets(t, n, FramesOut(Drain([], clock), false), b)) == 0
  {
    assert Packets(t, n, FramesOut(Drain([], clock), false), b) == [];
    assert FlightWeight(t, []) == 0;
  }

  /** Each drained entry leaves as a packet that weighs less. */
  lemma {:induction false} DrainWeight(t: Topology, n: Mac, live: seq<Entry>, b: map<ModuleId, seq<Batch>>,
                                       clock: Clock)
    requires t.Tree() && n in t.parent
    requires forall i :: 0 <= i < |live| ==> live[i].steps >= 1 && live[i].id in t.owner
    ensures FlightWeight(t, Packets(t, n, FramesOut(Drain(live, clock), false), b)) + |live|
         <= IdsWeight(t.id[n], IdsOf(live))
  {
    hide FlightWeight, IdsWeight, IdsOf, EntryWeight, Drain, FramesOut, Packets;
    if live == [] {
      DrainNothing(t, n, b, clock);
    } else {
      DrainWeight(t, n, live[..|live| - 1], b, clock);
      DrainLast(t, n, live, b, clock);
      IdsLast(t.id[n], live);
    }
  }

  lemma {:induction false} EmptyIds(own: ModuleId, ids: seq<ModuleId>)
    ensures IdsWeight(own, ids) >= |ids|
  {
    if ids != [] {
      EmptyIds(own, ids[..|ids| - 1]);
    }
  }

  // ---------------------------------------------------------------- what a settling step does

  /** A delivery changes only the receiver's site. */
  lemma DeliverSites(t: Topology, net: Net, k: nat, now: Instant)
    requires t.Tree() && Inv(t, net) && k < |net.flight| && net.flight[k].dst in t.id
    requires SiteOk(t, net.flight[k].dst, net.sites[net.flight[k].dst])
    ensures var p := net.flight[k];
            AtDeliver(t, net, k, now).sites == net.sites[p.dst := ReceiveSite(t, net.sites[p.dst], p, now).0]
  {
    hide SiteOk, ReceiveSite;
  }

  lemma ForwardedWeight(t: Topology, p: Packet)
    requires t.Tree() && PacketOk(t, p) && p.parcel.msg.SensorMsg?
    ensures PacketWeight(t, p) >= 1
    ensures p.dst != t.root ==> PacketWeight(t, Packet(p.dst, t.root, p.parcel)) < PacketWeight(t, p)
  {
    var o := t.owner[p.parcel.msg.id];
    NoCycle(t, o);
    if t.parent[o] in t.parent {
      NoCycle(t, t.parent[o]);
    }
  }

  lemma AdvertisementWeight(t: Topology, net: Net, k: nat, now: Instant)
    requires t.Tree() && Inv(t, net) && k < |net.flight| && net.flight[k].parcel.msg.AdvMsg?
    ensures Weight(t, AtDeliver(t, net, k, now)) < Weight(t, net)
  {
    hide SiteOk, PacketOk, ParcelOk, Inv, Topology.Tree;
    AdvertisementEffect(t, net, k, now);
    FlightRemove(t, net.flight, k);
    var d, net' := net.flight[k].dst, AtDeliver(t, net, k, now);
    PacketIsOk(t, net, k);
    PacketEnds(t, net.flight[k]);
    hide AtDeliver;
    WeightUpdate(t, net, d, net'.sites[d]);
  }

  lemma FrameWeight(t: Topology, net: Net, k: nat, now: Instant)
    requires t.Tree() && Inv(t, net) && k < |net.flight| && net.flight[k].parcel.msg.SensorMsg?
    ensures Weight(t, AtDeliver(t, net, k, now)) < Weight(t, net)
  {
    hide SiteOk, PacketOk, ParcelOk, ReceiveSite, Inv, Topology.Tree, IsClaimed, PacketWeight;
    var p := net.flight[k];
    PacketIsOk(t, net, k);
    DestinationOk(t, net, k);
    var s := net.sites[p.dst];
    SiteValid(t, p.dst, s);
    SingleHop(t, net, k, now);
    DeliverSites(t, net, k, now);
    FlightRemove(t, net.flight, k);
    var s' := ReceiveSite(t, s, p, now).0;
    var net' := AtDeliver(t, net, k, now);
    if IsClaimed(s, p) {
      FoldWeight(t, s, p, now);
      WeightUpdate(t, net, p.dst, s');
    } else {
      ForwardedWeight(t, p);
      if p.dst != t.root {
        FlightAppend(t, Remove(net.flight, k), Packet(p.dst, t.root, p.parcel));
      }
    }
  }

  /** Every delivery lowers the potential. */
  lemma DeliverWeight(t: Topology, net: Net, k: nat, now: Instant)
    requires t.Tree() && Inv(t, net) && k < |net.flight|
    ensures Weight(t, AtDeliver(t, net, k, now)) < Weight(t, net)
  {
    PacketIsOk(t, net, k);
    hide Inv, AtDeliver, Weight;
    if net.flight[k].parcel.msg.AdvMsg? {
      AdvertisementWeight(t, net, k, now);
    } else {
      FrameWeight(t, net, k, now);
    }
  }

  lemma ServeSiteWeight(t: Topology, n: Mac, s: Site, clock: Clock)
    requires t.Tree() && n in t.id && SiteOk(t, n, s) && s.node.Valid()
    ensures var (s', outs) := ServeSite(t, n, s, clock);
            var moved := if Ready(t.Conf(n), s.node) then s.node.agg.size else 0;
            && SiteWeight(t.id[n], s') + moved <= SiteWeight(t.id[n], s)
            && (n in t.parent ==> SiteWeight(t.id[n], s') + FlightWeight(t, Packets(t, n, outs, s.batches)) + moved
                                  <= SiteWeight(t.id[n], s))
  {
    var live := s.node.agg.Live();
    forall i | 0 <= i < |live|
      ensures live[i].id in t.owner
    {
      assert live[i] == s.node.agg.slots[i];
      assert Near(t, n, s.node.agg.slots[i].id);
    }
    hide SiteOk;
    EmptyIds(t.id[n], IdsOf(live));
    var (s', outs) := ServeSite(t, n, s, clock);
    if Ready(t.Conf(n), s.node) {
      assert IdsOf(s'.node.agg.Live()) == [];
      if n in t.parent {
        DrainWeight(t, n, live, s.batches, clock);
      }
    } else if n in t.parent {
      assert Packets(t, n, outs, s.batches) == [];
    }
  }

  lemma ServeWeight(t: Topology, net: Net, n: Mac, clock: Clock)
    requires t.Tree() && Inv(t, net) && n in t.id && net.sites[n].node.Valid()
    ensures Weight(t, AtServe(t, net, n, clock))
            + (if Ready(t.Conf(n), net.sites[n].node) then net.sites[n].node.agg.size else 0)
         <= Weight(t, net)
  {
    hide SiteOk, PacketOk, ParcelOk, ServeSite;
    var s := net.sites[n];
    var (s', outs) := ServeSite(t, n, s, clock);
    ServeSiteWeight(t, n, s, clock);
    WeightUpdate(t, net, n, s');
    if n != t.root {
      FlightConcat(t, net.flight, Packets(t, n, outs, s.batches));
    }
  }

  // ---------------------------------------------------------------- running out of work

  lemma SettlingEnabled(t: Topology, net: Net, e: NetEvent)
    requires t.Tree() && Inv(t, net) && Settling(t, net, e)
    ensures Enabled(t, net, e)
  {
  }

  /** A settling step that moves data lowers the potential; no settling step raises it. */
  lemma NextWeight(t: Topology, net: Net, e: NetEvent)
    requires t.Tree() && Inv(t, net) && Settling(t, net, e)
    ensures Enabled(t, net, e) && Inv(t, Next(t, net, e))
    ensures Weight(t, Next(t, net, e)) + (if Moves(t, net, e) then 1 else 0) <= Weight(t, net)
  {
    hide SiteOk, PacketOk, ParcelOk, Weight, AtDeliver, AtServe;
    SettlingEnabled(t, net, e);
    NextKeeps(t, net, e);
    match e {
      case Deliver(k, now) => DeliverWeight(t, net, k, now);
      case Serve(n, clock) =>
        SiteValid(t, n, net.sites[n]);
        ServeWeight(t, net, n, clock);
    }
  }
}
