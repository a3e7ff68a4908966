/**
 * When tables refuse nothing: with a slot for a node and all nodes just below it, whatever the
 * disconnects; and with one slot more than the children table has, as long as disconnects are
 * size-safe. Then what is left behind is all that can be missing at the server.
 */
module MeshRoom {
  import opened Types
  import opened Samples
  import opened Aggregate
  import opened Children
  import opened Node
  import opened Sizing
  import opened Mesh
  import opened MeshFlow
  import opened MeshRest
  import opened MeshCover

  /** The nodes just below n. */
  function Below(t: Topology, n: Mac): set<Mac> {
    set c | c in t.parent && t.parent[c] == n
  }

  /** Every table has a slot for its node and for each node just below. */
  predicate Roomy(t: Topology, net: Net) {
    forall n :: n in t.id && n in net.sites ==> |net.sites[n].node.agg.slots| > |Below(t, n)|
  }

  /** The ids that a table of n may list. */
  function NearIds(t: Topology, n: Mac): set<ModuleId>
    requires t.Tree() && n in t.id
  {
    {t.id[n]} + set c | c in Below(t, n) :: t.id[c]
  }

  lemma {:induction false} ImageSize(t: Topology, cs: set<Mac>)
    requires forall c :: c in cs ==> c in t.id
    ensures |set c | c in cs :: t.id[c]| <= |cs|
  {
    if cs != {} {
      var c :| c in cs;
      var rest := cs - {c};
      ImageSize(t, rest);
      assert (set d | d in cs :: t.id[d]) == (set d | d in rest :: t.id[d]) + {t.id[c]};
    }
  }

  lemma NearIdsSize(t: Topology, n: Mac)
    requires t.Tree() && n in t.id
    ensures |NearIds(t, n)| <= |Below(t, n)| + 1
  {
    ImageSize(t, Below(t, n));
  }

  lemma NearListed(t: Topology, n: Mac, m: ModuleId)
    requires t.Tree() && n in t.id && Near(t, n, m)
    ensures m in NearIds(t, n)
  {
    assert t.owner[m] != n ==> t.owner[m] in Below(t, n);
  }

  lemma NearEntries(t: Topology, n: Mac, s: Site)
    requires t.Tree() && n in t.id && SiteOk(t, n, s)
    ensures s.node.Valid()
    ensures forall i :: 0 <= i < s.node.agg.size ==> Near(t, n, s.node.agg.Live()[i].id)
  {
  }

  /** A pigeonhole: a module near n that is not listed yet still finds a slot. */
  lemma RoomNear(t: Topology, n: Mac, s: Site, m: ModuleId, x: Sample, now: Instant)
    requires t.Tree() && n in t.id && SiteOk(t, n, s) && Near(t, n, m) && |s.node.agg.slots| > |Below(t, n)|
    ensures s.node.Valid() && Push(s.node.agg, m, x, now).1 >= 0
  {
    hide SiteOk, NearIds, Below, Near;
    NearEntries(t, n, s);
    PushValid(s.node.agg, m, x, now);
    var live := s.node.agg.Live();
    if !Has(live, m) {
      var ids := IdsOf(live) + [m];
      DistinctIds(s.node.agg, m);
      DistinctLength(ids);
      NearIdsSize(t, n);
      forall id | id in Elements(ids)
        ensures id in NearIds(t, n)
      {
        NearListed(t, n, id);
      }
      SubsetSize(Elements(ids), NearIds(t, n));
    }
  }

  lemma DistinctIds(agg: Table, m: ModuleId)
    requires agg.Valid() && !Has(agg.Live(), m)
    ensures var ids := IdsOf(agg.Live()) + [m];
            forall i, j :: 0 <= i < j < |ids| ==> ids[i] != ids[j]
  {
  }

  // ---------------------------------------------------------------- steps that refuse nothing

  lemma SlotsKept(t: Topology, n: Mac, s: Site, e: Event)
    requires t.Tree() && n in t.id && SiteOk(t, n, s)
    ensures s.node.Valid() && |Step(t.Conf(n), s.node, e).state.agg.slots| == |s.node.agg.slots|
  {
    SiteValid(t, n, s);
    hide SiteOk, Topology.Tree, Step;
    StepValid(t.Conf(n), s.node, e);
  }

  lemma OwnNear(t: Topology, n: Mac)
    requires t.Tree() && n in t.id
    ensures Near(t, n, t.id[n])
  {
  }

  lemma RoomyTickSite(t: Topology, n: Mac, s: Site, x: Sample, now: Instant)
    requires t.Tree() && n in t.id && SiteOk(t, n, s) && |s.node.agg.slots| > |Below(t, n)|
    ensures TickSite(t, n, s, x, now).1 == []
    ensures |TickSite(t, n, s, x, now).0.node.agg.slots| == |s.node.agg.slots|
  {
    hide SiteOk, Push, Topology.Tree, Below, Near;
    OwnNear(t, n);
    RoomNear(t, n, s, t.id[n], x, now);
    SlotsKept(t, n, s, Timer(x, now));
  }

  lemma RoomyTick(t: Topology, net: Net, n: Mac, x: Sample, now: Instant)
    requires t.Tree() && Inv(t, net) && Roomy(t, net) && n in t.id
    ensures Roomy(t, AtTick(t, net, n, x, now)) && AtTick(t, net, n, x, now).lost == net.lost
  {
    hide Inv, SiteOk, Topology.Tree, Below, TickSite;
    SiteAt(t, net, n);
    RoomyTickSite(t, n, net.sites[n], x, now);
  }

  lemma RoomyReceive(t: Topology, s: Site, p: Packet, now: Instant)
    requires t.Tree() && PacketOk(t, p) && p.dst in t.id && SiteOk(t, p.dst, s)
    requires |s.node.agg.slots| > |Below(t, p.dst)|
    ensures ReceiveSite(t, s, p, now).2 == []
    ensures |ReceiveSite(t, s, p, now).0.node.agg.slots| == |s.node.agg.slots|
  {
    hide SiteOk, Push, Below, Near, PacketOk;
    SiteValid(t, p.dst, s);
    SlotsKept(t, p.dst, s, Received(p.src, p.parcel.msg, now, p.dst == t.root));
    PacketMoves(t, p);
    if IsClaimed(s, p) {
      ClaimedIsChilds(t, s, p);
      ClaimedNear(t, p);
      RoomNear(t, p.dst, s, p.parcel.msg.id, p.parcel.msg.values, now);
    }
  }

  lemma ClaimedNear(t: Topology, p: Packet)
    requires t.Tree() && PacketOk(t, p) && p.parcel.msg.SensorMsg?
    requires p.src == t.owner[p.parcel.msg.id] && t.parent[p.src] == p.dst
    ensures Near(t, p.dst, p.parcel.msg.id)
  {
  }

  lemma RoomyDeliver(t: Topology, net: Net, k: nat, now: Instant)
    requires t.Tree() && Inv(t, net) && Roomy(t, net) && k < |net.flight|
    ensures Roomy(t, AtDeliver(t, net, k, now)) && AtDeliver(t, net, k, now).lost == net.lost
  {
    hide Inv, SiteOk, PacketOk, ParcelOk, ReceiveSite, Below, Topology.Tree;
    PacketIsOk(t, net, k);
    DestinationOk(t, net, k);
    RoomyReceive(t, net.sites[net.flight[k].dst], net.flight[k], now);
  }

  lemma RoomyServe(t: Topology, net: Net, n: Mac, clock: Clock)
    requires t.Tree() && Inv(t, net) && Roomy(t, net) && n in t.id
    ensures Roomy(t, AtServe(t, net, n, clock)) && AtServe(t, net, n, clock).lost == net.lost
  {
    hide Inv, SiteOk, Below, Topology.Tree, Drain;
    SiteAt(t, net, n);
  }

  lemma RoomyStart(t: Topology, net: Net, n: Mac)
    requires t.Tree() && Inv(t, net) && Roomy(t, net) && n in t.id
    ensures Roomy(t, AtStart(t, net, n)) && AtStart(t, net, n).lost == net.lost
  {
    hide Inv, SiteOk, Below, Topology.Tree;
    SiteAt(t, net, n);
  }

  lemma RoomyDetach(t: Topology, net: Net, n: Mac, c: Mac)
    requires t.Tree() && Inv(t, net) && Roomy(t, net) && n in t.id
    ensures Roomy(t, AtDetach(t, net, n, c))
  {
    hide Inv, SiteOk, Below, Topology.Tree, PopAt, PopChild;
    SiteAt(t, net, n);
    SlotsKept(t, n, net.sites[n], ChildDisconnected(c));
  }

  lemma RoomyFlush(t: Topology, net: Net, n: Mac, from: Mac)
    requires t.Tree() && Inv(t, net) && Roomy(t, net) && n in t.id
    ensures Roomy(t, AtFlush(t, net, n, from)) && AtFlush(t, net, n, from).lost == net.lost
  {
    hide Inv, SiteOk, Below, Topology.Tree;
    SiteAt(t, net, n);
  }

  /** With room for all, only disconnects and the air lose anything. */
  lemma NothingRefused(t: Topology, net: Net, e: NetEvent)
    requires t.Tree() && Inv(t, net) && Roomy(t, net) && Enabled(t, net, e)
    ensures Roomy(t, Next(t, net, e))
    ensures !e.Detach? && !e.Lose? ==> Next(t, net, e).lost == net.lost
  {
    hide Inv, Topology.Tree, AtTick, AtDetach, AtStart, AtFlush, AtDeliver, AtServe, Below, AttachSite;
    match e {
      case Tick(n, x, now) => RoomyTick(t, net, n, x, now);
      case Attach(n, c) => RoomyAttach(t, net, n, c);
      case Detach(n, c) => RoomyDetach(t, net, n, c);
      case StartService(n) => RoomyStart(t, net, n);
      case FlushRequest(n, from) => RoomyFlush(t, net, n, from);
      case Deliver(k, now) => RoomyDeliver(t, net, k, now);
      case Lose(_) =>
      case Serve(n, clock) => RoomyServe(t, net, n, clock);
    }
  }

  lemma RoomyAttach(t: Topology, net: Net, n: Mac, c: Mac)
    requires t.Tree() && Inv(t, net) && Roomy(t, net) && n in t.id
    ensures Roomy(t, AtAttach(t, net, n, c)) && AtAttach(t, net, n, c).lost == net.lost
  {
    hide Inv, SiteOk, Below, Topology.Tree;
    SiteAt(t, net, n);
  }

  // ---------------------------------------------------------------- every event is a step of a node

  /** The node that acts in an event other than a loss. */
  function Acting(t: Topology, net: Net, e: NetEvent): Mac {
    match e
    case Deliver(k, _) => if k < |net.flight| then net.flight[k].dst else t.root
    case Lose(_) => t.root
    case Tick(n, _, _) => n
    case Attach(n, _) => n
    case Detach(n, _) => n
    case StartService(n) => n
    case FlushRequest(n, _) => n
    case Serve(n, _) => n
  }

  /** What happens to it there. */
  function Acted(t: Topology, net: Net, e: NetEvent): Event {
    match e
    case Tick(_, x, now) => Timer(x, now)
    case Attach(_, c) => ChildConnected(c)
    case Detach(_, c) => ChildDisconnected(c)
    case StartService(n) => Started(true, n == t.root)
    case FlushRequest(n, from) => Received(from, FlushMsg(0), Instant(0, 0), n == t.root)
    case Deliver(k, now) =>
      if k < |net.flight| then Received(net.flight[k].src, net.flight[k].parcel.msg, now, net.flight[k].dst == t.root)
      else Started(false, false)
    case Serve(n, clock) => Served(clock, n == t.root)
    case Lose(_) => Started(false, false)
  }

  /** Node n makes the step ev, and no other node changes. */
  predicate Acts(t: Topology, net: Net, net': Net, n: Mac, ev: Event) {
    && n in t.id && n in net.sites && n in net'.sites && net.sites[n].node.Valid()
    && net'.sites == net.sites[n := net'.sites[n]]
    && net'.sites[n].node == Step(t.Conf(n), net.sites[n].node, ev).state
  }

  lemma ReceiveActs(t: Topology, net: Net, k: nat, now: Instant)
    requires t.Tree() && Inv(t, net) && k < |net.flight|
    ensures Acts(t, net, AtDeliver(t, net, k, now), Acting(t, net, Deliver(k, now)), Acted(t, net, Deliver(k, now)))
  {
    hide Inv, SiteOk, PacketOk, ParcelOk, Topology.Tree, OnReceive, Packets, Parcels;
    DestinationOk(t, net, k);
    SiteValid(t, net.flight[k].dst, net.sites[net.flight[k].dst]);
  }

  lemma ServeActs(t: Topology, net: Net, n: Mac, clock: Clock)
    requires t.Tree() && Inv(t, net) && n in t.id
    ensures Acts(t, net, AtServe(t, net, n, clock), n, Served(clock, n == t.root))
  {
    hide Inv, SiteOk, Topology.Tree, OnServe, Packets, Parcels;
    SiteAt(t, net, n);
    SiteValid(t, n, net.sites[n]);
  }

  lemma StartActs(t: Topology, net: Net, n: Mac)
    requires t.Tree() && Inv(t, net) && n in t.id
    ensures Acts(t, net, AtStart(t, net, n), n, Started(true, n == t.root))
  {
    hide Inv, SiteOk, Topology.Tree, OnStart, Packets, Parcels;
    SiteAt(t, net, n);
    SiteValid(t, n, net.sites[n]);
  }

  lemma TickActs(t: Topology, net: Net, n: Mac, x: Sample, now: Instant)
    requires t.Tree() && Inv(t, net) && n in t.id
    ensures Acts(t, net, AtTick(t, net, n, x, now), n, Timer(x, now))
  {
    hide Inv, SiteOk, Topology.Tree, OnTimer;
    SiteAt(t, net, n);
    SiteValid(t, n, net.sites[n]);
  }

  lemma AttachActs(t: Topology, net: Net, n: Mac, c: Mac)
    requires t.Tree() && Inv(t, net) && n in t.id
    ensures Acts(t, net, AtAttach(t, net, n, c), n, ChildConnected(c))
  {
    hide Inv, SiteOk, Topology.Tree, PushChild;
    SiteAt(t, net, n);
    SiteValid(t, n, net.sites[n]);
  }

  lemma DetachActs(t: Topology, net: Net, n: Mac, c: Mac)
    requires t.Tree() && Inv(t, net) && n in t.id
    ensures Acts(t, net, AtDetach(t, net, n, c), n, ChildDisconnected(c))
  {
    hide Inv, SiteOk, Topology.Tree, PopChild, PopAt;
    SiteAt(t, net, n);
    SiteValid(t, n, net.sites[n]);
  }

  lemma FlushActs(t: Topology, net: Net, n: Mac, from: Mac)
    requires t.Tree() && Inv(t, net) && n in t.id
    ensures Acts(t, net, AtFlush(t, net, n, from), n, Received(from, FlushMsg(0), Instant(0, 0), n == t.root))
  {
    hide Inv, SiteOk, Topology.Tree, OnReceive;
    SiteAt(t, net, n);
    SiteValid(t, n, net.sites[n]);
  }

  /** Each event of the network but a loss is one step of one node, and leaves all others alone. */
  lemma NextIsStep(t: Topology, net: Net, e: NetEvent)
    requires t.Tree() && Inv(t, net) && Enabled(t, net, e) && !e.Lose?
    ensures Acts(t, net, Next(t, net, e), Acting(t, net, e), Acted(t, net, e))
  {
    hide Inv, Topology.Tree, AtTick, AtAttach, AtDetach, AtStart, AtFlush, AtDeliver, AtServe, Acts;
    match e {
      case Tick(n, x, now) => TickActs(t, net, n, x, now);
      case Attach(n, c) => AttachActs(t, net, n, c);
      case Detach(n, c) => DetachActs(t, net, n, c);
      case StartService(n) => StartActs(t, net, n);
      case FlushRequest(n, from) => FlushActs(t, net, n, from);
      case Deliver(k, now) => ReceiveActs(t, net, k, now);
      case Serve(n, clock) => ServeActs(t, net, n, clock);
    }
  }

  // ---------------------------------------------------------------- one slot more than children

  /** The ids of the nodes just below n. */
  function IdsBelow(t: Topology, n: Mac): map<Mac, ModuleId>
    requires t.Tree()
  {
    map c | c in t.parent && t.parent[c] == n :: t.id[c]
  }

  lemma BelowAssigned(t: Topology, n: Mac)
    requires t.Tree() && n in t.id
    ensures Assigned(t.Conf(n), IdsBelow(t, n))
  {
    forall c | c in t.id
      ensures t.owner[t.id[c]] == c
    {
    }
    forall c | c in IdsBelow(t, n)
      ensures c in t.id && c != n
    {
      NoCycle(t, c);
    }
  }

  predicate SnugAt(t: Topology, n: Mac, s: State)
    requires t.Tree()
  {
    n in t.id && AllBelong(t.Conf(n), IdsBelow(t, n), s) && |s.agg.slots| > |s.kids.macs|
  }

  /** Everywhere entries belong to the node or to a connected child, and tables exceed children tables. */
  predicate Snug(t: Topology, net: Net)
    requires t.Tree()
  {
    forall n :: n in t.id ==> n in net.sites && SnugAt(t, n, net.sites[n].node)
  }

  predicate FitsAt(t: Topology, net: Net, n: Mac, ev: Event)
    requires t.Tree()
  {
    && n in t.id && n in net.sites && net.sites[n].node.Valid()
    && Fitting(t.Conf(n), IdsBelow(t, n), net.sites[n].node, ev)
  }

  predicate SafeAt(t: Topology, net: Net, n: Mac, ev: Event)
    requires t.Tree()
  {
    (n in t.id && n in net.sites && net.sites[n].node.Valid())
      ==> SizeSafe(t.Conf(n), IdsBelow(t, n), net.sites[n].node, ev)
  }

  /** The disconnect, if the event is one, is size-safe. */
  predicate DetachSafe(t: Topology, net: Net, e: NetEvent)
    requires t.Tree()
  {
    e.Detach? ==> SafeAt(t, net, e.n, ChildDisconnected(e.c))
  }

  lemma FrameFits(t: Topology, net: Net, k: nat, now: Instant)
    requires t.Tree() && Inv(t, net) && k < |net.flight|
    ensures FitsAt(t, net, Acting(t, net, Deliver(k, now)), Acted(t, net, Deliver(k, now)))
  {
    hide Inv, SiteOk, PacketOk, ParcelOk, IsChild;
    var p := net.flight[k];
    PacketIsOk(t, net, k);
    DestinationOk(t, net, k);
    SiteValid(t, p.dst, net.sites[p.dst]);
    SourceHasParent(t, p);
    if p.parcel.msg.SensorMsg? && IsClaimed(net.sites[p.dst], p) {
      ClaimedIsChilds(t, net.sites[p.dst], p);
    }
  }

  lemma NetFits(t: Topology, net: Net, e: NetEvent)
    requires t.Tree() && Inv(t, net) && Enabled(t, net, e) && !e.Lose?
    ensures FitsAt(t, net, Acting(t, net, e), Acted(t, net, e))
  {
    hide Inv, SiteOk;
    if e.Deliver? {
      hide FitsAt, Topology.Tree;
      FrameFits(t, net, e.k, e.now);
    } else {
      SiteAt(t, net, e.n);
      SiteValid(t, e.n, net.sites[e.n]);
    }
  }

  lemma StepSlots(cfg: Config, s: State, e: Event)
    requires s.Valid()
    ensures var s' := Step(cfg, s, e).state;
            |s'.agg.slots| == |s.agg.slots| && |s'.kids.macs| == |s.kids.macs|
  {
    StepValid(cfg, s, e);
  }

  lemma SnugStep(t: Topology, n: Mac, s: State, e: Event)
    requires t.Tree() && SnugAt(t, n, s) && s.Valid() && Fitting(t.Conf(n), IdsBelow(t, n), s, e)
    ensures SnugAt(t, n, Step(t.Conf(n), s, e).state) <==> SizeSafe(t.Conf(n), IdsBelow(t, n), s, e)
    ensures Sizing.NothingRefused(t.Conf(n), s, e)
  {
    hide AllBelong, Fitting, SizeSafe, Step, Sizing.NothingRefused, IdsBelow, Assigned, Topology.Tree;
    BelowAssigned(t, n);
    BelongIffSizeSafe(t.Conf(n), IdsBelow(t, n), s, e);
    BelongRefusesNothing(t.Conf(n), IdsBelow(t, n), s, e);
    StepSlots(t.Conf(n), s, e);
  }

  /** One acting node decides for the whole network. */
  lemma SnugActs(t: Topology, net: Net, net': Net, n: Mac, ev: Event)
    requires t.Tree() && Snug(t, net) && Acts(t, net, net', n, ev) && FitsAt(t, net, n, ev)
    ensures Snug(t, net') <==> SafeAt(t, net, n, ev)
  {
    hide Topology.Tree, SnugAt, Fitting, SizeSafe, Step, IdsBelow, State.Valid;
    SnugStep(t, n, net.sites[n].node, ev);
  }

  /** Entries go on belonging, all over the network, if and only if the event is no size-unsafe disconnect. */
  lemma SnugIffDetachSafe(t: Topology, net: Net, e: NetEvent)
    requires t.Tree() && Inv(t, net) && Snug(t, net) && Enabled(t, net, e)
    ensures Snug(t, Next(t, net, e)) <==> DetachSafe(t, net, e)
  {
    if e.Lose? {
      hide Inv, Topology.Tree, SnugAt;
    } else {
      hide Inv, Snug, Topology.Tree, Acts, FitsAt, SafeAt, Next, Enabled;
      NextIsStep(t, net, e);
      NetFits(t, net, e);
      SnugActs(t, net, Next(t, net, e), Acting(t, net, e), Acted(t, net, e));
      OthersSafe(t, net, Acting(t, net, e), Acted(t, net, e));
    }
  }

  /** Only disconnects can be unsafe. */
  lemma OthersSafe(t: Topology, net: Net, n: Mac, ev: Event)
    requires t.Tree()
    ensures !ev.ChildDisconnected? ==> SafeAt(t, net, n, ev)
  {
    hide Topology.Tree;
  }

  /** A node that refuses nothing takes its sample in. */
  lemma TickTaken(t: Topology, n: Mac, s: Site, x: Sample, now: Instant)
    requires t.Tree() && n in t.id && SiteOk(t, n, s) && s.node.Valid()
    requires Sizing.NothingRefused(t.Conf(n), s.node, Timer(x, now))
    ensures TickSite(t, n, s, x, now).1 == []
  {
    hide SiteOk, Topology.Tree, Push;
  }

  /** And each frame it takes in or hands on. */
  lemma FrameTaken(t: Topology, s: Site, p: Packet, now: Instant)
    requires t.Tree() && p.dst in t.id && SiteOk(t, p.dst, s) && s.node.Valid() && p.src != p.dst
    requires Sizing.NothingRefused(t.Conf(p.dst), s.node, Received(p.src, p.parcel.msg, now, p.dst == t.root))
    ensures ReceiveSite(t, s, p, now).2 == []
  {
    hide SiteOk, Topology.Tree, Push, Associate, IsChild;
  }

  lemma SnugTick(t: Topology, net: Net, n: Mac, x: Sample, now: Instant)
    requires t.Tree() && Inv(t, net) && Snug(t, net) && n in t.id
    ensures AtTick(t, net, n, x, now).lost == net.lost
  {
    hide Inv, SiteOk, Topology.Tree, SnugAt, TickSite, Sizing.NothingRefused, IdsBelow;
    SiteAt(t, net, n);
    SiteValid(t, n, net.sites[n]);
    SnugStep(t, n, net.sites[n].node, Timer(x, now));
    TickTaken(t, n, net.sites[n], x, now);
  }

  lemma SnugDeliver(t: Topology, net: Net, k: nat, now: Instant)
    requires t.Tree() && Inv(t, net) && Snug(t, net) && k < |net.flight|
    ensures AtDeliver(t, net, k, now).lost == net.lost
  {
    hide Inv, SiteOk, PacketOk, Topology.Tree, SnugAt, ReceiveSite, Sizing.NothingRefused, IdsBelow, Fitting;
    var p := net.flight[k];
    PacketIsOk(t, net, k);
    PacketMoves(t, p);
    DestinationOk(t, net, k);
    FrameFits(t, net, k, now);
    SnugStep(t, p.dst, net.sites[p.dst].node, Received(p.src, p.parcel.msg, now, p.dst == t.root));
    FrameTaken(t, net.sites[p.dst], p, now);
  }

  /** While entries belong, nothing is refused: only disconnects and the air lose anything. */
  lemma SnugRefusesNothing(t: Topology, net: Net, e: NetEvent)
    requires t.Tree() && Inv(t, net) && Snug(t, net) && Enabled(t, net, e) && !e.Detach? && !e.Lose?
    ensures Next(t, net, e).lost == net.lost
  {
    if e.Tick? {
      hide Inv, Snug, Topology.Tree, AtTick;
      SnugTick(t, net, e.n, e.x, e.now);
    } else if e.Deliver? {
      hide Inv, Snug, Topology.Tree, AtDeliver;
      SnugDeliver(t, net, e.k, e.now);
    } else {
      hide Inv, Snug, Topology.Tree, SiteOk, AttachSite, FlushSite, StartSite, ServeSite, Packets, Parcels;
    }
  }

  // ---------------------------------------------------------------- runs

  /** No step of the run but a disconnect or a loss on the air loses anything. */
  predicate RefusesNothing(t: Topology, net: Net, es: seq<NetEvent>)
    requires t.Tree() && Inv(t, net)
    decreases |es|
  {
    if es == [] then true
    else if !Enabled(t, net, es[0]) then RefusesNothing(t, net, es[1..])
    else
      NextKeeps(t, net, es[0]);
      && (!es[0].Detach? && !es[0].Lose? ==> Next(t, net, es[0]).lost == net.lost)
      && RefusesNothing(t, Next(t, net, es[0]), es[1..])
  }

  /** Every disconnect of the run is size-safe. */
  predicate DetachesSafe(t: Topology, net: Net, es: seq<NetEvent>)
    requires t.Tree() && Inv(t, net)
    decreases |es|
  {
    if es == [] then true
    else if !Enabled(t, net, es[0]) then DetachesSafe(t, net, es[1..])
    else
      NextKeeps(t, net, es[0]);
      DetachSafe(t, net, es[0]) && DetachesSafe(t, Next(t, net, es[0]), es[1..])
  }

  /** Entries belong in every state of the run. */
  predicate StaysSnug(t: Topology, net: Net, es: seq<NetEvent>)
    requires t.Tree() && Inv(t, net)
    decreases |es|
  {
    && Snug(t, net)
    && (if es == [] then true
        else if !Enabled(t, net, es[0]) then StaysSnug(t, net, es[1..])
        else
          NextKeeps(t, net, es[0]);
          StaysSnug(t, Next(t, net, es[0]), es[1..]))
  }

  lemma {:induction false} RoomyRun(t: Topology, net: Net, es: seq<NetEvent>)
    requires t.Tree() && Inv(t, net) && Roomy(t, net)
    ensures RefusesNothing(t, net, es)
    decreases |es|
  {
    hide Inv, Roomy, Enabled, Next, Topology.Tree;
    if es != [] {
      if Enabled(t, net, es[0]) {
        NextKeeps(t, net, es[0]);
        NothingRefused(t, net, es[0]);
        RoomyRun(t, Next(t, net, es[0]), es[1..]);
      } else {
        RoomyRun(t, net, es[1..]);
      }
    }
  }

  lemma {:induction false} SnugRun(t: Topology, net: Net, es: seq<NetEvent>)
    requires t.Tree() && Inv(t, net) && Snug(t, net)
    ensures StaysSnug(t, net, es) <==> DetachesSafe(t, net, es)
    ensures DetachesSafe(t, net, es) ==> RefusesNothing(t, net, es)
    decreases |es|
  {
    hide Inv, Snug, Enabled, Next, Topology.Tree, DetachSafe;
    if es != [] {
      if Enabled(t, net, es[0]) {
        NextKeeps(t, net, es[0]);
        SnugIffDetachSafe(t, net, es[0]);
        if !es[0].Detach? && !es[0].Lose? {
          SnugRefusesNothing(t, net, es[0]);
        }
        var net' := Next(t, net, es[0]);
        if Snug(t, net') {
          SnugRun(t, net', es[1..]);
        } else {
          assert !StaysSnug(t, net', es[1..]);
        }
      } else {
        SnugRun(t, net, es[1..]);
      }
    }
  }

  lemma QuietSnug(t: Topology, aggSlots: nat, kidSlots: nat)
    requires t.Tree() && aggSlots > kidSlots
    ensures Snug(t, Quiet(t, aggSlots, kidSlots))
  {
    hide Inv, SiteOk;
  }

  /**
   * The sizing claim for the whole network, with tables one slot larger than the children tables and
   * any number of nodes that come and go below each other: entries belong in every state if and only
   * if every disconnect is size-safe, and then no sample and no frame is ever refused.
   */
  lemma OneMoreSlotInNetwork(t: Topology, aggSlots: nat, kidSlots: nat, es: seq<NetEvent>)
    requires t.Tree() && aggSlots > kidSlots
    ensures StaysSnug(t, Quiet(t, aggSlots, kidSlots), es) <==> DetachesSafe(t, Quiet(t, aggSlots, kidSlots), es)
    ensures DetachesSafe(t, Quiet(t, aggSlots, kidSlots), es) ==> RefusesNothing(t, Quiet(t, aggSlots, kidSlots), es)
  {
    hide Inv, Snug, Topology.Tree;
    QuietSnug(t, aggSlots, kidSlots);
    SnugRun(t, Quiet(t, aggSlots, kidSlots), es);
  }

  // ---------------------------------------------------------------- nothing left and nothing lost

  lemma {:induction false} SettlingSafe(t: Topology, net: Net, es: seq<NetEvent>)
    requires t.Tree() && Inv(t, net) && SettlingRun(t, net, es)
    ensures DetachesSafe(t, net, es)
    decreases |es|
  {
    hide Inv, Enabled, Next, Topology.Tree;
    if es != [] {
      SettlingEnabled(t, net, es[0]);
      NextKeeps(t, net, es[0]);
      SettlingSafe(t, Next(t, net, es[0]), es[1..]);
    }
  }

  lemma {:induction false} SettlingLosesNothing(t: Topology, net: Net, es: seq<NetEvent>)
    requires t.Tree() && Inv(t, net) && SettlingRun(t, net, es) && RefusesNothing(t, net, es)
    ensures RunNet(t, net, es).lost == net.lost
    decreases |es|
  {
    hide Inv, Enabled, Next, Topology.Tree;
    if es != [] {
      SettlingEnabled(t, net, es[0]);
      NextKeeps(t, net, es[0]);
      SettlingLosesNothing(t, Next(t, net, es[0]), es[1..]);
    }
  }

  /**
   * With room in the tables, in either way, timers stopped and nothing lost on the air: every way of
   * coming to rest brings all data to the server, none left and none lost, if and only if every node
   * is safe.
   */
  lemma ServedIffCovered(t: Topology, net: Net)
    requires t.Tree() && Inv(t, net) && (Roomy(t, net) || Snug(t, net))
    ensures (forall es :: SettlingRun(t, net, es) && AtRest(t, RunNet(t, net, es))
                          ==> AllDelivered(t, RunNet(t, net, es)) && RunNet(t, net, es).lost == net.lost)
            <==> Covered(t, net)
  {
    hide Inv, AtRest, AllDelivered, Covered, SettlingRun, Roomy, Snug, Topology.Tree, RefusesNothing, DetachesSafe;
    DeliveredIffCovered(t, net);
    forall es | SettlingRun(t, net, es)
      ensures RunNet(t, net, es).lost == net.lost
    {
      if Roomy(t, net) {
        RoomyRun(t, net, es);
      } else {
        SettlingSafe(t, net, es);
        SnugRun(t, net, es);
      }
      SettlingLosesNothing(t, net, es);
    }
  }
}
