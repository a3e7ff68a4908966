/**
 * Runs that happen: from the quiet network to data left behind because of an advertisement under
 * way, and to any batches at the server, so also to values that are not the true mean.
 */
module MeshRuns {
  import opened Types
  import opened Samples
  import opened Aggregate
  import opened Children
  import opened Node
  import opened Mesh
  import opened MeshFlow
  import opened MeshRest
  import opened MeshCover

  lemma {:induction false} RunSnoc(t: Topology, net: Net, es: seq<NetEvent>, e: NetEvent)
    requires t.Tree() && Inv(t, net) && Enabled(t, RunNet(t, net, es), e)
    ensures RunNet(t, net, es + [e]) == Next(t, RunNet(t, net, es), e)
    decreases |es|
  {
    hide Inv, Enabled, Next, Topology.Tree;
    if es == [] {
      assert ([] + [e])[0] == e && ([] + [e])[1..] == [];
      NextKeeps(t, net, e);
      assert RunNet(t, Next(t, net, e), []) == Next(t, net, e);
    } else {
      assert (es + [e])[0] == es[0] && (es + [e])[1..] == es[1..] + [e];
      if Enabled(t, net, es[0]) {
        NextKeeps(t, net, es[0]);
        RunSnoc(t, Next(t, net, es[0]), es[1..], e);
      } else {
        RunSnoc(t, net, es[1..], e);
      }
    }
  }

  // ---------------------------------------------------------------- a child has advertised

  /** Nothing sampled yet; c is listed at its parent n and, if sent, its advertisement is under way. */
  predicate Poised(t: Topology, n: Mac, c: Mac, net: Net, sent: bool, flushed: bool) {
    && c in t.id
    && net.flight == (if sent then [Packet(c, n, Parcel(AdvMsg(t.id[c], c), []))] else [])
    && net.server == []
    && (forall q :: q in t.id ==> q in net.sites && net.sites[q].batches == map[]
                                  && (net.sites[q].node.flush <==> flushed && q == c))
    && Listed(net, n, c) && !KnowsChild(t, net, n, c)
  }

  /** The same with c flushed. */
  predicate Advertised(t: Topology, n: Mac, c: Mac, net: Net) {
    Poised(t, n, c, net, true, true)
  }

  lemma ChildOf(t: Topology, c: Mac)
    requires t.Tree() && c in t.parent
    ensures c in t.id && c != t.root && t.parent[c] in t.id && t.root in t.id && t.parent[c] != c
    ensures t.id[c] != 0 && t.id[c] in t.owner && t.owner[t.id[c]] == c
  {
  }

  lemma FirstChild(aggSlots: nat, kidSlots: nat, c: Mac)
    requires kidSlots >= 1
    ensures var kids := PushChild(Boot(aggSlots, kidSlots).kids, c).0;
            kids.InBounds() && c in kids.Macs() && forall x :: IsChild(kids, c, x) <==> x == 0
  {
    var boot := Boot(aggSlots, kidSlots).kids;
    assert boot.Macs() == [];
    var kids := PushChild(boot, c).0;
    assert kids.Macs() == [c];
  }

  lemma AttachFirst(t: Topology, n: Mac, c: Mac, aggSlots: nat, kidSlots: nat)
    requires t.Tree() && c in t.parent && t.parent[c] == n && aggSlots >= 1 && kidSlots >= 1
    ensures var net := Quiet(t, aggSlots, kidSlots);
            && Enabled(t, net, Attach(n, c))
            && n in t.id && Poised(t, n, c, AtAttach(t, net, n, c), false, false)
  {
    hide Inv, SiteOk, PushChild, IsChild, Topology.Tree;
    ChildOf(t, c);
    FirstChild(aggSlots, kidSlots, c);
  }

  lemma StartNext(t: Topology, n: Mac, c: Mac, net: Net)
    requires t.Tree() && Inv(t, net) && c in t.parent && t.parent[c] == n && Poised(t, n, c, net, false, false)
    ensures Enabled(t, net, StartService(c)) && Poised(t, n, c, AtStart(t, net, c), true, false)
  {
    hide Inv, SiteOk, IsChild, Topology.Tree;
    ChildOf(t, c);
    assert AtStart(t, net, c).flight == [Packet(c, n, Parcel(AdvMsg(t.id[c], c), []))];
  }

  lemma FlushNext(t: Topology, n: Mac, c: Mac, net: Net)
    requires t.Tree() && Inv(t, net) && c in t.parent && t.parent[c] == n && Poised(t, n, c, net, true, false)
    ensures Enabled(t, net, FlushRequest(c, n)) && Poised(t, n, c, AtFlush(t, net, c, n), true, true)
  {
    hide Inv, SiteOk, IsChild, Topology.Tree;
    ChildOf(t, c);
  }

  lemma Prepared(t: Topology, n: Mac, c: Mac, aggSlots: nat, kidSlots: nat) returns (es: seq<NetEvent>)
    requires t.Tree() && c in t.parent && t.parent[c] == n && aggSlots >= 1 && kidSlots >= 1
    ensures Advertised(t, n, c, RunNet(t, Quiet(t, aggSlots, kidSlots), es))
  {
    hide Inv, SiteOk, AtAttach, AtStart, AtFlush, Poised, Topology.Tree, Enabled, Boot;
    var e1, e2, e3 := Attach(n, c), StartService(c), FlushRequest(c, n);
    var net0 := Quiet(t, aggSlots, kidSlots);
    AttachFirst(t, n, c, aggSlots, kidSlots);
    RunOne(t, net0, e1);
    var net1 := RunNet(t, net0, [e1]);
    StartNext(t, n, c, net1);
    RunSnoc(t, net0, [e1], e2);
    var net2 := RunNet(t, net0, [e1] + [e2]);
    ChildOf(t, c);
    FlushNext(t, n, c, net2);
    RunSnoc(t, net0, [e1] + [e2], e3);
    es := ([e1] + [e2]) + [e3];
  }

  lemma RunOne(t: Topology, net: Net, e: NetEvent)
    requires t.Tree() && Inv(t, net) && Enabled(t, net, e)
    ensures RunNet(t, net, [e]) == Next(t, net, e)
  {
    hide Inv, Enabled, Next, Topology.Tree;
    NextKeeps(t, net, e);
    assert [e][1..] == [];
    assert RunNet(t, Next(t, net, e), []) == Next(t, net, e);
  }

  // ---------------------------------------------------------------- ticks that find room

  lemma NoModule(t: Topology, n: Mac, s: Site)
    requires t.Tree() && n in t.id && SiteOk(t, n, s) && s.batches == map[]
    ensures s.node.agg.size == 0
  {
    hide SiteOk, Topology.Tree;
    if s.node.agg.size > 0 {
      EntryBatches(t, n, s, 0);
    }
  }

  lemma FirstTwo(t: Topology, n: Mac, s: Site)
    requires t.Tree() && n in t.id && SiteOk(t, n, s) && s.node.agg.size > 1
    ensures s.node.agg.slots[0].id != s.node.agg.slots[1].id
  {
    assert s.node.agg.Live()[0].id != s.node.agg.Live()[1].id;
  }

  lemma Represented(t: Topology, n: Mac, s: Site, m: ModuleId)
    requires t.Tree() && n in t.id && SiteOk(t, n, s) && m in s.batches
    ensures s.node.agg.size > 0 && s.node.agg.InBounds() && Has(s.node.agg.Live(), m)
  {
  }

  lemma OneModule(t: Topology, n: Mac, s: Site, m: ModuleId)
    requires t.Tree() && n in t.id && SiteOk(t, n, s) && s.batches.Keys == {m}
    ensures s.node.agg.size == 1 && s.node.agg.slots[0].id == m && Has(s.node.agg.Live(), m)
  {
    hide SiteOk, Topology.Tree, Has;
    assert m in s.batches.Keys;
    Represented(t, n, s, m);
    EntryBatches(t, n, s, 0);
    if s.node.agg.size > 1 {
      EntryBatches(t, n, s, 1);
      FirstTwo(t, n, s);
    }
  }

  /** A module finds room in a table that holds at most that module. */
  lemma Room(t: Topology, n: Mac, s: Site, m: ModuleId, x: Sample, now: Instant)
    requires t.Tree() && n in t.id && SiteOk(t, n, s) && s.batches.Keys <= {m}
    ensures s.node.Valid() && Push(s.node.agg, m, x, now).1 >= 0
  {
    SiteValid(t, n, s);
    PushValid(s.node.agg, m, x, now);
    SlotThere(t, n, s);
    if s.batches == map[] {
      NoModule(t, n, s);
    } else {
      assert s.batches.Keys == {m};
      OneModule(t, n, s, m);
    }
    hide SiteOk, Push, Topology.Tree, State.Valid, Table.Valid;
  }

  lemma SlotThere(t: Topology, n: Mac, s: Site)
    requires t.Tree() && n in t.id && SiteOk(t, n, s)
    ensures |s.node.agg.slots| >= 1
  {
  }

  lemma TickSiteTaken(t: Topology, c: Mac, s: Site, x: Sample)
    requires t.Tree() && c in t.id && SiteOk(t, c, s) && s.batches.Keys <= {t.id[c]}
    ensures var (s', refused) := TickSite(t, c, s, x, EPOCH);
            refused == [] && s'.batches == AddBatch(s.batches, t.id[c], [x])
            && s'.node.flush == s.node.flush && s'.node.kids == s.node.kids
  {
    hide SiteOk, Topology.Tree, Push, AddBatch;
    Room(t, c, s, t.id[c], x, EPOCH);
    TickSiteOk(t, c, s, x, EPOCH);
  }

  lemma TickTaken(t: Topology, net: Net, c: Mac, x: Sample)
    requires t.Tree() && Inv(t, net) && c in t.id && c in net.sites && net.sites[c].batches.Keys <= {t.id[c]}
    ensures var net' := AtTick(t, net, c, x, EPOCH);
            && net'.flight == net.flight && net'.server == net.server
            && net'.sites == net.sites[c := net'.sites[c]]
            && net'.sites[c].batches == AddBatch(net.sites[c].batches, t.id[c], [x])
            && net'.sites[c].node.flush == net.sites[c].node.flush
            && net'.sites[c].node.kids == net.sites[c].node.kids
  {
    hide SiteOk, Inv, AddBatch, Topology.Tree, TickSite;
    SiteAt(t, net, c);
    TickSiteTaken(t, c, net.sites[c], x);
  }

  // ---------------------------------------------------------------- data left behind

  lemma StrandedState(t: Topology, n: Mac, c: Mac, net: Net, x: Sample)
    requires t.Tree() && Inv(t, net) && c in t.parent && t.parent[c] == n && Advertised(t, n, c, net)
    ensures Enabled(t, net, Tick(c, x, EPOCH))
    ensures var net' := AtTick(t, net, c, x, EPOCH);
            && NoFrames(net') && !KnowsChild(t, net', n, c) && MayKnow(t, net', n, c) && HasOwn(t, net', c)
            && n in net'.sites && !net'.sites[n].node.flush
            && c in net'.sites && net'.sites[c].node.flush
            && forall q :: q in t.id && q != c ==> q in net'.sites && net'.sites[q].batches == map[]
  {
    hide Inv, SiteOk, AtTick, IsChild, Topology.Tree;
    ChildOf(t, c);
    TickTaken(t, net, c, x);
    var net' := AtTick(t, net, c, x, EPOCH);
    assert net'.flight[0].src == c;
    assert Listed(net', n, c) && Advertises(net', n, c);
  }

  lemma Stranded(t: Topology, n: Mac, c: Mac, net: Net)
    requires t.Tree() && Inv(t, net) && c in t.parent && t.parent[c] == n && t.sendAfter > 0
    requires MayKnow(t, net, n, c) && HasOwn(t, net, c) && n in net.sites && !net.sites[n].node.flush
    requires c in net.sites && net.sites[c].node.flush
    requires forall q :: q in t.id && q != c ==> q in net.sites && net.sites[q].batches == map[]
    ensures n in t.id && !Safe(t, net, n)
    ensures forall q :: q in t.id && HasData(net, q) ==> ReadyAt(t, net, q)
  {
    hide Inv, SiteOk, MayKnow, MayClaim, HasOwn, Topology.Tree;
    ChildOf(t, c);
    forall q | q in t.id && HasData(net, q)
      ensures ReadyAt(t, net, q)
    {
      SiteAt(t, net, q);
      if q != c {
        NoModule(t, q, net.sites[q]);
      }
    }
  }

  /**
   * In every tree with a node below another, unless nodes drain at every turn: a run from the quiet
   * network to a state in which all data is due, no frame is under way and nobody would claim one,
   * and from there, by deliveries and service steps alone, to rest with data left in the mesh.
   */
  lemma StrandedRun(t: Topology, n: Mac, c: Mac, aggSlots: nat, kidSlots: nat, x: Sample)
    returns (es: seq<NetEvent>, settling: seq<NetEvent>)
    requires t.Tree() && c in t.parent && t.parent[c] == n && t.sendAfter > 0 && aggSlots >= 1 && kidSlots >= 1
    ensures var net := RunNet(t, Quiet(t, aggSlots, kidSlots), es);
            && NoFrames(net) && !KnowsChild(t, net, n, c)
            && (forall q :: q in t.id && HasData(net, q) ==> ReadyAt(t, net, q))
            && LeavesData(t, net, settling)
  {
    hide Inv, Advertised, AtTick, LeavesData, Safe, HasData, ReadyAt, NoFrames, KnowsChild, MayKnow, HasOwn, Enabled,
         Topology.Tree;
    es := Prepared(t, n, c, aggSlots, kidSlots);
    var net0 := Quiet(t, aggSlots, kidSlots);
    var net := RunNet(t, net0, es);
    var e := Tick(c, x, EPOCH);
    ChildOf(t, c);
    StrandedState(t, n, c, net, x);
    RunSnoc(t, net0, es, e);
    es := es + [e];
    Stranded(t, n, c, RunNet(t, net0, es));
    settling := UnsafeToEnd(t, RunNet(t, net0, es), n);
  }

  // ---------------------------------------------------------------- any batches reach the server

  /** One batch for each sample. */
  function Singles(b: Batch): (bs: seq<Batch>)
    ensures |bs| == |b| && forall i :: 0 <= i < |b| ==> bs[i] == [b[i]]
  {
    seq(|b|, i requires 0 <= i < |b| => [b[i]])
  }

  lemma {:induction false} FlattenSingles(b: Batch)
    ensures Flatten(Singles(b)) == b
  {
    if b != [] {
      FlattenSingles(b[..|b| - 1]);
      assert Singles(b)[..|b| - 1] == Singles(b[..|b| - 1]);
    }
  }

  function Only(m: ModuleId, bs: seq<Batch>): map<ModuleId, seq<Batch>> {
    if bs == [] then map[] else map[m := bs]
  }

  lemma OnlyMore(m: ModuleId, bs: seq<Batch>, b: Batch)
    ensures AddBatch(Only(m, bs), m, b) == Only(m, bs + [b])
  {
    assert [] + [b] == [b];
  }

  /** Node n knows its child c, both drain at every turn; n holds bs of c, and c holds b. */
  predicate Filling(t: Topology, n: Mac, c: Mac, net: Net, bs: seq<Batch>, b: Batch) {
    && c in t.id && c in net.sites && n in net.sites && c != n
    && net.flight == [] && net.server == []
    && KnowsChild(t, net, n, c) && net.sites[n].node.flush && net.sites[c].node.flush
    && net.sites[n].batches == Only(t.id[c], bs)
    && net.sites[c].batches == Only(t.id[c], Singles(b))
  }

  lemma KnownAfter(t: Topology, n: Mac, c: Mac, net: Net)
    requires t.Tree() && Inv(t, net) && c in t.parent && t.parent[c] == n && Advertised(t, n, c, net)
    ensures Enabled(t, net, Deliver(0, EPOCH))
    ensures var net' := AtDeliver(t, net, 0, EPOCH);
            && net'.flight == [] && net'.server == [] && KnowsChild(t, net', n, c)
            && c in net'.sites && n in net'.sites && net'.sites[c].node.flush
            && net'.sites[n].batches == map[] && net'.sites[c].batches == map[]
  {
    hide Inv, SiteOk, AtDeliver, SetChildId, IsChild, Listed, KnowsChild, Topology.Tree;
    ChildOf(t, c);
    AdvertisementEffect(t, net, 0, EPOCH);
    AdvertisementKnown(t, net, 0, EPOCH);
  }

  lemma FlushParent(t: Topology, n: Mac, c: Mac, net: Net)
    requires t.Tree() && Inv(t, net) && c in t.parent && t.parent[c] == n
    requires net.flight == [] && net.server == [] && KnowsChild(t, net, n, c)
    requires c in net.sites && n in net.sites && net.sites[c].node.flush
    requires net.sites[n].batches == map[] && net.sites[c].batches == map[]
    ensures Enabled(t, net, FlushRequest(n, c)) && n in t.id
    ensures Filling(t, n, c, AtFlush(t, net, n, c), [], [])
  {
    hide Inv, SiteOk, IsChild, Topology.Tree;
    ChildOf(t, c);
  }

  lemma FillingStart(t: Topology, n: Mac, c: Mac, net: Net) returns (es: seq<NetEvent>)
    requires t.Tree() && Inv(t, net) && c in t.parent && t.parent[c] == n && Advertised(t, n, c, net)
    ensures Filling(t, n, c, RunNet(t, net, es), [], [])
  {
    hide Inv, SiteOk, AtDeliver, AtFlush, KnowsChild, Filling, Advertised, Enabled, Topology.Tree;
    var e1, e2 := Deliver(0, EPOCH), FlushRequest(n, c);
    KnownAfter(t, n, c, net);
    FlightThere(t, n, c, net);
    RunOne(t, net, e1);
    FlushParent(t, n, c, RunNet(t, net, [e1]));
    RunSnoc(t, net, [e1], e2);
    es := [e1] + [e2];
  }

  lemma FlightThere(t: Topology, n: Mac, c: Mac, net: Net)
    requires Advertised(t, n, c, net)
    ensures |net.flight| == 1
  {
  }

  lemma FillOne(t: Topology, n: Mac, c: Mac, net: Net, bs: seq<Batch>, b: Batch, x: Sample)
    requires t.Tree() && Inv(t, net) && Filling(t, n, c, net, bs, b)
    ensures c in t.id && Enabled(t, net, Tick(c, x, EPOCH))
    ensures Filling(t, n, c, AtTick(t, net, c, x, EPOCH), bs, b + [x])
  {
    hide Inv, SiteOk, AtTick, IsChild, AddBatch, Topology.Tree;
    OnlyKeys(t.id[c], Singles(b));
    TickTaken(t, net, c, x);
    OnlyMore(t.id[c], Singles(b), [x]);
    assert Singles(b) + [[x]] == Singles(b + [x]);
  }

  lemma OnlyKeys(m: ModuleId, bs: seq<Batch>)
    ensures Only(m, bs).Keys <= {m}
  {
  }

  lemma {:induction false} Fill(t: Topology, n: Mac, c: Mac, net: Net, bs: seq<Batch>, b: Batch)
    returns (es: seq<NetEvent>)
    requires t.Tree() && Inv(t, net) && Filling(t, n, c, net, bs, [])
    ensures Filling(t, n, c, RunNet(t, net, es), bs, b)
    decreases |b|
  {
    hide Inv, SiteOk, AtTick, Filling, Enabled, Topology.Tree;
    if b == [] {
      es := [];
    } else {
      var k := |b| - 1;
      es := Fill(t, n, c, net, bs, b[..k]);
      var e := Tick(c, b[k], EPOCH);
      FillOne(t, n, c, RunNet(t, net, es), bs, b[..k], b[k]);
      RunSnoc(t, net, es, e);
      assert b[..k] + [b[k]] == b;
      es := es + [e];
    }
  }

  /** A flushed node that holds one module sends one frame, which stands for that module's batches. */
  lemma ServeOne(t: Topology, n: Mac, s: Site, m: ModuleId, bs: seq<Batch>)
    requires t.Tree() && n in t.id && SiteOk(t, n, s) && s.batches == Only(m, bs) && bs != [] && s.node.flush
    ensures var (s', outs) := ServeSite(t, n, s, Stopped(EPOCH));
            && s'.batches == map[] && s'.node.kids == s.node.kids && s'.node.flush
            && |outs| == 1 && outs[0].msg.SensorMsg? && outs[0].msg.id == m
            && !outs[0].ToRoot?
            && ParcelOf(outs[0].msg, s.batches) == Parcel(outs[0].msg, bs)
  {
    SiteValid(t, n, s);
    OneModule(t, n, s, m);
    ServeOuts(t, n, s, Stopped(EPOCH));
    hide SiteOk, Topology.Tree;
  }

  /** A frame of c alone is on its way to n, which holds bs of c; it stands for batch b. */
  predicate Sending(t: Topology, n: Mac, c: Mac, net: Net, bs: seq<Batch>, b: Batch) {
    && c in t.id && c in net.sites && n in net.sites && c != n
    && |net.flight| == 1 && net.server == []
    && net.flight[0].src == c && net.flight[0].dst == n
    && net.flight[0].parcel.msg.SensorMsg? && net.flight[0].parcel.msg.id == t.id[c]
    && net.flight[0].parcel.batches == Singles(b)
    && KnowsChild(t, net, n, c) && net.sites[n].node.flush && net.sites[c].node.flush
    && net.sites[n].batches == Only(t.id[c], bs) && net.sites[c].batches == map[]
  }

  /** The child sends its batch. */
  lemma SendBatch(t: Topology, n: Mac, c: Mac, net: Net, bs: seq<Batch>, b: Batch)
    requires t.Tree() && Inv(t, net) && c in t.parent && t.parent[c] == n && Filling(t, n, c, net, bs, b) && b != []
    ensures Enabled(t, net, Serve(c, Stopped(EPOCH))) && c in t.id
    ensures Sending(t, n, c, AtServe(t, net, c, Stopped(EPOCH)), bs, b)
  {
    hide Inv, SiteOk, ServeSite, Only, IsChild, Topology.Tree, ParcelOf;
    ChildOf(t, c);
    SiteAt(t, net, c);
    ServeOne(t, c, net.sites[c], t.id[c], Singles(b));
  }

  lemma SendingClaimed(t: Topology, n: Mac, c: Mac, net: Net, bs: seq<Batch>, b: Batch)
    requires t.Tree() && Inv(t, net) && Sending(t, n, c, net, bs, b)
    ensures Claimed(t, net, 0) && AtDeliver(t, net, 0, EPOCH).lost == net.lost
  {
    hide Inv, SiteOk, AtDeliver, KnowsChild, Claimed, Topology.Tree;
    assert MayClaim(t, net, net.flight[0]);
    KnownIsClaimed(t, net, 0);
    OnlyKeys(t.id[c], bs);
    Unrefused(t, net, 0, EPOCH);
  }

  /** The frame arrives and becomes one more batch at n. */
  lemma ArriveBatch(t: Topology, n: Mac, c: Mac, net: Net, bs: seq<Batch>, b: Batch)
    requires t.Tree() && Inv(t, net) && Sending(t, n, c, net, bs, b)
    ensures |net.flight| > 0 && Filling(t, n, c, AtDeliver(t, net, 0, EPOCH), bs + [b], [])
  {
    hide Inv, SiteOk, AtDeliver, Only, AddBatch, Flatten, Claimed, IsChild, Singles, Topology.Tree;
    SendingClaimed(t, n, c, net, bs, b);
    ClaimedTakenIn(t, net, 0, EPOCH);
    FlattenSingles(b);
    OnlyMore(t.id[c], bs, b);
    OnlyNone(t.id[c]);
    assert Remove(net.flight, 0) == [];
  }

  lemma OnlyNone(m: ModuleId)
    ensures Only(m, Singles([])) == map[]
  {
  }

  /** A claimed frame of the one module a table holds is not refused. */
  lemma Unrefused(t: Topology, net: Net, k: nat, now: Instant)
    requires t.Tree() && Inv(t, net) && k < |net.flight| && net.flight[k].parcel.msg.SensorMsg? && Claimed(t, net, k)
    requires net.flight[k].dst in net.sites
    requires net.sites[net.flight[k].dst].batches.Keys <= {net.flight[k].parcel.msg.id}
    ensures AtDeliver(t, net, k, now).lost == net.lost
  {
    hide SiteOk, ParcelOk, Inv;
    var p := net.flight[k];
    PacketIsOk(t, net, k);
    DestinationOk(t, net, k);
    var s := net.sites[p.dst];
    Room(t, p.dst, s, p.parcel.msg.id, p.parcel.msg.values, now);
    PacketMoves(t, p);
    hide Topology.Tree, PacketOk, Push;
    assert ReceiveSite(t, s, p, now).2 == [];
  }

  lemma Deliverable(t: Topology, n: Mac, c: Mac, net: Net, bs: seq<Batch>, b: Batch) returns (es: seq<NetEvent>)
    requires t.Tree() && Inv(t, net) && c in t.parent && t.parent[c] == n && Filling(t, n, c, net, bs, []) && b != []
    ensures Filling(t, n, c, RunNet(t, net, es), bs + [b], [])
  {
    hide Inv, SiteOk, AtServe, AtDeliver, Filling, Sending, Topology.Tree;
    es := Fill(t, n, c, net, bs, b);
    var e1, e2 := Serve(c, Stopped(EPOCH)), Deliver(0, EPOCH);
    SendBatch(t, n, c, RunNet(t, net, es), bs, b);
    RunSnoc(t, net, es, e1);
    ArriveBatch(t, n, c, RunNet(t, net, es + [e1]), bs, b);
    RunSnoc(t, net, es + [e1], e2);
    es := (es + [e1]) + [e2];
  }

  lemma {:induction false} Collect(t: Topology, n: Mac, c: Mac, net: Net, bs: seq<Batch>) returns (es: seq<NetEvent>)
    requires t.Tree() && Inv(t, net) && c in t.parent && t.parent[c] == n && Filling(t, n, c, net, [], [])
    requires NonEmpty(bs)
    ensures Filling(t, n, c, RunNet(t, net, es), bs, [])
    decreases |bs|
  {
    hide Inv, SiteOk, Filling, Topology.Tree, Enabled, Next;
    if bs == [] {
      es := [];
    } else {
      var k := |bs| - 1;
      es := Collect(t, n, c, net, bs[..k]);
      var more := Deliverable(t, n, c, RunNet(t, net, es), bs[..k], bs[k]);
      RunConcat(t, net, es, more);
      assert bs[..k] + [bs[k]] == bs;
      es := es + more;
    }
  }

  lemma {:induction false} RunConcat(t: Topology, net: Net, a: seq<NetEvent>, b: seq<NetEvent>)
    requires t.Tree() && Inv(t, net)
    ensures RunNet(t, net, a + b) == RunNet(t, RunNet(t, net, a), b)
    decreases |a|
  {
    hide Inv, Enabled, Next, Topology.Tree;
    if a == [] {
      assert [] + b == b;
    } else {
      assert (a + b)[0] == a[0] && (a + b)[1..] == a[1..] + b;
      if Enabled(t, net, a[0]) {
        NextKeeps(t, net, a[0]);
        RunConcat(t, Next(t, net, a[0]), a[1..], b);
      } else {
        RunConcat(t, net, a[1..], b);
      }
    }
  }

  /** Batches bs of c, and nothing else, are at the server, or in a frame on its way there beyond c's parent. */
  predicate Leaving(t: Topology, c: Mac, net: Net, bs: seq<Batch>) {
    && c in t.id
    && if net.flight == [] then
         |net.server| == 1 && net.server[0].msg.id == t.id[c] && net.server[0].batches == bs
       else
         && |net.flight| == 1 && net.server == [] && net.flight[0].src != c
         && net.flight[0].parcel.msg.SensorMsg? && net.flight[0].parcel.msg.id == t.id[c]
         && net.flight[0].parcel.batches == bs
  }

  lemma ParentSends(t: Topology, n: Mac, c: Mac, net: Net, bs: seq<Batch>)
    requires t.Tree() && Inv(t, net) && c in t.parent && t.parent[c] == n && Filling(t, n, c, net, bs, []) && bs != []
    ensures n in t.id && Enabled(t, net, Serve(n, Stopped(EPOCH)))
    ensures Leaving(t, c, AtServe(t, net, n, Stopped(EPOCH)), bs)
  {
    hide Inv, SiteOk, ServeSite, Only, ParcelOf, IsChild;
    ChildOf(t, c);
    SiteAt(t, net, n);
    ServeOne(t, n, net.sites[n], t.id[c], bs);
  }

  /** Beyond its parent nobody claims a module's frame: one hop on, or delivered. */
  lemma OneHopOn(t: Topology, c: Mac, net: Net, bs: seq<Batch>)
    requires t.Tree() && Inv(t, net) && Leaving(t, c, net, bs) && net.flight != []
    ensures Enabled(t, net, Deliver(0, EPOCH))
    ensures var net' := AtDeliver(t, net, 0, EPOCH);
            && Leaving(t, c, net', bs)
            && (if net.flight[0].dst == t.root then net'.flight == []
                else net'.flight != [] && net'.flight[0].dst == t.root)
  {
    hide Inv, AtDeliver, Claimed, TakenIn;
    SingleHop(t, net, 0, EPOCH);
    PacketIsOk(t, net, 0);
    ForwardedNotOwn(t, net.flight[0]);
    assert Remove(net.flight, 0) == [];
    hide Topology.Tree;
  }

  lemma ToServer(t: Topology, c: Mac, net: Net, bs: seq<Batch>) returns (es: seq<NetEvent>)
    requires t.Tree() && Inv(t, net) && Leaving(t, c, net, bs)
    ensures RunNet(t, net, es).flight == [] && Leaving(t, c, RunNet(t, net, es), bs)
  {
    hide Inv, AtDeliver, Enabled, Leaving, Topology.Tree;
    es := [];
    if net.flight != [] {
      var e := Deliver(0, EPOCH);
      OneHopOn(t, c, net, bs);
      RunOne(t, net, e);
      es := [e];
      if net.flight[0].dst != t.root {
        OneHopOn(t, c, RunNet(t, net, es), bs);
        RunSnoc(t, net, es, e);
        es := es + [e];
      }
    }
  }

  /** Any batches of any module below the root reach the server in some run from the quiet network. */
  lemma BatchesReachServer(t: Topology, c: Mac, aggSlots: nat, kidSlots: nat, bs: seq<Batch>)
    returns (es: seq<NetEvent>)
    requires t.Tree() && c in t.parent && aggSlots >= 1 && kidSlots >= 1
    requires bs != [] && NonEmpty(bs)
    ensures var net := RunNet(t, Quiet(t, aggSlots, kidSlots), es);
            |net.server| == 1 && net.server[0].msg.id == t.id[c] && net.server[0].batches == bs
  {
    hide Inv, SiteOk, Advertised, Filling, AtServe, Topology.Tree, Enabled, Blank;
    var net0, n := Quiet(t, aggSlots, kidSlots), t.parent[c];
    ChildOf(t, c);
    var e1 := Prepared(t, n, c, aggSlots, kidSlots);
    var net1 := RunNet(t, net0, e1);
    var e2 := FillingStart(t, n, c, net1);
    RunConcat(t, net0, e1, e2);
    var e3 := Collect(t, n, c, RunNet(t, net1, e2), bs);
    RunConcat(t, net0, e1 + e2, e3);
    ParentSends(t, n, c, RunNet(t, net0, (e1 + e2) + e3), bs);
    RunSnoc(t, net0, (e1 + e2) + e3, Serve(n, Stopped(EPOCH)));
    var e4 := ((e1 + e2) + e3) + [Serve(n, Stopped(EPOCH))];
    var e5 := ToServer(t, c, RunNet(t, net0, e4), bs);
    RunConcat(t, net0, e4, e5);
    es := e4 + e5;
  }

  /** What the server gets for module m in some run: the parcel stands for batches of sizes ns. */
  ghost predicate Arrives(t: Topology, aggSlots: nat, kidSlots: nat, m: ModuleId, ns: seq<nat>, p: Parcel)
    requires t.Tree() && aggSlots >= 1
  {
    && p.msg.SensorMsg? && p.msg.id == m && Sizes(p.batches) == ns
    && exists es :: p in RunNet(t, Quiet(t, aggSlots, kidSlots), es).server
  }

  /** The channel's value is the mean of all the samples the parcel stands for. */
  predicate TellsMean(p: Parcel, c: nat)
    requires c < CHANNELS && p.msg.SensorMsg?
  {
    Flatten(p.batches) != [] && p.msg.values[c] == Mean(Flatten(p.batches), c)
  }

  /**
   * For a module below the root and given batch sizes: in all runs the server is told the true mean
   * if and only if the sizes are equal. Frames carry no counts, so the server cannot make up for it.
   */
  lemma ServerTrueMeanIffEven(t: Topology, n: Mac, aggSlots: nat, kidSlots: nat, ns: seq<nat>, c: nat)
    requires t.Tree() && n in t.parent && aggSlots >= 1 && kidSlots >= 1 && c < CHANNELS
    requires ns != [] && forall i :: 0 <= i < |ns| ==> ns[i] > 0
    ensures (forall p :: Arrives(t, aggSlots, kidSlots, t.id[n], ns, p) ==> TellsMean(p, c)) <==> AllEqual(ns)
  {
    hide Inv, Mean, MeanOfMeans, Flatten;
    if AllEqual(ns) {
      forall p | Arrives(t, aggSlots, kidSlots, t.id[n], ns, p)
        ensures TellsMean(p, c)
      {
        var es :| p in RunNet(t, Quiet(t, aggSlots, kidSlots), es).server;
        ServerTellsMeanOfMeans(t, RunNet(t, Quiet(t, aggSlots, kidSlots), es), p, c);
        TrueMeanIffEven(ns, c);
        assert TrueMean(p.batches, c);
      }
    } else {
      var bs := UnevenSpike(ns, c);
      var es := BatchesReachServer(t, n, aggSlots, kidSlots, bs);
      var net := RunNet(t, Quiet(t, aggSlots, kidSlots), es);
      var p := net.server[0];
      ServerTellsMeanOfMeans(t, net, p, c);
      assert Arrives(t, aggSlots, kidSlots, t.id[n], ns, p);
    }
  }

  lemma ServerTellsMeanOfMeans(t: Topology, net: Net, p: Parcel, c: nat)
    requires t.Tree() && Inv(t, net) && p in net.server && c < CHANNELS
    ensures p.msg.SensorMsg? && p.batches != [] && NonEmpty(p.batches) && p.msg.values[c] == MeanOfMeans(p.batches, c)
  {
    var k :| 0 <= k < |net.server| && net.server[k] == p;
    ServerParcelOk(t, net, k);
    hide Inv;
  }
}
