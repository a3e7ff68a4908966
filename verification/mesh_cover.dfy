/**
 * When all data reaches the server once the timers have stopped: exactly when no node can be
 * left with data it will not drain, now or after the advertisements under way have arrived.
 */
module MeshCover {
  import opened Types
  import opened Samples
  import opened Aggregate
  import opened Children
  import opened Node
  import opened Mesh
  import opened MeshFlow
  import opened MeshRest

  // ---------------------------------------------------------------- settling runs

  predicate SettlingRun(t: Topology, net: Net, es: seq<NetEvent>)
    requires t.Tree() && Inv(t, net)
    decreases |es|
  {
    es == [] ||
    (Settling(t, net, es[0])
     && (SettlingEnabled(t, net, es[0]);
         NextKeeps(t, net, es[0]);
         SettlingRun(t, Next(t, net, es[0]), es[1..])))
  }

  /** How many steps of a run move data. */
  function Moving(t: Topology, net: Net, es: seq<NetEvent>): nat
    requires t.Tree() && Inv(t, net)
    decreases |es|
  {
    if es == [] || !Enabled(t, net, es[0]) then 0
    else
      NextKeeps(t, net, es[0]);
      (if Moves(t, net, es[0]) then 1 else 0) + Moving(t, Next(t, net, es[0]), es[1..])
  }

  /** With the timers stopped there are at most as many data-moving steps as the potential allows. */
  lemma {:induction false} WorkIsBounded(t: Topology, net: Net, es: seq<NetEvent>)
    requires t.Tree() && Inv(t, net) && SettlingRun(t, net, es)
    ensures Moving(t, net, es) + Weight(t, RunNet(t, net, es)) <= Weight(t, net)
    decreases |es|
  {
    hide Inv, Weight, Moves, Settling, Enabled;
    if es != [] {
      NextWeight(t, net, es[0]);
      WorkIsBounded(t, Next(t, net, es[0]), es[1..]);
    }
  }

  /** No SENSOR frame is under way. */
  predicate NoFrames(net: Net) {
    forall k :: 0 <= k < |net.flight| ==> !net.flight[k].parcel.msg.SensorMsg?
  }

  /** Nothing is left to do: nothing under way and no ready node with data. */
  predicate AtRest(t: Topology, net: Net) {
    net.flight == [] && forall n :: n in t.id && ReadyAt(t, net, n) ==> !HasData(net, n)
  }

  /** No data is left in the mesh. */
  predicate AllDelivered(t: Topology, net: Net) {
    NoFrames(net) && forall n :: n in t.id ==> !HasData(net, n)
  }

  lemma ConsRun(t: Topology, net: Net, e: NetEvent, es: seq<NetEvent>)
    requires t.Tree() && Inv(t, net) && Settling(t, net, e) && Enabled(t, net, e) && Inv(t, Next(t, net, e))
    requires SettlingRun(t, Next(t, net, e), es)
    ensures SettlingRun(t, net, [e] + es)
    ensures RunNet(t, net, [e] + es) == RunNet(t, Next(t, net, e), es)
  {
    hide Inv, Settling, Enabled;
    assert ([e] + es)[0] == e && ([e] + es)[1..] == es;
  }

  /** Every network comes to rest by delivering packets and serving nodes. */
  lemma {:induction false} ComesToRest(t: Topology, net: Net) returns (es: seq<NetEvent>)
    requires t.Tree() && Inv(t, net)
    ensures SettlingRun(t, net, es) && AtRest(t, RunNet(t, net, es))
    decreases Weight(t, net)
  {
    hide Inv, Weight, ReadyAt, HasData;
    if AtRest(t, net) {
      es := [];
    } else {
      var e: NetEvent;
      if net.flight != [] {
        e := Deliver(0, EPOCH);
      } else {
        var n :| n in t.id && ReadyAt(t, net, n) && HasData(net, n);
        e := Serve(n, Stopped(EPOCH));
      }
      NextWeight(t, net, e);
      var rest := ComesToRest(t, Next(t, net, e));
      ConsRun(t, net, e, rest);
      es := [e] + rest;
    }
  }

  // ---------------------------------------------------------------- what must hold

  /** A node that will drain again however often it has drained. */
  predicate AlwaysReady(t: Topology, net: Net, n: Mac) {
    n in net.sites && (t.sendAfter == 0 || net.sites[n].node.flush)
  }

  predicate HasOwn(t: Topology, net: Net, c: Mac) {
    c in t.id && c in net.sites && t.id[c] in net.sites[c].batches
  }

  predicate KnowsChild(t: Topology, net: Net, n: Mac, c: Mac) {
    c in t.id && n in net.sites && net.sites[n].node.kids.InBounds() && IsChild(net.sites[n].node.kids, c, t.id[c])
  }

  /** An advertisement of c is on its way to n. */
  predicate Advertises(net: Net, n: Mac, c: Mac) {
    exists k :: 0 <= k < |net.flight| && net.flight[k].src == c && net.flight[k].dst == n
                && net.flight[k].parcel.msg.AdvMsg?
  }

  predicate Listed(net: Net, n: Mac, c: Mac) {
    n in net.sites && net.sites[n].node.kids.InBounds() && c in net.sites[n].node.kids.Macs()
  }

  /** Node n knows its child c, or will once an advertisement under way has arrived. */
  predicate MayKnow(t: Topology, net: Net, n: Mac, c: Mac) {
    KnowsChild(t, net, n, c) || (c in t.id && Listed(net, n, c) && Advertises(net, n, c))
  }

  /** The receiver of p claims it now, or will after an advertisement under way. */
  predicate MayClaim(t: Topology, net: Net, p: Packet) {
    p.parcel.msg.SensorMsg? && p.src in t.id && p.parcel.msg.id == t.id[p.src] && MayKnow(t, net, p.dst, p.src)
  }

  /** Data now at n, or still to be folded there, cannot be left behind. */
  predicate Safe(t: Topology, net: Net, n: Mac) {
    AlwaysReady(t, net, n)
    || (&& (HasData(net, n) ==> ReadyAt(t, net, n))
        && (forall k :: 0 <= k < |net.flight| && net.flight[k].dst == n ==> !MayClaim(t, net, net.flight[k]))
        && (forall c :: c in t.parent && t.parent[c] == n && HasOwn(t, net, c) ==> !MayKnow(t, net, n, c)))
  }

  predicate Covered(t: Topology, net: Net) {
    forall n :: n in t.id ==> Safe(t, net, n)
  }

  // ---------------------------------------------------------------- effects of settling steps

  lemma SensorOrAdvertisement(t: Topology, net: Net, k: nat)
    requires t.Tree() && Inv(t, net) && k < |net.flight|
    ensures net.flight[k].parcel.msg.SensorMsg? || net.flight[k].parcel.msg.AdvMsg?
  {
    PacketIsOk(t, net, k);
  }

  lemma ClaimedMayClaim(t: Topology, net: Net, k: nat)
    requires t.Tree() && Inv(t, net) && k < |net.flight| && Claimed(t, net, k)
    ensures MayClaim(t, net, net.flight[k])
  {
    hide SiteOk, ParcelOk, Inv;
    PacketIsOk(t, net, k);
    DestinationOk(t, net, k);
    ClaimedIsChilds(t, net.sites[net.flight[k].dst], net.flight[k]);
  }

  lemma KnownIsClaimed(t: Topology, net: Net, k: nat)
    requires t.Tree() && Inv(t, net) && k < |net.flight| && MayClaim(t, net, net.flight[k])
    requires KnowsChild(t, net, net.flight[k].dst, net.flight[k].src)
    ensures Claimed(t, net, k)
  {
    hide SiteOk, ParcelOk, Inv, PacketOk;
    DestinationOk(t, net, k);
    SiteValid(t, net.flight[k].dst, net.sites[net.flight[k].dst]);
  }

  /** A forwarded frame is not the forwarder's own. */
  lemma ForwardedNotOwn(t: Topology, p: Packet)
    requires t.Tree() && PacketOk(t, p) && p.parcel.msg.SensorMsg?
    ensures p.dst in t.id && t.id[p.dst] != p.parcel.msg.id
  {
    var o := t.owner[p.parcel.msg.id];
    NoCycle(t, o);
    if t.parent[o] in t.parent {
      NoCycle(t, t.parent[o]);
      RootBelow(t, o);
    }
  }

  /** What every settling step keeps: who is listed, who flushes; nobody becomes known unexpectedly. */
  ghost predicate Steady(t: Topology, net: Net, net': Net) {
    && net'.sites.Keys == net.sites.Keys
    && (forall n :: n in net.sites ==> net'.sites[n].node.flush == net.sites[n].node.flush)
    && (forall n, c :: MayKnow(t, net', n, c) ==> MayKnow(t, net, n, c))
  }

  /** Without new advertisements and with the same children tables nobody becomes known. */
  lemma SameKidsSteady(t: Topology, net: Net, net': Net)
    requires net'.sites.Keys == net.sites.Keys
    requires forall n :: n in net.sites ==> net'.sites[n].node.flush == net.sites[n].node.flush
    requires forall n :: n in net.sites ==> net'.sites[n].node.kids == net.sites[n].node.kids
    requires forall k :: 0 <= k < |net'.flight| && net'.flight[k].parcel.msg.AdvMsg? ==> net'.flight[k] in net.flight
    ensures Steady(t, net, net')
  {
    forall n, c | MayKnow(t, net', n, c)
      ensures MayKnow(t, net, n, c)
    {
      if !KnowsChild(t, net', n, c) {
        var k :| 0 <= k < |net'.flight| && net'.flight[k].src == c && net'.flight[k].dst == n
                 && net'.flight[k].parcel.msg.AdvMsg?;
        assert net'.flight[k] in net.flight;
      }
    }
  }

  lemma RemoveParts<T>(s: seq<T>, k: nat)
    requires k < |s|
    ensures forall i :: 0 <= i < |Remove(s, k)| ==> Remove(s, k)[i] in s
  {
    assert forall i :: 0 <= i < |Remove(s, k)| ==> Remove(s, k)[i] == s[if i < k then i else i + 1];
  }

  /** A delivered frame takes no data away, and adds some only where it is claimed. */
  lemma FrameEffect(t: Topology, net: Net, k: nat, now: Instant)
    requires t.Tree() && Inv(t, net) && k < |net.flight| && net.flight[k].parcel.msg.SensorMsg?
    ensures var net' := AtDeliver(t, net, k, now);
            var d := net.flight[k].dst;
            && d in t.id && d in net.sites && net'.sites.Keys == net.sites.Keys
            && (forall n :: n in net.sites && n != d ==> net'.sites[n] == net.sites[n])
            && net'.sites[d].node == net.sites[d].node.(agg := net'.sites[d].node.agg)
            && (HasData(net, d) ==> HasData(net', d))
            && (HasOwn(t, net', d) <==> HasOwn(t, net, d))
            && (if Claimed(t, net, k) then HasData(net', d) && net'.flight == Remove(net.flight, k)
                else net'.sites == net.sites
                     && (net'.flight == Remove(net.flight, k)
                         || net'.flight == Remove(net.flight, k) + [Packet(d, t.root, net.flight[k].parcel)]))
  {
    hide SiteOk, PacketOk, ParcelOk, Inv, Topology.Tree, IsClaimed, AtDeliver, Claimed;
    var p := net.flight[k];
    PacketIsOk(t, net, k);
    DestinationOk(t, net, k);
    ForwardedNotOwn(t, p);
    SingleHop(t, net, k, now);
    if Claimed(t, net, k) {
      ClaimedTakenIn(t, net, k, now);
    }
  }

  lemma FrameSteady(t: Topology, net: Net, k: nat, now: Instant)
    requires t.Tree() && Inv(t, net) && k < |net.flight| && net.flight[k].parcel.msg.SensorMsg?
    ensures Steady(t, net, AtDeliver(t, net, k, now))
  {
    hide Inv, AtDeliver, Claimed, HasData, HasOwn, Topology.Tree, Steady, Remove;
    FrameEffect(t, net, k, now);
    RemoveParts(net.flight, k);
    SameKidsSteady(t, net, AtDeliver(t, net, k, now));
  }

  /** A delivered advertisement makes its sender known where it is listed. */
  lemma AdvertisementKnown(t: Topology, net: Net, k: nat, now: Instant)
    requires t.Tree() && Inv(t, net) && k < |net.flight| && net.flight[k].parcel.msg.AdvMsg?
    ensures var p := net.flight[k];
            var net' := AtDeliver(t, net, k, now);
            && (forall n, c :: KnowsChild(t, net', n, c)
                  <==> if n == p.dst && c == p.src then Listed(net, n, c) else KnowsChild(t, net, n, c))
            && (forall n, c :: Listed(net', n, c) <==> Listed(net, n, c))
  {
    hide Inv, AtDeliver, SetChildId, IsChild, Topology.Tree;
    AdvertisementEffect(t, net, k, now);
    var p := net.flight[k];
    SetChildIdKeeps(net.sites[p.dst].node.kids, p.src, t.id[p.src]);
    ListedIfChild(net.sites[p.dst].node.kids);
  }

  lemma ListedIfChild(kids: Kids)
    requires kids.Valid()
    ensures forall c, x :: IsChild(kids, c, x) ==> c in kids.Macs()
  {
  }

  lemma AdvertisementSteady(t: Topology, net: Net, k: nat, now: Instant)
    requires t.Tree() && Inv(t, net) && k < |net.flight| && net.flight[k].parcel.msg.AdvMsg?
    ensures Steady(t, net, AtDeliver(t, net, k, now))
  {
    hide Inv, AtDeliver, KnowsChild, Listed, Topology.Tree, SetChildId;
    AdvertisementEffect(t, net, k, now);
    AdvertisementKnown(t, net, k, now);
    var net' := AtDeliver(t, net, k, now);
    forall n, c | MayKnow(t, net', n, c)
      ensures MayKnow(t, net, n, c)
    {
      if !KnowsChild(t, net', n, c) {
        var i :| 0 <= i < |net'.flight| && net'.flight[i].src == c && net'.flight[i].dst == n
                 && net'.flight[i].parcel.msg.AdvMsg?;
        assert net'.flight[i] == net.flight[if i < k then i else i + 1];
      }
    }
  }

  lemma ServeEffect(t: Topology, net: Net, n: Mac, clock: Clock)
    requires t.Tree() && Inv(t, net) && n in t.id && n in net.sites
    ensures var net' := AtServe(t, net, n, clock);
            && net'.sites.Keys == net.sites.Keys
            && (forall q :: q in net.sites && q != n ==> net'.sites[q] == net.sites[q])
            && net'.sites[n].node.kids == net.sites[n].node.kids
            && net'.sites[n].node.flush == net.sites[n].node.flush
            && net.flight <= net'.flight
            && (if ReadyAt(t, net, n) then
                  !HasData(net', n) && !HasOwn(t, net', n) && net'.sites[n].node.ticks == 0
                else net'.sites == net.sites && net'.flight == net.flight)
  {
    hide SiteOk, PacketOk, ParcelOk, Inv;
    SiteAt(t, net, n);
    if !ReadyAt(t, net, n) {
      var s := net.sites[n];
      assert ServeSite(t, n, s, clock) == (s, []);
      assert net.sites[n := s] == net.sites;
      assert n != t.root ==> Packets(t, n, [], s.batches) == [];
    }
  }

  /** The packets of a drain: frames of modules the node held, one hop towards the root. */
  lemma ServeNew(t: Topology, net: Net, n: Mac, clock: Clock, i: nat)
    requires t.Tree() && Inv(t, net) && n in t.id && n in net.sites
    requires |net.flight| <= i < |AtServe(t, net, n, clock).flight|
    ensures var q := AtServe(t, net, n, clock).flight[i];
            && q.src == n && n in t.parent && q.dst == t.parent[n]
            && q.parcel.msg.SensorMsg? && q.parcel.msg.id in net.sites[n].batches
  {
    hide Inv, SiteOk, PacketOk, ParcelOk, ServeSite;
    SiteAt(t, net, n);
    var s := net.sites[n];
    SiteValid(t, n, s);
    ServeOuts(t, n, s, clock);
    if n in t.parent {
      var j := i - |net.flight|;
      EntryBatches(t, n, s, s.node.agg.size - 1 - j);
    }
  }

  lemma EntryBatches(t: Topology, n: Mac, s: Site, i: nat)
    requires t.Tree() && n in t.id && SiteOk(t, n, s) && i < s.node.agg.size
    ensures s.node.agg.slots[i].id in s.batches
  {
  }

  lemma ServeSteady(t: Topology, net: Net, n: Mac, clock: Clock)
    requires t.Tree() && Inv(t, net) && n in t.id && n in net.sites
    ensures Steady(t, net, AtServe(t, net, n, clock))
  {
    hide Inv, AtServe, HasData, HasOwn, ReadyAt, Topology.Tree;
    ServeEffect(t, net, n, clock);
    var net' := AtServe(t, net, n, clock);
    forall k | 0 <= k < |net'.flight| && net'.flight[k].parcel.msg.AdvMsg?
      ensures net'.flight[k] in net.flight
    {
      if k >= |net.flight| {
        ServeNew(t, net, n, clock, k);
      }
    }
    SameKidsSteady(t, net, net');
  }

  // ---------------------------------------------------------------- covered is enough

  /** How a node stays safe: what it holds, what comes in and what its children hold is no worse. */
  lemma SafeKept(t: Topology, net: Net, net': Net, n: Mac)
    requires Safe(t, net, n) && n in net.sites && Steady(t, net, net')
    requires HasData(net', n) ==> AlwaysReady(t, net, n) || ReadyAt(t, net', n)
    requires AlwaysReady(t, net, n)
             || forall k :: 0 <= k < |net'.flight| && net'.flight[k].dst == n ==>
                  net'.flight[k] in net.flight || !MayClaim(t, net, net'.flight[k])
    requires forall c :: c in t.parent && t.parent[c] == n && HasOwn(t, net', c) ==> HasOwn(t, net, c)
    ensures Safe(t, net', n)
  {
    hide HasData, HasOwn, MayKnow, ReadyAt;
    if !AlwaysReady(t, net, n) {
      forall k | 0 <= k < |net'.flight| && net'.flight[k].dst == n
        ensures !MayClaim(t, net', net'.flight[k])
      {
        if net'.flight[k] in net.flight {
          var j :| 0 <= j < |net.flight| && net.flight[j] == net'.flight[k];
        }
      }
    }
  }

  /** A frame delivered to a safe node that may stop draining is not claimed there. */
  lemma SafeUntouched(t: Topology, net: Net, k: nat, now: Instant, n: Mac)
    requires t.Tree() && Inv(t, net) && k < |net.flight| && net.flight[k].parcel.msg.SensorMsg?
    requires n in t.id && n in net.sites && Safe(t, net, n) && !AlwaysReady(t, net, n)
    ensures n in AtDeliver(t, net, k, now).sites && AtDeliver(t, net, k, now).sites[n] == net.sites[n]
  {
    hide Inv, AtDeliver, HasOwn, HasData, MayKnow, MayClaim, ReadyAt, Claimed, Topology.Tree;
    FrameEffect(t, net, k, now);
    if net.flight[k].dst == n && Claimed(t, net, k) {
      ClaimedMayClaim(t, net, k);
    }
  }

  /** Nothing that a frame's delivery puts under way may be claimed. */
  lemma FrameClaims(t: Topology, net: Net, k: nat, now: Instant)
    requires t.Tree() && Inv(t, net) && k < |net.flight| && net.flight[k].parcel.msg.SensorMsg?
    ensures var net' := AtDeliver(t, net, k, now);
            forall i :: 0 <= i < |net'.flight| ==> net'.flight[i] in net.flight || !MayClaim(t, net, net'.flight[i])
  {
    hide Inv, AtDeliver, HasOwn, HasData, MayKnow, ReadyAt, Claimed, Topology.Tree, Remove, PacketOk;
    FrameEffect(t, net, k, now);
    RemoveParts(net.flight, k);
    PacketIsOk(t, net, k);
    ForwardedNotOwn(t, net.flight[k]);
  }

  lemma SafeAfterFrame(t: Topology, net: Net, k: nat, now: Instant, n: Mac)
    requires t.Tree() && Inv(t, net) && k < |net.flight| && net.flight[k].parcel.msg.SensorMsg?
    requires n in t.id && Safe(t, net, n)
    ensures Safe(t, AtDeliver(t, net, k, now), n)
  {
    hide Inv, SiteOk, AtDeliver, Topology.Tree, MayClaim, Steady, Claimed, Remove, Safe;
    SiteAt(t, net, n);
    FrameEffect(t, net, k, now);
    FrameSteady(t, net, k, now);
    FrameClaims(t, net, k, now);
    if !AlwaysReady(t, net, n) {
      SafeUntouched(t, net, k, now, n);
      if HasData(net, n) {
        SafeReady(t, net, n);
      }
    }
    SafeKept(t, net, AtDeliver(t, net, k, now), n);
  }

  lemma SafeReady(t: Topology, net: Net, n: Mac)
    requires Safe(t, net, n) && !AlwaysReady(t, net, n) && HasData(net, n)
    ensures ReadyAt(t, net, n)
  {
  }

  lemma SafeAfterAdvertisement(t: Topology, net: Net, k: nat, now: Instant, n: Mac)
    requires t.Tree() && Inv(t, net) && k < |net.flight| && net.flight[k].parcel.msg.AdvMsg?
    requires n in t.id && Safe(t, net, n)
    ensures Safe(t, AtDeliver(t, net, k, now), n)
  {
    hide Inv, SiteOk, AtDeliver, Topology.Tree, MayClaim, Steady, SetChildId, Remove, Safe;
    SiteAt(t, net, n);
    AdvertisementEffect(t, net, k, now);
    AdvertisementSteady(t, net, k, now);
    RemoveParts(net.flight, k);
    if !AlwaysReady(t, net, n) && HasData(net, n) {
      SafeReady(t, net, n);
    }
    SafeKept(t, net, AtDeliver(t, net, k, now), n);
  }

  /** A drain sends a safe node nothing that it may claim. */
  lemma ServeClaims(t: Topology, net: Net, q: Mac, clock: Clock, n: Mac, k: nat)
    requires t.Tree() && Inv(t, net) && q in t.id && q in net.sites && n in t.id && Safe(t, net, n)
    requires !AlwaysReady(t, net, n)
    requires |net.flight| <= k < |AtServe(t, net, q, clock).flight| && AtServe(t, net, q, clock).flight[k].dst == n
    ensures !MayClaim(t, net, AtServe(t, net, q, clock).flight[k])
  {
    hide Inv, AtServe, MayKnow, HasData, ReadyAt, Topology.Tree;
    ServeNew(t, net, q, clock, k);
  }

  lemma SafeAfterServe(t: Topology, net: Net, q: Mac, clock: Clock, n: Mac)
    requires t.Tree() && Inv(t, net) && q in t.id && q in net.sites && n in t.id && Safe(t, net, n)
    ensures Safe(t, AtServe(t, net, q, clock), n)
  {
    hide Inv, SiteOk, AtServe, MayClaim, Steady, Safe, Topology.Tree;
    var net' := AtServe(t, net, q, clock);
    SiteAt(t, net, n);
    ServeEffect(t, net, q, clock);
    ServeSteady(t, net, q, clock);
    if !AlwaysReady(t, net, n) {
      forall k | 0 <= k < |net'.flight| && net'.flight[k].dst == n
        ensures net'.flight[k] in net.flight || !MayClaim(t, net, net'.flight[k])
      {
        if k < |net.flight| {
          assert net'.flight[k] == net.flight[k];
        } else {
          ServeClaims(t, net, q, clock, n, k);
        }
      }
      if HasData(net, n) {
        SafeReady(t, net, n);
      }
    }
    SafeKept(t, net, net', n);
  }

  lemma SafeAfterDeliver(t: Topology, net: Net, k: nat, now: Instant, n: Mac)
    requires t.Tree() && Inv(t, net) && k < |net.flight| && n in t.id && Safe(t, net, n)
    ensures Safe(t, AtDeliver(t, net, k, now), n)
  {
    hide Inv, Safe, AtDeliver, Topology.Tree;
    SensorOrAdvertisement(t, net, k);
    if net.flight[k].parcel.msg.AdvMsg? {
      SafeAfterAdvertisement(t, net, k, now, n);
    } else {
      SafeAfterFrame(t, net, k, now, n);
    }
  }

  lemma CoveredKept(t: Topology, net: Net, e: NetEvent)
    requires t.Tree() && Inv(t, net) && Settling(t, net, e) && Enabled(t, net, e) && Covered(t, net)
    ensures Covered(t, Next(t, net, e))
  {
    hide Inv, Safe, AtDeliver, AtServe, Topology.Tree;
    forall n | n in t.id
      ensures Safe(t, Next(t, net, e), n)
    {
      assert Safe(t, net, n);
      match e {
        case Deliver(k, now) => SafeAfterDeliver(t, net, k, now, n);
        case Serve(q, clock) =>
          SiteAt(t, net, q);
          SafeAfterServe(t, net, q, clock, n);
      }
    }
  }

  lemma {:induction false} CoveredRun(t: Topology, net: Net, es: seq<NetEvent>)
    requires t.Tree() && Inv(t, net) && SettlingRun(t, net, es) && Covered(t, net)
    ensures Covered(t, RunNet(t, net, es))
    decreases |es|
  {
    hide Inv, Covered, Settling, Enabled;
    if es != [] {
      SettlingEnabled(t, net, es[0]);
      NextKeeps(t, net, es[0]);
      CoveredKept(t, net, es[0]);
      CoveredRun(t, Next(t, net, es[0]), es[1..]);
    }
  }

  /** At rest and covered: everything has been delivered. */
  lemma CoveredAtRest(t: Topology, net: Net)
    requires t.Tree() && Inv(t, net) && Covered(t, net) && AtRest(t, net)
    ensures AllDelivered(t, net)
  {
    hide Inv, Topology.Tree, Safe, MayClaim, HasData;
    forall n | n in t.id
      ensures !HasData(net, n)
    {
      assert Safe(t, net, n);
      SiteAt(t, net, n);
      if HasData(net, n) && !AlwaysReady(t, net, n) {
        SafeReady(t, net, n);
      }
    }
  }

  // ---------------------------------------------------------------- covered is needed

  /** A node with data that no settling step will make it drain. */
  predicate StuckAt(t: Topology, net: Net, n: Mac) {
    n in t.id && n in net.sites && HasData(net, n) && !ReadyAt(t, net, n)
  }

  lemma StuckDeliver(t: Topology, net: Net, k: nat, now: Instant, n: Mac)
    requires t.Tree() && Inv(t, net) && k < |net.flight| && StuckAt(t, net, n)
    ensures StuckAt(t, AtDeliver(t, net, k, now), n)
  {
    hide Inv, AtDeliver, HasOwn, Claimed, SiteOk, Topology.Tree, SetChildId, Remove;
    SensorOrAdvertisement(t, net, k);
    if net.flight[k].parcel.msg.AdvMsg? {
      AdvertisementEffect(t, net, k, now);
    } else {
      FrameEffect(t, net, k, now);
    }
  }

  lemma StuckServe(t: Topology, net: Net, q: Mac, clock: Clock, n: Mac)
    requires t.Tree() && Inv(t, net) && q in t.id && StuckAt(t, net, n)
    ensures StuckAt(t, AtServe(t, net, q, clock), n)
  {
    hide Inv, AtServe, HasOwn, SiteOk, Topology.Tree;
    SiteAt(t, net, q);
    ServeEffect(t, net, q, clock);
  }

  lemma StuckKept(t: Topology, net: Net, e: NetEvent, n: Mac)
    requires t.Tree() && Inv(t, net) && Settling(t, net, e) && Enabled(t, net, e) && StuckAt(t, net, n)
    ensures StuckAt(t, Next(t, net, e), n)
  {
    hide Inv, AtDeliver, AtServe, StuckAt, Topology.Tree;
    match e {
      case Deliver(k, now) => StuckDeliver(t, net, k, now, n);
      case Serve(q, clock) => StuckServe(t, net, q, clock, n);
    }
  }

  lemma {:induction false} StuckRun(t: Topology, net: Net, es: seq<NetEvent>, n: Mac)
    requires t.Tree() && Inv(t, net) && SettlingRun(t, net, es) && StuckAt(t, net, n)
    ensures StuckAt(t, RunNet(t, net, es), n)
    decreases |es|
  {
    hide Inv, StuckAt, Settling, Enabled;
    if es != [] {
      SettlingEnabled(t, net, es[0]);
      NextKeeps(t, net, es[0]);
      StuckKept(t, net, es[0], n);
      StuckRun(t, Next(t, net, es[0]), es[1..], n);
    }
  }

  /** A run of settling steps that ends at rest with data left in the mesh. */
  predicate LeavesData(t: Topology, net: Net, es: seq<NetEvent>)
    requires t.Tree() && Inv(t, net)
  {
    SettlingRun(t, net, es) && AtRest(t, RunNet(t, net, es)) && !AllDelivered(t, RunNet(t, net, es))
  }

  lemma ConsLeavesData(t: Topology, net: Net, e: NetEvent, es: seq<NetEvent>)
    requires t.Tree() && Inv(t, net) && Settling(t, net, e) && Enabled(t, net, e) && Inv(t, Next(t, net, e))
    requires LeavesData(t, Next(t, net, e), es)
    ensures LeavesData(t, net, [e] + es)
  {
    hide Inv, AtRest, AllDelivered, SettlingRun, Settling, Enabled;
    ConsRun(t, net, e, es);
  }

  lemma StuckToEnd(t: Topology, net: Net, n: Mac) returns (es: seq<NetEvent>)
    requires t.Tree() && Inv(t, net) && StuckAt(t, net, n)
    ensures LeavesData(t, net, es)
  {
    hide Inv, AtRest, HasData, ReadyAt;
    es := ComesToRest(t, net);
    StuckRun(t, net, es, n);
  }

  /** A frame that will be claimed by a node that need not drain again can be left there. */
  lemma ClaimedToEnd(t: Topology, net: Net, n: Mac, k: nat) returns (es: seq<NetEvent>)
    requires t.Tree() && Inv(t, net) && n in t.id && n in net.sites && !AlwaysReady(t, net, n)
    requires k < |net.flight| && net.flight[k].dst == n && Claimed(t, net, k)
    ensures LeavesData(t, net, es)
    decreases ReadyAt(t, net, n)
  {
    hide Inv, AtRest, AllDelivered, AtServe, AtDeliver, SiteOk, SettlingRun, Topology.Tree, LeavesData;
    var e := if ReadyAt(t, net, n) then Serve(n, Stopped(EPOCH)) else Deliver(k, EPOCH);
    SettlingEnabled(t, net, e);
    NextKeeps(t, net, e);
    var net' := Next(t, net, e);
    var rest: seq<NetEvent>;
    if ReadyAt(t, net, n) {
      ServeEffect(t, net, n, Stopped(EPOCH));
      SiteAt(t, net', n);
      SiteValid(t, n, net'.sites[n]);
      assert net'.flight[k] == net.flight[k];
      rest := ClaimedToEnd(t, net', n, k);
    } else {
      FrameEffect(t, net, k, EPOCH);
      rest := StuckToEnd(t, net', n);
    }
    ConsLeavesData(t, net, e, rest);
    es := [e] + rest;
  }

  lemma OwnIndex(t: Topology, c: Mac, s: Site) returns (i: nat)
    requires t.Tree() && c in t.id && SiteOk(t, c, s) && t.id[c] in s.batches
    ensures s.node.Valid() && i < s.node.agg.size && s.node.agg.slots[i].id == t.id[c]
  {
    i :| 0 <= i < s.node.agg.size && s.node.agg.Live()[i].id == t.id[c];
  }

  /** Draining a child that holds samples of its own puts a frame for its parent under way. */
  lemma OwnFrame(t: Topology, net: Net, c: Mac, clock: Clock) returns (k: nat)
    requires t.Tree() && Inv(t, net) && c in t.parent && c in net.sites && HasOwn(t, net, c) && ReadyAt(t, net, c)
    ensures var net' := AtServe(t, net, c, clock);
            && |net.flight| <= k < |net'.flight|
            && net'.flight[k].src == c && net'.flight[k].dst == t.parent[c]
            && net'.flight[k].parcel.msg.SensorMsg? && net'.flight[k].parcel.msg.id == t.id[c]
  {
    hide Inv, SiteOk, PacketOk, ParcelOk, ServeSite;
    SiteAt(t, net, c);
    var s := net.sites[c];
    var i := OwnIndex(t, c, s);
    ServeOuts(t, c, s, clock);
    assert c != t.root;
    k := |net.flight| + (s.node.agg.size - 1 - i);
  }

  /** Samples of a child due for the table of such a node can be left behind as well. */
  lemma ChildToEnd(t: Topology, net: Net, n: Mac, c: Mac) returns (es: seq<NetEvent>)
    requires t.Tree() && Inv(t, net) && n in t.id && n in net.sites && !AlwaysReady(t, net, n)
    requires c in t.parent && t.parent[c] == n && c in net.sites && HasOwn(t, net, c) && KnowsChild(t, net, n, c)
    ensures LeavesData(t, net, es)
  {
    NoCycle(t, c);
    hide Inv, AtRest, AllDelivered, AtServe, SiteOk, SettlingRun, Topology.Tree, LeavesData;
    if ReadyAt(t, net, c) {
      var e := Serve(c, Stopped(EPOCH));
      SettlingEnabled(t, net, e);
      NextKeeps(t, net, e);
      var net' := Next(t, net, e);
      ServeEffect(t, net, c, Stopped(EPOCH));
      var k := OwnFrame(t, net, c, Stopped(EPOCH));
      assert KnowsChild(t, net', n, c) && MayClaim(t, net', net'.flight[k]);
      KnownIsClaimed(t, net', k);
      var rest := ClaimedToEnd(t, net', n, k);
      ConsLeavesData(t, net, e, rest);
      es := [e] + rest;
    } else {
      SiteAt(t, net, c);
      var _ := OwnIndex(t, c, net.sites[c]);
      es := StuckToEnd(t, net, c);
    }
  }

  /** Delivering the advertisement of c to n first: n knows c, and nothing else has changed. */
  lemma AdvertiseFirst(t: Topology, net: Net, n: Mac, c: Mac) returns (j: nat)
    requires t.Tree() && Inv(t, net) && c in t.id && Listed(net, n, c) && Advertises(net, n, c)
    ensures j < |net.flight| && net.flight[j].parcel.msg.AdvMsg?
    ensures var net' := AtDeliver(t, net, j, EPOCH);
            && net'.flight == Remove(net.flight, j) && KnowsChild(t, net', n, c)
            && (forall q :: AlwaysReady(t, net', q) <==> AlwaysReady(t, net, q))
            && (forall q :: HasOwn(t, net', q) <==> HasOwn(t, net, q))
            && net'.sites.Keys == net.sites.Keys
  {
    hide Inv, AtDeliver, SetChildId, KnowsChild, Listed, Topology.Tree, Remove;
    j :| 0 <= j < |net.flight| && net.flight[j].src == c && net.flight[j].dst == n && net.flight[j].parcel.msg.AdvMsg?;
    AdvertisementEffect(t, net, j, EPOCH);
    AdvertisementKnown(t, net, j, EPOCH);
  }

  /** The same for a frame that will be claimed after an advertisement under way. */
  lemma MayClaimToEnd(t: Topology, net: Net, n: Mac, k: nat) returns (es: seq<NetEvent>)
    requires t.Tree() && Inv(t, net) && n in t.id && n in net.sites && !AlwaysReady(t, net, n)
    requires k < |net.flight| && net.flight[k].dst == n && MayClaim(t, net, net.flight[k])
    ensures LeavesData(t, net, es)
  {
    hide Inv, AtRest, AllDelivered, AtDeliver, SiteOk, SettlingRun, Topology.Tree, LeavesData, KnowsChild, Claimed,
         AlwaysReady, Listed, Advertises;
    var p := net.flight[k];
    if KnowsChild(t, net, n, p.src) {
      KnownIsClaimed(t, net, k);
      es := ClaimedToEnd(t, net, n, k);
    } else {
      var j := AdvertiseFirst(t, net, n, p.src);
      var e := Deliver(j, EPOCH);
      SettlingEnabled(t, net, e);
      NextKeeps(t, net, e);
      var net' := Next(t, net, e);
      var k' := if k < j then k else k - 1;
      assert net'.flight[k'] == p;
      KnownIsClaimed(t, net', k');
      var rest := ClaimedToEnd(t, net', n, k');
      ConsLeavesData(t, net, e, rest);
      es := [e] + rest;
    }
  }

  /** And for samples of a child that will be known after an advertisement under way. */
  lemma MayChildToEnd(t: Topology, net: Net, n: Mac, c: Mac) returns (es: seq<NetEvent>)
    requires t.Tree() && Inv(t, net) && n in t.id && n in net.sites && !AlwaysReady(t, net, n)
    requires c in t.parent && t.parent[c] == n && c in net.sites && HasOwn(t, net, c) && MayKnow(t, net, n, c)
    ensures LeavesData(t, net, es)
  {
    hide Inv, AtRest, AllDelivered, AtDeliver, SiteOk, SettlingRun, Topology.Tree, LeavesData, KnowsChild,
         AlwaysReady, Listed, Advertises;
    if KnowsChild(t, net, n, c) {
      es := ChildToEnd(t, net, n, c);
    } else {
      var j := AdvertiseFirst(t, net, n, c);
      var e := Deliver(j, EPOCH);
      SettlingEnabled(t, net, e);
      NextKeeps(t, net, e);
      var rest := ChildToEnd(t, Next(t, net, e), n, c);
      ConsLeavesData(t, net, e, rest);
      es := [e] + rest;
    }
  }

  /** A node that is not safe can be left with data when everything else has come to rest. */
  lemma UnsafeToEnd(t: Topology, net: Net, n: Mac) returns (es: seq<NetEvent>)
    requires t.Tree() && Inv(t, net) && n in t.id && !Safe(t, net, n)
    ensures LeavesData(t, net, es)
  {
    hide Inv, HasOwn, HasData, ReadyAt, MayKnow, MayClaim, SiteOk, LeavesData;
    SiteAt(t, net, n);
    if HasData(net, n) && !ReadyAt(t, net, n) {
      es := StuckToEnd(t, net, n);
    } else if k :| 0 <= k < |net.flight| && net.flight[k].dst == n && MayClaim(t, net, net.flight[k]) {
      es := MayClaimToEnd(t, net, n, k);
    } else {
      var c :| c in t.parent && t.parent[c] == n && HasOwn(t, net, c) && MayKnow(t, net, n, c);
      SiteAt(t, net, c);
      es := MayChildToEnd(t, net, n, c);
    }
  }

  /**
   * With the timers stopped and nothing lost on the air, no way of coming to rest leaves data in
   * the mesh if and only if every node is safe: it drains again whenever it is served, or its data
   * is due now and nothing more is on its way into its table, also not by way of an advertisement
   * that has not arrived yet.
   */
  lemma DeliveredIffCovered(t: Topology, net: Net)
    requires t.Tree() && Inv(t, net)
    ensures (forall es :: SettlingRun(t, net, es) && AtRest(t, RunNet(t, net, es))
                          ==> AllDelivered(t, RunNet(t, net, es)))
            <==> Covered(t, net)
  {
    hide Inv, AtRest, AllDelivered, Safe, SettlingRun;
    if Covered(t, net) {
      forall es | SettlingRun(t, net, es) && AtRest(t, RunNet(t, net, es))
        ensures AllDelivered(t, RunNet(t, net, es))
      {
        CoveredRun(t, net, es);
        CoveredAtRest(t, RunNet(t, net, es));
      }
    } else {
      var n :| n in t.id && !Safe(t, net, n);
      var es := UnsafeToEnd(t, net, n);
      assert SettlingRun(t, net, es) && AtRest(t, RunNet(t, net, es)) && !AllDelivered(t, RunNet(t, net, es));
    }
  }

  // ---------------------------------------------------------------- delivered means counted at the server

  lemma {:induction false} AdvertisementsHoldNothing(t: Topology, flight: seq<Packet>, m: ModuleId, x: Sample)
    requires t.Tree() && (forall k :: 0 <= k < |flight| ==> PacketOk(t, flight[k]) && !flight[k].parcel.msg.SensorMsg?)
    ensures Inside(Cargo(flight), m, x) == 0
  {
    if flight == [] {
      assert Cargo(flight) == [];
    } else {
      var k := |flight| - 1;
      AdvertisementsHoldNothing(t, flight[..k], m, x);
      assert Cargo(flight)[..k] == Cargo(flight[..k]);
      NoBatches(flight[k].parcel, m, x);
    }
  }

  lemma NoDataNoSamples(t: Topology, net: Net, n: Mac, m: ModuleId, x: Sample)
    requires t.Tree() && Inv(t, net) && n in t.id && !HasData(net, n)
    ensures AtNode(net, n, m, x) == 0
  {
    SiteAt(t, net, n);
    SiteValid(t, n, net.sites[n]);
    hide Inv, Topology.Tree;
  }

  /** Once all is delivered, each sample a module took is at the server, unless it was lost. */
  lemma DeliveredMeansServed(t: Topology, aggSlots: nat, kidSlots: nat, es: seq<NetEvent>, m: ModuleId, x: Sample)
    requires t.Tree() && m in t.owner && aggSlots >= 1
    requires AllDelivered(t, RunNet(t, Quiet(t, aggSlots, kidSlots), es))
    ensures var net := RunNet(t, Quiet(t, aggSlots, kidSlots), es);
            Count(Taken(net, m), x) == Inside(net.server, m, x) + Inside(net.lost, m, x)
  {
    hide SiteOk, PacketOk, HasData;
    var net := RunNet(t, Quiet(t, aggSlots, kidSlots), es);
    EverySampleOnce(t, aggSlots, kidSlots, es, m, x);
    AdvertisementsHoldNothing(t, net.flight, m, x);
    var o := t.owner[m];
    NoDataNoSamples(t, net, o, m, x);
    if o in t.parent {
      NoDataNoSamples(t, net, t.parent[o], m, x);
    }
  }
}
