/**
 * The protocol on a tree of nodes. Every node is the machine of module Node; packets travel
 * between them in any order. Each entry and packet also carries, as history only, the original
 * samples it stands for: one batch per folded contribution.
 */
module Mesh {
  import opened Types
  import opened Samples
  import opened Aggregate
  import opened Children
  import opened Node

  /** A tree of nodes with distinct ids; 0 stays free for broadcast. */
  datatype Topology = Topology(
    root: Mac, parent: map<Mac, Mac>, id: map<Mac, ModuleId>,
    owner: map<ModuleId, Mac>, layer: map<Mac, nat>, sendAfter: nat)
  {
    predicate Tree() {
      && root in id
      && parent.Keys == id.Keys - {root}
      && layer.Keys == id.Keys
      && (forall n {:trigger parent[n]} :: n in parent ==> parent[n] in id && layer[parent[n]] < layer[n])
      && (forall n {:trigger id[n]} :: n in id ==> id[n] != 0 && id[n] in owner && owner[id[n]] == n)
      && (forall m {:trigger owner[m]} :: m in owner ==> owner[m] in id && id[owner[m]] == m)
    }

    function Conf(n: Mac): Config
      requires n in id
    {
      Config(id[n], n, sendAfter)
    }
  }

  datatype Site = Site(node: State, batches: map<ModuleId, seq<Batch>>)

  datatype Parcel = Parcel(msg: Msg, batches: seq<Batch>)

  datatype Packet = Packet(src: Mac, dst: Mac, parcel: Parcel)

  datatype Net = Net(sites: map<Mac, Site>, flight: seq<Packet>, server: seq<Parcel>, lost: seq<Parcel>,
                     sampled: map<ModuleId, seq<Sample>>)

  datatype NetEvent =
    | Tick(n: Mac, x: Sample, now: Instant)
    | Attach(n: Mac, c: Mac)
    | Detach(n: Mac, c: Mac)
    | StartService(n: Mac)
    | FlushRequest(n: Mac, from: Mac)
    | Deliver(k: nat, now: Instant)
    | Lose(k: nat)
    | Serve(n: Mac, clock: Clock)

  // ---------------------------------------------------------------- the invariant

  predicate ValuesOf(values: Sample, bs: seq<Batch>) {
    bs != [] && NonEmpty(bs) && forall c :: 0 <= c < CHANNELS ==> values[c] == MeanOfMeans(bs, c)
  }

  /** A SENSOR frame of a known module whose values are the mean of means of its samples. */
  predicate ParcelOk(t: Topology, p: Parcel) {
    p.msg.SensorMsg? && p.msg.id in t.owner && ValuesOf(p.msg.values, p.batches)
  }

  /** The hops a SENSOR frame of o's module may be on: at most three, whatever the depth. */
  predicate OnWay(t: Topology, src: Mac, dst: Mac, o: Mac)
    requires t.Tree() && o in t.id
  {
    && o != t.root
    && var p := t.parent[o];
       || (src == o && dst == p)
       || (p != t.root && src == p && (dst == t.parent[p] || dst == t.root))
       || (p != t.root && t.parent[p] != t.root && src == t.parent[p] && dst == t.root)
  }

  predicate PacketOk(t: Topology, p: Packet)
    requires t.Tree()
  {
    && p.src in t.parent && p.dst in t.id
    && if p.parcel.msg.AdvMsg? then
         p.parcel == Parcel(AdvMsg(t.id[p.src], p.src), []) && p.dst == t.parent[p.src]
       else
         && ParcelOk(t, p.parcel)
         && OnWay(t, p.src, p.dst, t.owner[p.parcel.msg.id])
         && (p.src == t.owner[p.parcel.msg.id] ==> EvenBatches(p.parcel.batches, 1))
  }

  /** An entry of n stands for its batches; the node's own batches are single samples. */
  predicate EntryOk(own: ModuleId, e: Entry, bs: seq<Batch>) {
    && e.steps == |bs| && bs != [] && NonEmpty(bs)
    && (forall c :: 0 <= c < CHANNELS ==> e.sums[c] == SumOfMeans(bs, c))
    && (e.id == own ==> EvenBatches(bs, 1))
  }

  /** Each entry stands for its module's batches, and there are no others. */
  predicate EntriesOk(own: ModuleId, t: Table, b: map<ModuleId, seq<Batch>>)
    requires t.Valid()
  {
    && (forall i :: 0 <= i < t.size ==> t.slots[i].id in b && EntryOk(own, t.slots[i], b[t.slots[i].id]))
    && (forall m :: m in b ==> Has(t.Live(), m))
  }

  /** Every id in the children table, stale slots included, is 0 or a child's. */
  predicate IdsOfChildren(t: Topology, n: Mac, ids: seq<ModuleId>)
    requires t.Tree()
  {
    forall x :: x in ids ==> x == 0 || (x in t.owner && t.owner[x] in t.parent && t.parent[t.owner[x]] == n)
  }

  /** Module m is n's own or that of a node just below n. */
  predicate Near(t: Topology, n: Mac, m: ModuleId) {
    m in t.owner && (t.owner[m] == n || (t.owner[m] in t.parent && t.parent[t.owner[m]] == n))
  }

  /** Only nodes just below n are listed, and the ids are theirs. */
  predicate KidsOk(t: Topology, n: Mac, kids: Kids)
    requires t.Tree()
  {
    && kids.Valid()
    && (forall c :: c in kids.Macs() ==> c in t.parent && t.parent[c] == n)
    && IdsOfChildren(t, n, kids.ids)
  }

  predicate AllNear(t: Topology, n: Mac, agg: Table)
    requires agg.InBounds()
  {
    forall i :: 0 <= i < agg.size ==> Near(t, n, agg.slots[i].id)
  }

  /** Each entry is of a module near n and stands for that module's batches. */
  predicate TableOk(t: Topology, n: Mac, agg: Table, b: map<ModuleId, seq<Batch>>)
    requires n in t.id
  {
    && agg.Valid() && |agg.slots| >= 1
    && EntriesOk(t.id[n], agg, b)
    && AllNear(t, n, agg)
  }

  predicate SiteOk(t: Topology, n: Mac, s: Site)
    requires t.Tree() && n in t.id
  {
    KidsOk(t, n, s.node.kids) && TableOk(t, n, s.node.agg, s.batches)
  }

  predicate Inv(t: Topology, net: Net)
    requires t.Tree()
  {
    && net.sites.Keys == t.id.Keys
    && (forall n :: n in t.id ==> SiteOk(t, n, net.sites[n]))
    && (forall k :: 0 <= k < |net.flight| ==> PacketOk(t, net.flight[k]))
    && (forall k :: 0 <= k < |net.server| ==> ParcelOk(t, net.server[k]))
    && net.sampled.Keys == t.owner.Keys
  }

  // ---------------------------------------------------------------- steps

  function AddBatch(b: map<ModuleId, seq<Batch>>, m: ModuleId, x: Batch): map<ModuleId, seq<Batch>> {
    b[m := (if m in b then b[m] else []) + [x]]
  }

  function ParcelOf(msg: Msg, b: map<ModuleId, seq<Batch>>): Parcel {
    Parcel(msg, if msg.SensorMsg? && msg.id in b then b[msg.id] else [])
  }

  function Parcels(outs: seq<Out>, b: map<ModuleId, seq<Batch>>): (r: seq<Parcel>)
    ensures |r| == |outs| && forall i :: 0 <= i < |r| ==> r[i] == ParcelOf(outs[i].msg, b)
  {
    seq(|outs|, i requires 0 <= i < |outs| => ParcelOf(outs[i].msg, b))
  }

  function Packets(t: Topology, n: Mac, outs: seq<Out>, b: map<ModuleId, seq<Batch>>): (r: seq<Packet>)
    requires n in t.parent
    ensures |r| == |outs|
    ensures forall i :: 0 <= i < |r| ==>
              r[i] == Packet(n, if outs[i].ToRoot? then t.root else t.parent[n], ParcelOf(outs[i].msg, b))
  {
    seq(|outs|, i requires 0 <= i < |outs| =>
      Packet(n, if outs[i].ToRoot? then t.root else t.parent[n], ParcelOf(outs[i].msg, b)))
  }

  /** The root hands its output to the server, any other node to the mesh. */
  function Post(t: Topology, net: Net, n: Mac, outs: seq<Out>, b: map<ModuleId, seq<Batch>>): Net
    requires t.Tree() && n in t.id
  {
    if n == t.root then net.(server := net.server + Parcels(outs, b))
    else net.(flight := net.flight + Packets(t, n, outs, b))
  }

  function Remove<T>(s: seq<T>, k: nat): seq<T>
    requires k < |s|
  {
    s[..k] + s[k + 1..]
  }

  /** The site after a step that may have taken in one contribution x. */
  function Settle(s: Site, r: Outcome, x: Batch): Site {
    Site(r.state, if r.items != [] && r.items[0].Accept? then AddBatch(s.batches, r.items[0].id, x) else s.batches)
  }

  /** The site after a tick, and the sample if a full table refused it. */
  function TickSite(t: Topology, n: Mac, s: Site, x: Sample, now: Instant): (Site, seq<Parcel>)
    requires t.Tree() && n in t.id && SiteOk(t, n, s)
  {
    var r := OnTimer(t.Conf(n), s.node, x, now);
    (Settle(s, r, [x]), if r.items == [] then [Parcel(SensorMsg(t.id[n], 0.0, x), [[x]])] else [])
  }

  function AttachSite(t: Topology, n: Mac, s: Site, c: Mac): Site
    requires t.Tree() && n in t.id && SiteOk(t, n, s)
  {
    s.(node := s.node.(kids := PushChild(s.node.kids, c).0))
  }

  /** The site after a child left, and the entry dropped with it, if any. */
  function DetachSite(t: Topology, n: Mac, s: Site, c: Mac): (Site, seq<Parcel>)
    requires t.Tree() && n in t.id && SiteOk(t, n, s)
  {
    var r := OnDisconnect(s.node, c);
    if r.items == [] then (s.(node := r.state), [])
    else
      var e := r.items[0].entry;
      (Site(r.state, s.batches - {e.id}), [ParcelOf(SensorMsg(e.id, 0.0, e.sums), s.batches)])
  }

  function StartSite(t: Topology, n: Mac, s: Site): (Site, seq<Out>)
    requires t.Tree() && n in t.id && SiteOk(t, n, s)
  {
    var r := OnStart(t.Conf(n), s.node, true, n == t.root);
    (s.(node := r.state), r.outs)
  }

  function FlushSite(t: Topology, n: Mac, s: Site, from: Mac): Site
    requires t.Tree() && n in t.id && SiteOk(t, n, s)
  {
    s.(node := OnReceive(t.Conf(n), s.node, from, FlushMsg(0), Instant(0, 0), n == t.root).state)
  }

  /** The site after a packet, what it hands on, and a frame neither taken in nor handed on. */
  function ReceiveSite(t: Topology, s: Site, p: Packet, now: Instant): (Site, seq<Out>, seq<Parcel>)
    requires t.Tree() && p.dst in t.id && SiteOk(t, p.dst, s)
  {
    var r := OnReceive(t.Conf(p.dst), s.node, p.src, p.parcel.msg, now, p.dst == t.root);
    (Settle(s, r, Flatten(p.parcel.batches)), r.outs,
     if p.parcel.msg.SensorMsg? && r.items == [] && r.outs == [] then [p.parcel] else [])
  }

  function ServeSite(t: Topology, n: Mac, s: Site, clock: Clock): (Site, seq<Out>)
    requires t.Tree() && n in t.id && SiteOk(t, n, s)
  {
    var r := OnServe(t.Conf(n), s.node, clock, n == t.root);
    (Site(r.state, if Ready(t.Conf(n), s.node) then map[] else s.batches), r.outs)
  }

  predicate Enabled(t: Topology, net: Net, e: NetEvent)
    requires t.Tree() && Inv(t, net)
  {
    match e
    case Tick(n, _, _) => n in t.id
    case Attach(n, c) => n in t.id && c in t.parent && t.parent[c] == n
    case Detach(n, _) => n in t.id
    case StartService(n) => n in t.id
    case FlushRequest(n, _) => n in t.id
    case Deliver(k, _) => k < |net.flight|
    case Lose(k) => k < |net.flight|
    case Serve(n, _) => n in t.id
  }

  function AtDeliver(t: Topology, net: Net, k: nat, now: Instant): Net
    requires t.Tree() && Inv(t, net) && k < |net.flight|
  {
    var p := net.flight[k];
    var (s, outs, refused) := ReceiveSite(t, net.sites[p.dst], p, now);
    Post(t, net.(sites := net.sites[p.dst := s], flight := Remove(net.flight, k), lost := net.lost + refused),
         p.dst, outs, map[p.parcel.msg.id := p.parcel.batches])
  }

  function AtServe(t: Topology, net: Net, n: Mac, clock: Clock): Net
    requires t.Tree() && Inv(t, net) && n in t.id
  {
    var (s, outs) := ServeSite(t, n, net.sites[n], clock);
    Post(t, net.(sites := net.sites[n := s]), n, outs, net.sites[n].batches)
  }

  function AtStart(t: Topology, net: Net, n: Mac): Net
    requires t.Tree() && Inv(t, net) && n in t.id
  {
    var (s, outs) := StartSite(t, n, net.sites[n]);
    Post(t, net.(sites := net.sites[n := s]), n, outs, map[])
  }

  function AtDetach(t: Topology, net: Net, n: Mac, c: Mac): Net
    requires t.Tree() && Inv(t, net) && n in t.id
  {
    var (s, gone) := DetachSite(t, n, net.sites[n], c);
    net.(sites := net.sites[n := s], lost := net.lost + gone)
  }

  function AtTick(t: Topology, net: Net, n: Mac, x: Sample, now: Instant): Net
    requires t.Tree() && Inv(t, net) && n in t.id
  {
    var (s, refused) := TickSite(t, n, net.sites[n], x, now);
    net.(sites := net.sites[n := s], lost := net.lost + refused,
         sampled := net.sampled[t.id[n] := net.sampled[t.id[n]] + [x]])
  }

  function AtAttach(t: Topology, net: Net, n: Mac, c: Mac): Net
    requires t.Tree() && Inv(t, net) && n in t.id
  {
    net.(sites := net.sites[n := AttachSite(t, n, net.sites[n], c)])
  }

  function AtFlush(t: Topology, net: Net, n: Mac, from: Mac): Net
    requires t.Tree() && Inv(t, net) && n in t.id
  {
    net.(sites := net.sites[n := FlushSite(t, n, net.sites[n], from)])
  }

  function AtLose(net: Net, k: nat): Net
    requires k < |net.flight|
  {
    net.(flight := Remove(net.flight, k), lost := net.lost + [net.flight[k].parcel])
  }

  /** One step of the network. */
  function Next(t: Topology, net: Net, e: NetEvent): Net
    requires t.Tree() && Inv(t, net) && Enabled(t, net, e)
  {
    match e
    case Tick(n, x, now) => AtTick(t, net, n, x, now)
    case Attach(n, c) => AtAttach(t, net, n, c)
    case Detach(n, c) => AtDetach(t, net, n, c)
    case StartService(n) => AtStart(t, net, n)
    case FlushRequest(n, from) => AtFlush(t, net, n, from)
    case Deliver(k, now) => if k < |net.flight| then AtDeliver(t, net, k, now) else net
    case Lose(k) => if k < |net.flight| then AtLose(net, k) else net
    case Serve(n, clock) => AtServe(t, net, n, clock)
  }

  // ---------------------------------------------------------------- folding

  /** The table after a push that finds room, entry by entry. */
  lemma PushEntries(t: Table, id: ModuleId, x: Sample, now: Instant)
    requires t.Valid() && Push(t, id, x, now).1 >= 0
    ensures var (t', k) := Push(t, id, x, now);
            && t'.Valid() && k < t'.size && t'.slots[k].id == id
            && (forall i :: 0 <= i < t'.size && i != k ==>
                  i < t.size && t'.slots[i] == t.slots[i] && t.slots[i].id != id)
            && (if k < t.size then
                  && t.slots[k].id == id
                  && t'.slots[k].steps == t.slots[k].steps + 1
                  && t'.slots[k].sums == Plus(t.slots[k].sums, x)
                else
                  !Has(t.Live(), id) && t'.slots[k].steps == 1 && t'.slots[k].sums == x)
  {
    PushValid(t, id, x, now);
    var (t', k) := Push(t, id, x, now);
    forall i | 0 <= i < t'.size && i != k
      ensures i < t.size && t'.slots[i] == t.slots[i] && t.slots[i].id != id
    {
      assert t'.Live()[i].id != t'.Live()[k].id;
    }
    if k < t.size {
      assert t.Live()[k].id == id;
    }
  }

  lemma GrownEntryOk(own: ModuleId, e: Entry, bs: seq<Batch>, x: Sample, b: Batch, e': Entry)
    requires EntryOk(own, e, bs) && b != []
    requires forall c :: 0 <= c < CHANNELS ==> x[c] == Mean(b, c)
    requires e'.id == e.id && e'.steps == e.steps + 1 && e'.sums == Plus(e.sums, x)
    requires e.id == own ==> |b| == 1
    ensures EntryOk(own, e', bs + [b])
  {
    forall c | 0 <= c < CHANNELS
      ensures NonEmpty(bs + [b]) && e'.sums[c] == SumOfMeans(bs + [b], c)
    {
      SumOfMeansAppend(bs, b, c);
    }
    assert NonEmpty(bs + [b]);
  }

  lemma FreshEntryOk(own: ModuleId, x: Sample, b: Batch, e: Entry)
    requires b != [] && (forall c :: 0 <= c < CHANNELS ==> x[c] == Mean(b, c))
    requires e.steps == 1 && e.sums == x
    requires e.id == own ==> |b| == 1
    ensures EntryOk(own, e, [] + [b])
  {
    forall c | 0 <= c < CHANNELS
      ensures NonEmpty([] + [b]) && e.sums[c] == SumOfMeans([] + [b], c)
    {
      SumOfMeansAppend([], b, c);
    }
    assert NonEmpty([] + [b]);
  }

  lemma FoldEntries(own: ModuleId, t: Table, b: map<ModuleId, seq<Batch>>, m: ModuleId, x: Sample, now: Instant,
                    batch: Batch)
    requires t.Valid() && EntriesOk(own, t, b) && Push(t, m, x, now).1 >= 0
    requires batch != [] && (forall c :: 0 <= c < CHANNELS ==> x[c] == Mean(batch, c))
    requires m == own ==> |batch| == 1
    ensures Push(t, m, x, now).0.Valid()
    ensures EntriesOk(own, Push(t, m, x, now).0, AddBatch(b, m, batch))
  {
    PushEntries(t, m, x, now);
    PushValid(t, m, x, now);
    var (t', k) := Push(t, m, x, now);
    var b' := AddBatch(b, m, batch);
    if k < t.size {
      GrownEntryOk(own, t.slots[k], b[m], x, batch, t'.slots[k]);
    } else {
      assert m !in b;
      FreshEntryOk(own, x, batch, t'.slots[k]);
    }
    forall i | 0 <= i < t'.size
      ensures t'.slots[i].id in b' && EntryOk(own, t'.slots[i], b'[t'.slots[i].id])
    {
      if i != k {
        assert b'[t.slots[i].id] == b[t.slots[i].id];
      }
    }
  }

  lemma PushNear(t: Topology, n: Mac, agg: Table, m: ModuleId, x: Sample, now: Instant)
    requires agg.Valid() && AllNear(t, n, agg) && Near(t, n, m)
    ensures Push(agg, m, x, now).0.Valid() && AllNear(t, n, Push(agg, m, x, now).0)
  {
    PushValid(agg, m, x, now);
    if Push(agg, m, x, now).1 >= 0 {
      PushEntries(agg, m, x, now);
    }
    hide Near, UniqueIds, Push;
  }

  /** Any push of a nearby module keeps the table sound, also one that a full table refuses. */
  lemma FoldTableOk(t: Topology, n: Mac, agg: Table, b: map<ModuleId, seq<Batch>>, m: ModuleId, x: Sample, now: Instant,
                    batch: Batch)
    requires n in t.id && TableOk(t, n, agg, b) && Near(t, n, m)
    requires batch != [] && (forall c :: 0 <= c < CHANNELS ==> x[c] == Mean(batch, c))
    requires m == t.id[n] ==> |batch| == 1
    ensures var (agg', k) := Push(agg, m, x, now);
            && agg'.Valid()
            && if k >= 0 then TableOk(t, n, agg', AddBatch(b, m, batch)) && agg'.size > 0
               else agg' == agg && agg.size > 0 && !Has(agg.Live(), m)
  {
    PushValid(agg, m, x, now);
    PushNear(t, n, agg, m, x, now);
    var (agg', k) := Push(agg, m, x, now);
    if k >= 0 {
      FoldEntries(t.id[n], agg, b, m, x, now, batch);
    }
    hide EntriesOk, AllNear, Near, AddBatch;
  }

  lemma TickSiteOk(t: Topology, n: Mac, s: Site, x: Sample, now: Instant)
    requires t.Tree() && n in t.id && SiteOk(t, n, s)
    ensures var (s', refused) := TickSite(t, n, s, x, now);
            && SiteOk(t, n, s')
            && (if refused == [] then s'.batches == AddBatch(s.batches, t.id[n], [x])
                else s'.batches == s.batches && refused == [Parcel(SensorMsg(t.id[n], 0.0, x), [[x]])])
  {
    forall c | 0 <= c < CHANNELS
      ensures x[c] == Mean([x], c)
    {
      MeanOfOne(x, c);
    }
    FoldTableOk(t, n, s.node.agg, s.batches, t.id[n], x, now, [x]);
    hide TableOk, KidsOk, Topology.Tree;
  }

  lemma AttachSiteOk(t: Topology, n: Mac, s: Site, c: Mac)
    requires t.Tree() && n in t.id && SiteOk(t, n, s) && c in t.parent && t.parent[c] == n
    ensures SiteOk(t, n, AttachSite(t, n, s, c))
  {
    hide TableOk;
    PushChildKeeps(s.node.kids, c);
  }

  lemma PopEntriesOk(own: ModuleId, t: Table, b: map<ModuleId, seq<Batch>>, k: nat)
    requires t.Valid() && EntriesOk(own, t, b) && k < t.size && PopAt(t, k).Valid()
    ensures EntriesOk(own, PopAt(t, k), b - {t.slots[k].id})
  {
    PopValid(t, k);
    var t' := PopAt(t, k);
    forall i | 0 <= i < t'.size
      ensures t'.slots[i].id in b && t'.slots[i].id != t.slots[k].id
      ensures EntryOk(own, t'.slots[i], b[t'.slots[i].id])
    {
      var j := if i < k then i else i + 1;
      assert t'.slots[i] == t.slots[j] == t.Live()[j];
      assert t.Live()[j].id != t.Live()[k].id;
    }
  }

  lemma PopNear(t: Topology, n: Mac, agg: Table, k: nat)
    requires agg.InBounds() && AllNear(t, n, agg) && k < agg.size
    ensures AllNear(t, n, PopAt(agg, k))
  {
    hide Near;
    var agg' := PopAt(agg, k);
    forall i | 0 <= i < agg'.size
      ensures Near(t, n, agg'.slots[i].id)
    {
      assert agg'.slots[i] == agg'.Live()[i];
      assert agg'.slots[i] == agg.slots[if i < k then i else i + 1];
    }
  }

  lemma PopTableOk(t: Topology, n: Mac, agg: Table, b: map<ModuleId, seq<Batch>>, k: nat)
    requires n in t.id && TableOk(t, n, agg, b) && k < agg.size
    ensures TableOk(t, n, PopAt(agg, k), b - {agg.slots[k].id})
  {
    PopValid(agg, k);
    PopEntriesOk(t.id[n], agg, b, k);
    PopNear(t, n, agg, k);
    hide EntriesOk, AllNear, PopAt;
  }

  lemma PopKidsOk(t: Topology, n: Mac, kids: Kids, c: Mac)
    requires t.Tree() && KidsOk(t, n, kids)
    ensures KidsOk(t, n, PopChild(kids, c))
  {
    PopChildKeeps(kids, c);
    hide PopChild, Topology.Tree;
  }

  /** Every disconnect keeps the site sound, whichever entry it deletes. */
  lemma DetachSiteOk(t: Topology, n: Mac, s: Site, c: Mac)
    requires t.Tree() && n in t.id && SiteOk(t, n, s)
    ensures SiteOk(t, n, DetachSite(t, n, s, c).0)
  {
    PopKidsOk(t, n, s.node.kids, c);
    var k := LastByMac(s.node.agg.Live(), c);
    if k >= 0 {
      PopTableOk(t, n, s.node.agg, s.batches, k);
    }
    hide TableOk, KidsOk, Topology.Tree, PopAt, PopChild, LastByMac;
  }

  lemma ServeSiteOk(t: Topology, n: Mac, s: Site, clock: Clock)
    requires t.Tree() && n in t.id && SiteOk(t, n, s)
    ensures SiteOk(t, n, ServeSite(t, n, s, clock).0)
  {
    hide KidsOk, Topology.Tree;
  }

  /** No node is its own grandparent, nor the parent of its parent. */
  lemma NoCycle(t: Topology, c: Mac)
    requires t.Tree() && c in t.parent
    ensures t.parent[c] != c
    ensures t.parent[c] in t.parent ==> t.parent[t.parent[c]] != c
  {
  }

  /** No packet comes back to its sender. */
  lemma PacketMoves(t: Topology, p: Packet)
    requires t.Tree() && PacketOk(t, p)
    ensures p.src != p.dst
  {
    NoCycle(t, p.src);
  }

  /** The receiving node takes the frame for one of a direct child. */
  predicate IsClaimed(s: Site, p: Packet)
    requires s.node.Valid()
  {
    p.parcel.msg.SensorMsg? && Children.IsChild(s.node.kids, p.src, p.parcel.msg.id)
  }

  /** A node claims a frame only if it comes from the frame's own module, a child of the node. */
  lemma ClaimedIsChilds(t: Topology, s: Site, p: Packet)
    requires t.Tree() && PacketOk(t, p) && SiteOk(t, p.dst, s) && p.parcel.msg.SensorMsg?
    requires IsChild(s.node.kids, p.src, p.parcel.msg.id)
    ensures p.src == t.owner[p.parcel.msg.id] && t.parent[p.src] == p.dst && t.id[p.src] == p.parcel.msg.id
  {
    hide TableOk;
    var m := p.parcel.msg.id;
    var o := t.owner[m];
    assert m in s.node.kids.ids;
    assert t.id[o] == m && m != 0;
    assert t.parent[o] == p.dst;
    assert p.src in s.node.kids.Macs();
    NoCycle(t, p.src);
    NoCycle(t, o);
  }

  /** Values that stand for single samples are the plain mean. */
  lemma ValuesOfSingles(values: Sample, bs: seq<Batch>)
    requires ValuesOf(values, bs) && EvenBatches(bs, 1)
    ensures Flatten(bs) != [] && forall c :: 0 <= c < CHANNELS ==> values[c] == Mean(Flatten(bs), c)
  {
    EvenMeanOfMeans(bs, 1, 0);
    forall c | 0 <= c < CHANNELS
      ensures values[c] == Mean(Flatten(bs), c)
    {
      EvenMeanOfMeans(bs, 1, c);
    }
  }

  lemma AssociateEntriesOk(own: ModuleId, t: Table, b: map<ModuleId, seq<Batch>>, id: ModuleId, mac: Mac)
    requires t.Valid() && EntriesOk(own, t, b)
    ensures Associate(t, id, mac).Valid() && EntriesOk(own, Associate(t, id, mac), b)
    ensures forall i :: 0 <= i < t.size ==> Associate(t, id, mac).slots[i].id == t.slots[i].id
    ensures Associate(t, id, mac).size == t.size && |Associate(t, id, mac).slots| == |t.slots|
  {
    AssociateLive(t, id, mac);
  }

  lemma ClaimTableOk(t: Topology, n: Mac, agg: Table, b: map<ModuleId, seq<Batch>>, m: ModuleId, x: Sample,
                     now: Instant, batch: Batch, mac: Mac)
    requires n in t.id && TableOk(t, n, agg, b) && Near(t, n, m)
    requires batch != [] && (forall c :: 0 <= c < CHANNELS ==> x[c] == Mean(batch, c))
    requires m == t.id[n] ==> |batch| == 1
    ensures var (pushed, k) := Push(agg, m, x, now);
            && pushed.Valid()
            && var agg' := Associate(pushed, m, mac);
               && agg'.size > 0
               && if k >= 0 then TableOk(t, n, agg', AddBatch(b, m, batch)) else agg' == agg
  {
    FoldTableOk(t, n, agg, b, m, x, now, batch);
    var (pushed, k) := Push(agg, m, x, now);
    if k >= 0 {
      AssociateEntriesOk(t.id[n], pushed, AddBatch(b, m, batch), m, mac);
    } else {
      assert LastById(agg.Live(), m) < 0;
    }
    hide EntriesOk, Near, AddBatch, Push;
  }

  /** A claimed frame is taken in whole, or refused whole by a full table. */
  lemma FoldSiteOk(t: Topology, s: Site, p: Packet, now: Instant)
    requires t.Tree() && PacketOk(t, p) && SiteOk(t, p.dst, s) && p.parcel.msg.SensorMsg?
    requires IsChild(s.node.kids, p.src, p.parcel.msg.id)
    ensures var (s', outs, refused) := ReceiveSite(t, s, p, now);
            && outs == [] && SiteOk(t, p.dst, s')
            && s'.node == s.node.(agg := s'.node.agg) && s'.node.agg.size > 0
            && (if refused == [] then s'.batches == AddBatch(s.batches, p.parcel.msg.id, Flatten(p.parcel.batches))
                else s' == s && refused == [p.parcel])
  {
    var n, msg, batch := p.dst, p.parcel.msg, Flatten(p.parcel.batches);
    ClaimedIsChilds(t, s, p);
    PacketMoves(t, p);
    ValuesOfSingles(msg.values, p.parcel.batches);
    NoCycle(t, p.src);
    ClaimTableOk(t, n, s.node.agg, s.batches, msg.id, msg.values, now, batch, p.src);
    hide TableOk, KidsOk, Topology.Tree, Push, Associate, IsChild;
  }

  lemma AdvSiteOk(t: Topology, s: Site, p: Packet)
    requires t.Tree() && PacketOk(t, p) && SiteOk(t, p.dst, s) && p.parcel.msg.AdvMsg?
    ensures SiteOk(t, p.dst, s.(node := s.node.(kids := SetChildId(s.node.kids, p.src, p.parcel.msg.id))))
  {
    hide TableOk;
    SetChildIdKeeps(s.node.kids, p.src, p.parcel.msg.id);
  }

  // ---------------------------------------------------------------- every step keeps the invariant

  lemma PutSite(t: Topology, net: Net, n: Mac, s: Site)
    requires t.Tree() && Inv(t, net) && n in t.id && SiteOk(t, n, s)
    ensures Inv(t, net.(sites := net.sites[n := s]))
  {
    hide SiteOk, PacketOk, ParcelOk;
  }

  lemma RemovePacket(t: Topology, net: Net, k: nat)
    requires t.Tree() && Inv(t, net) && k < |net.flight|
    ensures Inv(t, net.(flight := Remove(net.flight, k)))
  {
    hide SiteOk, PacketOk, ParcelOk;
    var rest := Remove(net.flight, k);
    assert forall i :: 0 <= i < |rest| ==> rest[i] == net.flight[if i < k then i else i + 1];
  }

  /** What n may send: a good frame for the server if n is the root, a good packet otherwise. */
  predicate Sendable(t: Topology, n: Mac, out: Out, b: map<ModuleId, seq<Batch>>)
    requires t.Tree() && n in t.id
  {
    if n == t.root then ParcelOk(t, ParcelOf(out.msg, b))
    else PacketOk(t, Packet(n, if out.ToRoot? then t.root else t.parent[n], ParcelOf(out.msg, b)))
  }

  lemma PostOk(t: Topology, net: Net, n: Mac, outs: seq<Out>, b: map<ModuleId, seq<Batch>>)
    requires t.Tree() && Inv(t, net) && n in t.id
    requires forall i :: 0 <= i < |outs| ==> Sendable(t, n, outs[i], b)
    ensures Inv(t, Post(t, net, n, outs, b))
  {
    hide SiteOk, PacketOk, ParcelOk;
    var net' := Post(t, net, n, outs, b);
    if n == t.root {
      forall k | 0 <= k < |net'.server|
        ensures ParcelOk(t, net'.server[k])
      {
        if k >= |net.server| {
          assert Sendable(t, n, outs[k - |net.server|], b);
        }
      }
    } else {
      forall k | 0 <= k < |net'.flight|
        ensures PacketOk(t, net'.flight[k])
      {
        if k >= |net.flight| {
          assert Sendable(t, n, outs[k - |net.flight|], b);
        }
      }
    }
  }

  /** A drained entry leaves as the mean of means of its batches, one hop towards the root. */
  lemma ReportSendable(t: Topology, n: Mac, s: Site, i: nat, now: Instant)
    requires t.Tree() && n in t.id && SiteOk(t, n, s) && i < s.node.agg.size
    ensures var msg := FrameOf(ReportOf(s.node.agg.slots[i], now));
            Sendable(t, n, if n == t.root then ToServer(msg) else ToParent(msg), s.batches)
  {
    var e := s.node.agg.slots[i];
    assert EntryOk(t.id[n], e, s.batches[e.id]);
    assert Near(t, n, e.id);
    if t.owner[e.id] != n {
      NoCycle(t, t.owner[e.id]);
    }
  }

  /** What a drain sends: the frame of each entry, last first. */
  lemma ServeOuts(t: Topology, n: Mac, s: Site, clock: Clock)
    requires t.Tree() && n in t.id && SiteOk(t, n, s) && s.node.Valid()
    ensures var outs := ServeSite(t, n, s, clock).1;
            if Ready(t.Conf(n), s.node) then
              && |outs| == s.node.agg.size
              && forall j :: 0 <= j < |outs| ==>
                   var k := |outs| - 1 - j;
                   var msg := FrameOf(ReportOf(s.node.agg.slots[k], ReadAt(clock, k)));
                   outs[j] == if n == t.root then ToServer(msg) else ToParent(msg)
            else outs == []
  {
    hide SiteOk, Topology.Tree, ReportOf, FrameOf;
    DrainAt(s.node.agg.Live(), clock);
  }

  lemma ServeSendable(t: Topology, n: Mac, s: Site, clock: Clock)
    requires t.Tree() && n in t.id && SiteOk(t, n, s)
    ensures var outs := ServeSite(t, n, s, clock).1;
            forall i :: 0 <= i < |outs| ==> Sendable(t, n, outs[i], s.batches)
  {
    SiteValid(t, n, s);
    ServeOuts(t, n, s, clock);
    hide SiteOk, Sendable, Topology.Tree, ServeSite, ReportOf, FrameOf;
    var outs := ServeSite(t, n, s, clock).1;
    forall i | 0 <= i < |outs|
      ensures Sendable(t, n, outs[i], s.batches)
    {
      var k := s.node.agg.size - 1 - i;
      ReportSendable(t, n, s, k, ReadAt(clock, k));
    }
  }

  /** A frame handed on keeps its parcel and goes to the root, or from the root to the server. */
  lemma ForwardSendable(t: Topology, p: Packet)
    requires t.Tree() && PacketOk(t, p) && p.parcel.msg.SensorMsg?
    ensures var msg := p.parcel.msg;
            var b := map[msg.id := p.parcel.batches];
            && ParcelOf(msg, b) == p.parcel
            && Sendable(t, p.dst, if p.dst == t.root then ToServer(msg) else ToRoot(msg), b)
  {
    var o := t.owner[p.parcel.msg.id];
    NoCycle(t, o);
    if t.parent[o] in t.parent {
      NoCycle(t, t.parent[o]);
    }
  }

  lemma DeliverSiteOk(t: Topology, s: Site, p: Packet, now: Instant)
    requires t.Tree() && PacketOk(t, p) && SiteOk(t, p.dst, s)
    ensures var (s', outs, _) := ReceiveSite(t, s, p, now);
            && SiteOk(t, p.dst, s')
            && (forall i :: 0 <= i < |outs| ==>
                  Sendable(t, p.dst, outs[i], map[p.parcel.msg.id := p.parcel.batches]))
  {
    if p.src != p.dst {
      if p.parcel.msg.AdvMsg? {
        AdvSiteOk(t, s, p);
      } else if IsChild(s.node.kids, p.src, p.parcel.msg.id) {
        FoldSiteOk(t, s, p, now);
      } else {
        ForwardSendable(t, p);
      }
    }
  }

  lemma SiteValid(t: Topology, n: Mac, s: Site)
    requires t.Tree() && n in t.id && SiteOk(t, n, s)
    ensures s.node.Valid()
  {
  }

  lemma PacketEnds(t: Topology, p: Packet)
    requires t.Tree() && PacketOk(t, p)
    ensures p.src in t.id && p.dst in t.id
  {
  }

  lemma DeliverKeeps(t: Topology, net: Net, k: nat, now: Instant)
    requires t.Tree() && Inv(t, net) && k < |net.flight|
    ensures Inv(t, AtDeliver(t, net, k, now))
  {
    hide SiteOk, PacketOk, ParcelOk, Sendable, ReceiveSite;
    var p := net.flight[k];
    PacketEnds(t, p);
    DeliverSiteOk(t, net.sites[p.dst], p, now);
    var (s, outs, refused) := ReceiveSite(t, net.sites[p.dst], p, now);
    RemovePacket(t, net, k);
    var net1 := net.(flight := Remove(net.flight, k), lost := net.lost + refused);
    PutSite(t, net1, p.dst, s);
    PostOk(t, net1.(sites := net1.sites[p.dst := s]), p.dst, outs, map[p.parcel.msg.id := p.parcel.batches]);
  }

  lemma ServeKeeps(t: Topology, net: Net, n: Mac, clock: Clock)
    requires t.Tree() && Inv(t, net) && n in t.id
    ensures Inv(t, AtServe(t, net, n, clock))
  {
    hide SiteOk, PacketOk, ParcelOk, Sendable, ServeSite;
    var s := net.sites[n];
    ServeSiteOk(t, n, s, clock);
    ServeSendable(t, n, s, clock);
    var (s', outs) := ServeSite(t, n, s, clock);
    PutSite(t, net, n, s');
    PostOk(t, net.(sites := net.sites[n := s']), n, outs, s.batches);
  }

  lemma StartSiteOk(t: Topology, n: Mac, s: Site)
    requires t.Tree() && n in t.id && SiteOk(t, n, s)
    ensures var (s', outs) := StartSite(t, n, s);
            && SiteOk(t, n, s')
            && (forall i :: 0 <= i < |outs| ==> Sendable(t, n, outs[i], map[]))
  {
  }

  lemma StartKeeps(t: Topology, net: Net, n: Mac)
    requires t.Tree() && Inv(t, net) && n in t.id
    ensures Inv(t, AtStart(t, net, n))
  {
    hide SiteOk, PacketOk, ParcelOk, Sendable, StartSite;
    StartSiteOk(t, n, net.sites[n]);
    var (s', outs) := StartSite(t, n, net.sites[n]);
    PutSite(t, net, n, s');
    PostOk(t, net.(sites := net.sites[n := s']), n, outs, map[]);
  }

  lemma FlushSiteOk(t: Topology, n: Mac, s: Site, from: Mac)
    requires t.Tree() && n in t.id && SiteOk(t, n, s)
    ensures SiteOk(t, n, FlushSite(t, n, s, from))
  {
  }

  lemma TickKeeps(t: Topology, net: Net, n: Mac, x: Sample, now: Instant)
    requires t.Tree() && Inv(t, net) && n in t.id
    ensures Inv(t, AtTick(t, net, n, x, now))
  {
    hide SiteOk, PacketOk, ParcelOk, TickSite;
    TickSiteOk(t, n, net.sites[n], x, now);
    PutSite(t, net, n, TickSite(t, n, net.sites[n], x, now).0);
  }

  lemma AttachKeeps(t: Topology, net: Net, n: Mac, c: Mac)
    requires t.Tree() && Inv(t, net) && n in t.id && c in t.parent && t.parent[c] == n
    ensures Inv(t, AtAttach(t, net, n, c))
  {
    hide SiteOk, PacketOk, ParcelOk, AttachSite;
    AttachSiteOk(t, n, net.sites[n], c);
    PutSite(t, net, n, AttachSite(t, n, net.sites[n], c));
  }

  lemma DetachKeeps(t: Topology, net: Net, n: Mac, c: Mac)
    requires t.Tree() && Inv(t, net) && n in t.id
    ensures Inv(t, AtDetach(t, net, n, c))
  {
    hide SiteOk, PacketOk, ParcelOk, DetachSite;
    DetachSiteOk(t, n, net.sites[n], c);
    PutSite(t, net, n, DetachSite(t, n, net.sites[n], c).0);
  }

  lemma FlushKeeps(t: Topology, net: Net, n: Mac, from: Mac)
    requires t.Tree() && Inv(t, net) && n in t.id
    ensures Inv(t, AtFlush(t, net, n, from))
  {
    hide SiteOk, PacketOk, ParcelOk, FlushSite;
    FlushSiteOk(t, n, net.sites[n], from);
    PutSite(t, net, n, FlushSite(t, n, net.sites[n], from));
  }

  lemma LoseKeeps(t: Topology, net: Net, k: nat)
    requires t.Tree() && Inv(t, net) && k < |net.flight|
    ensures Inv(t, AtLose(net, k))
  {
    RemovePacket(t, net, k);
    hide SiteOk, PacketOk, ParcelOk;
  }

  /** Every enabled step of the network keeps the invariant. */
  lemma NextKeeps(t: Topology, net: Net, e: NetEvent)
    requires t.Tree() && Inv(t, net) && Enabled(t, net, e)
    ensures Inv(t, Next(t, net, e))
  {
    hide Inv, Topology.Tree, AtTick, AtAttach, AtDetach, AtStart, AtFlush, AtDeliver, AtLose, AtServe;
    match e {
      case Tick(n, x, now) => TickKeeps(t, net, n, x, now);
      case Attach(n, c) => AttachKeeps(t, net, n, c);
      case Detach(n, c) => DetachKeeps(t, net, n, c);
      case StartService(n) => StartKeeps(t, net, n);
      case FlushRequest(n, from) => FlushKeeps(t, net, n, from);
      case Deliver(k, now) => DeliverKeeps(t, net, k, now);
      case Lose(k) => LoseKeeps(t, net, k);
      case Serve(n, clock) => ServeKeeps(t, net, n, clock);
    }
  }
}
