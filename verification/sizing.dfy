/**
 * The two tables together. With one fixed id per child, entries belong to the node or to a connected
 * child exactly as long as disconnects are size-safe, and then one slot more than the children table
 * has is enough; own steps equal ticks exactly as long as steps are tick-safe.
 */
module Sizing {
  import opened Types
  import opened Samples
  import opened Aggregate
  import opened Children
  import opened Node

  /** Each address has one id, no two share one, and none has the node's own. */
  predicate Assigned(cfg: Config, idOf: map<Mac, ModuleId>) {
    && (forall m :: m in idOf ==> idOf[m] != cfg.self)
    && (forall m, n :: m in idOf && n in idOf && idOf[m] == idOf[n] ==> m == n)
  }

  /** An entry belongs to the node or to a connected child, under that child's address. */
  predicate Belongs(cfg: Config, idOf: map<Mac, ModuleId>, macs: seq<Mac>, e: Entry) {
    e.id == cfg.self || (e.mac in macs && e.mac in idOf && idOf[e.mac] == e.id)
  }

  /** Listed addresses are known, and every entry belongs to the node or to a connected child. */
  predicate AllBelong(cfg: Config, idOf: map<Mac, ModuleId>, s: State) {
    && s.Valid()
    && (forall m :: m in s.kids.Macs() ==> m in idOf)
    && (forall i :: 0 <= i < s.agg.size ==> Belongs(cfg, idOf, s.kids.Macs(), s.agg.slots[i]))
  }

  /** The disconnect would not hit the node's own entry through bytes left in its slot. */
  predicate OwnSafe(cfg: Config, s: State, mac: Mac)
    requires s.Valid()
  {
    var k := LastByMac(s.agg.Live(), mac);
    k < 0 || s.agg.slots[k].id != cfg.self
  }

  /** Children are known addresses, and frames the children table claims are from the right module. */
  predicate Fitting(cfg: Config, idOf: map<Mac, ModuleId>, s: State, e: Event)
    requires s.Valid()
  {
    match e
    case ChildConnected(mac) => mac in idOf
    case Received(from, msg, _, _) =>
      (msg.SensorMsg? && from != cfg.sta && IsChild(s.kids, from, msg.id))
        ==> (from in idOf && idOf[from] == msg.id)
    case _ => true
  }

  /** No disconnect of a child hits the node's own entry while an entry of that child is there to stay behind. */
  predicate SizeSafe(cfg: Config, idOf: map<Mac, ModuleId>, s: State, e: Event)
    requires s.Valid()
  {
    (e.ChildDisconnected? && e.mac in idOf) ==> OwnSafe(cfg, s, e.mac) || !Has(s.agg.Live(), idOf[e.mac])
  }

  /** What a step takes in when nothing is refused for a full table. */
  function Offered(cfg: Config, s: State, e: Event): seq<Item>
    requires s.Valid()
  {
    match e
    case Timer(x, now) => [Accept(cfg.self, x, now)]
    case Received(from, SensorMsg(id, _, values), now, _) =>
      if from != cfg.sta && IsChild(s.kids, from, id) then [Accept(id, values, now)] else []
    case _ => []
  }

  predicate NothingRefused(cfg: Config, s: State, e: Event)
    requires s.Valid()
  {
    (e.Timer? || e.Received?) ==> Step(cfg, s, e).items == Offered(cfg, s, e)
  }

  // ---------------------------------------------------------------- the pigeonhole

  function Elements<T>(s: seq<T>): set<T> {
    set x | x in s
  }

  lemma {:induction false} AtMostLength<T>(s: seq<T>)
    ensures |Elements(s)| <= |s|
  {
    if s != [] {
      AtMostLength(s[1..]);
      assert Elements(s) == {s[0]} + Elements(s[1..]);
    }
  }

  lemma {:induction false} DistinctLength<T>(s: seq<T>)
    requires forall i, j :: 0 <= i < j < |s| ==> s[i] != s[j]
    ensures |Elements(s)| == |s|
  {
    if s != [] {
      DistinctLength(s[1..]);
      assert Elements(s) == {s[0]} + Elements(s[1..]);
    }
  }

  lemma SubsetSize<T>(a: set<T>, b: set<T>)
    requires a <= b
    ensures |a| <= |b|
  {
    assert b == a + (b - a);
  }

  /** If entries belong to the node or its children, a module of either sort still finds room. */
  lemma RoomForOne(cfg: Config, idOf: map<Mac, ModuleId>, macs: seq<Mac>, live: seq<Entry>, id: ModuleId)
    requires UniqueIds(live) && !Has(live, id)
    requires forall i :: 0 <= i < |live| ==> Belongs(cfg, idOf, macs, live[i])
    requires id == cfg.self || exists m :: m in macs && m in idOf && idOf[m] == id
    ensures |live| <= |macs|
  {
    var names := seq(|macs|, i requires 0 <= i < |macs| =>
      if macs[i] in idOf then idOf[macs[i]] else cfg.self);
    var ids := IdsOf(live) + [id];
    var room := [cfg.self] + names;
    forall x | x in ids
      ensures x in room
    {
      if x != cfg.self {
        var m :| m in macs && m in idOf && idOf[m] == x;
        var i :| 0 <= i < |macs| && macs[i] == m;
        assert names[i] == x;
        assert room[i + 1] == x;
      }
    }
    forall i, j | 0 <= i < j < |ids|
      ensures ids[i] != ids[j]
    {
      assert ids[i] == live[i].id;
    }
    DistinctLength(ids);
    AtMostLength(room);
    SubsetSize(Elements(ids), Elements(room));
  }

  // ---------------------------------------------------------------- one step

  lemma NeverFull(cfg: Config, idOf: map<Mac, ModuleId>, s: State, id: ModuleId, x: Sample, now: Instant)
    requires AllBelong(cfg, idOf, s) && |s.agg.slots| > |s.kids.macs|
    requires id == cfg.self || exists m :: m in s.kids.Macs() && m in idOf && idOf[m] == id
    ensures Push(s.agg, id, x, now).1 >= 0
  {
    PushValid(s.agg, id, x, now);
    if !Has(s.agg.Live(), id) {
      RoomForOne(cfg, idOf, s.kids.Macs(), s.agg.Live(), id);
    }
  }

  lemma PushBelongs(cfg: Config, idOf: map<Mac, ModuleId>, s: State, x: Sample, now: Instant)
    requires AllBelong(cfg, idOf, s)
    ensures AllBelong(cfg, idOf, OnTimer(cfg, s, x, now).state)
  {
    PushValid(s.agg, cfg.self, x, now);
    var (t, k) := Push(s.agg, cfg.self, x, now);
    assert forall i :: 0 <= i < t.size ==>
             t.slots[i].id == cfg.self || (i < s.agg.size && t.slots[i] == s.agg.slots[i]);
  }

  lemma SensorBelongs(cfg: Config, idOf: map<Mac, ModuleId>, s: State, from: Mac, msg: Msg, now: Instant, root: bool)
    requires AllBelong(cfg, idOf, s) && msg.SensorMsg?
    requires IsChild(s.kids, from, msg.id) && from in idOf && idOf[from] == msg.id
    ensures AllBelong(cfg, idOf, OnSensor(s, from, msg, now, root).state)
  {
    PushValid(s.agg, msg.id, msg.values, now);
    var (t, k) := Push(s.agg, msg.id, msg.values, now);
    var t' := Associate(t, msg.id, from);
    AssociateLive(t, msg.id, from);
    forall i | 0 <= i < t'.size
      ensures Belongs(cfg, idOf, s.kids.Macs(), t'.slots[i])
    {
      assert t.slots[i].id != msg.id ==> i < s.agg.size && t.slots[i] == s.agg.slots[i];
    }
  }

  lemma JoinBelongs(cfg: Config, idOf: map<Mac, ModuleId>, s: State, mac: Mac)
    requires AllBelong(cfg, idOf, s) && mac in idOf
    ensures AllBelong(cfg, idOf, s.(kids := PushChild(s.kids, mac).0))
  {
    PushChildKeeps(s.kids, mac);
  }

  /** An entry of a child is found under that child's address and no other. */
  lemma UnderOwnAddress(cfg: Config, idOf: map<Mac, ModuleId>, s: State, mac: Mac, i: nat)
    requires AllBelong(cfg, idOf, s) && Assigned(cfg, idOf) && i < s.agg.size
    requires s.agg.slots[i].id != cfg.self
    ensures s.agg.slots[i].mac == mac <==> mac in idOf && s.agg.slots[i].id == idOf[mac]
  {
    assert Belongs(cfg, idOf, s.kids.Macs(), s.agg.slots[i]);
  }

  lemma DisconnectIds(s: State, mac: Mac)
    requires s.Valid()
    ensures var s' := OnDisconnect(s, mac).state;
            var k := LastByMac(s.agg.Live(), mac);
            && s'.Valid()
            && (forall m :: m in s'.kids.Macs() <==> m in s.kids.Macs() && m != mac)
            && (forall id :: Has(s'.agg.Live(), id)
                  <==> Has(s.agg.Live(), id) && (k < 0 || id != s.agg.slots[k].id))
  {
    PopChildKeeps(s.kids, mac);
    var k := LastByMac(s.agg.Live(), mac);
    if k >= 0 {
      PopValid(s.agg, k);
    }
  }

  lemma StaysWithout(cfg: Config, idOf: map<Mac, ModuleId>, s: State, mac: Mac, e: Entry)
    requires s.Valid() && PopChild(s.kids, mac).Valid()
    requires forall m :: m in PopChild(s.kids, mac).Macs() <==> m in s.kids.Macs() && m != mac
    requires Belongs(cfg, idOf, s.kids.Macs(), e) && (e.id == cfg.self || e.mac != mac)
    ensures Belongs(cfg, idOf, PopChild(s.kids, mac).Macs(), e)
  {
  }

  /** After a size-safe disconnect no entry of a child is left under the departed address. */
  lemma OthersElsewhere(cfg: Config, idOf: map<Mac, ModuleId>, s: State, mac: Mac, j: nat)
    requires AllBelong(cfg, idOf, s) && Assigned(cfg, idOf) && SizeSafe(cfg, idOf, s, ChildDisconnected(mac))
    requires j < s.agg.size && j != LastByMac(s.agg.Live(), mac)
    ensures s.agg.slots[j].id == cfg.self || s.agg.slots[j].mac != mac
  {
    var live := s.agg.Live();
    var k := LastByMac(live, mac);
    assert live[j] == s.agg.slots[j];
    if s.agg.slots[j].id != cfg.self {
      UnderOwnAddress(cfg, idOf, s, mac, j);
    }
    if k >= 0 {
      assert live[k] == s.agg.slots[k] && live[k].id != live[j].id;
      if s.agg.slots[k].id != cfg.self {
        UnderOwnAddress(cfg, idOf, s, mac, k);
      }
    }
  }

  lemma PoppedEntry(t: Table, k: nat, i: nat)
    requires t.InBounds() && k < t.size && i < t.size - 1
    ensures i < |PopAt(t, k).slots| && PopAt(t, k).slots[i] == t.slots[if i < k then i else i + 1]
  {
    PopIsShift(t, k);
    hide PopAt;
  }

  /** The entries after a disconnect are the others, in their order. */
  lemma DisconnectEntry(s: State, mac: Mac, i: nat) returns (j: nat)
    requires s.Valid() && i < OnDisconnect(s, mac).state.agg.size
    ensures j < s.agg.size && j != LastByMac(s.agg.Live(), mac)
    ensures i < |OnDisconnect(s, mac).state.agg.slots| && OnDisconnect(s, mac).state.agg.slots[i] == s.agg.slots[j]
  {
    hide PopAt, PopChild, UniqueIds, Kids.Valid;
    var k := LastByMac(s.agg.Live(), mac);
    j := i;
    if k >= 0 {
      PoppedEntry(s.agg, k, i);
      j := if i < k then i else i + 1;
    }
  }

  lemma DisconnectBelongs(cfg: Config, idOf: map<Mac, ModuleId>, s: State, mac: Mac)
    requires AllBelong(cfg, idOf, s) && Assigned(cfg, idOf) && SizeSafe(cfg, idOf, s, ChildDisconnected(mac))
    ensures AllBelong(cfg, idOf, OnDisconnect(s, mac).state)
  {
    hide Belongs, SizeSafe, Assigned, PopAt, UniqueIds;
    var r := OnDisconnect(s, mac).state;
    PopChildKeeps(s.kids, mac);
    DisconnectIds(s, mac);
    forall i | 0 <= i < r.agg.size
      ensures Belongs(cfg, idOf, r.kids.Macs(), r.agg.slots[i])
    {
      var j := DisconnectEntry(s, mac, i);
      OthersElsewhere(cfg, idOf, s, mac, j);
      StaysWithout(cfg, idOf, s, mac, s.agg.slots[j]);
    }
  }

  /** An entry of the departed child that stays behind belongs to nobody. */
  lemma LeftBehind(cfg: Config, idOf: map<Mac, ModuleId>, s: State, mac: Mac)
    requires AllBelong(cfg, idOf, s) && Assigned(cfg, idOf) && !SizeSafe(cfg, idOf, s, ChildDisconnected(mac))
    ensures !AllBelong(cfg, idOf, OnDisconnect(s, mac).state)
  {
    hide PopAt, PopChild;
    DisconnectIds(s, mac);
    var k := LastByMac(s.agg.Live(), mac);
    var r := OnDisconnect(s, mac).state;
    assert s.agg.Live()[k] == s.agg.slots[k];
    assert Has(r.agg.Live(), idOf[mac]);
    var i :| 0 <= i < r.agg.size && r.agg.Live()[i].id == idOf[mac];
    assert r.agg.slots[i] == r.agg.Live()[i];
    assert !Belongs(cfg, idOf, r.kids.Macs(), r.agg.slots[i]);
  }

  /**
   * Whether entries still belong to the node or to a connected child after a step is decided by
   * disconnects alone: they do if and only if the step is size-safe. Ticks and table sizes do not matter.
   */
  lemma BelongIffSizeSafe(cfg: Config, idOf: map<Mac, ModuleId>, s: State, e: Event)
    requires AllBelong(cfg, idOf, s) && Assigned(cfg, idOf) && Fitting(cfg, idOf, s, e)
    ensures AllBelong(cfg, idOf, Step(cfg, s, e).state) <==> SizeSafe(cfg, idOf, s, e)
  {
    match e {
      case Timer(x, now) => PushBelongs(cfg, idOf, s, x, now);
      case ChildConnected(mac) => JoinBelongs(cfg, idOf, s, mac);
      case ChildDisconnected(mac) =>
        if SizeSafe(cfg, idOf, s, e) {
          DisconnectBelongs(cfg, idOf, s, mac);
        } else {
          LeftBehind(cfg, idOf, s, mac);
        }
      case Started(_, _) =>
      case Received(from, msg, now, root) =>
        if from != cfg.sta && msg.SensorMsg? && IsChild(s.kids, from, msg.id) {
          SensorBelongs(cfg, idOf, s, from, msg, now, root);
        } else if msg.AdvMsg? {
          SetChildIdKeeps(s.kids, msg.mac, msg.id);
        }
      case Served(_, _) =>
    }
  }

  /** While entries belong, a table larger than the children table refuses nothing. */
  lemma BelongRefusesNothing(cfg: Config, idOf: map<Mac, ModuleId>, s: State, e: Event)
    requires AllBelong(cfg, idOf, s) && |s.agg.slots| > |s.kids.macs| && Fitting(cfg, idOf, s, e)
    ensures NothingRefused(cfg, s, e)
  {
    if e.Timer? {
      NeverFull(cfg, idOf, s, cfg.self, e.x, e.now);
    } else if e.Received? && e.msg.SensorMsg? && e.from != cfg.sta && IsChild(s.kids, e.from, e.msg.id) {
      assert e.from in s.kids.Macs();
      NeverFull(cfg, idOf, s, e.msg.id, e.msg.values, e.now);
    }
  }

  // ---------------------------------------------------------------- disconnect cleanup

  /** Nothing of the departed child is left in either table, and nothing else is gone. */
  ghost predicate Cleaned(idOf: map<Mac, ModuleId>, s: State, s': State, mac: Mac)
    requires s.Valid() && s'.Valid() && mac in idOf
  {
    && mac !in s'.kids.Macs()
    && (forall m :: m in s.kids.Macs() && m != mac ==> m in s'.kids.Macs())
    && (forall id :: Has(s'.agg.Live(), id) <==> Has(s.agg.Live(), id) && id != idOf[mac])
  }

  /** The last entry under a child's address is the child's, unless it is the node's own. */
  lemma LastIsChilds(cfg: Config, idOf: map<Mac, ModuleId>, s: State, mac: Mac)
    requires AllBelong(cfg, idOf, s) && Assigned(cfg, idOf) && mac in idOf
    ensures var k := LastByMac(s.agg.Live(), mac);
            if k < 0 then !Has(s.agg.Live(), idOf[mac])
            else s.agg.slots[k].id == cfg.self || s.agg.slots[k].id == idOf[mac]
  {
    var live := s.agg.Live();
    var k := LastByMac(live, mac);
    if k >= 0 {
      assert live[k] == s.agg.slots[k];
      if live[k].id != cfg.self {
        UnderOwnAddress(cfg, idOf, s, mac, k);
      }
    }
  }

  /** A disconnect cleans up if and only if it does not hit the node's own entry. */
  lemma DisconnectCleansUp(cfg: Config, idOf: map<Mac, ModuleId>, s: State, mac: Mac)
    requires AllBelong(cfg, idOf, s) && Assigned(cfg, idOf) && mac in idOf
    ensures OnDisconnect(s, mac).state.Valid()
    ensures Cleaned(idOf, s, OnDisconnect(s, mac).state, mac) <==> OwnSafe(cfg, s, mac)
  {
    DisconnectIds(s, mac);
    LastIsChilds(cfg, idOf, s, mac);
    var s' := OnDisconnect(s, mac).state;
    var k := LastByMac(s.agg.Live(), mac);
    if OwnSafe(cfg, s, mac) {
      assert Cleaned(idOf, s, s', mac);
    } else {
      assert s.agg.Live()[k].id == cfg.self;
      assert Has(s.agg.Live(), cfg.self) && !Has(s'.agg.Live(), cfg.self);
    }
  }

  // ---------------------------------------------------------------- runs

  /** The children that have advertised since they last connected. */
  function NextAdvertised(cfg: Config, s: State, adv: set<Mac>, e: Event): set<Mac>
    requires s.Valid()
  {
    match e
    case ChildDisconnected(mac) => adv - {mac}
    case Received(from, AdvMsg(_, mac), _, _) =>
      if from != cfg.sta && from == mac && mac in s.kids.Macs() then adv + {mac} else adv
    case _ => adv
  }

  /** Children advertise their one id, and do so before their first SENSOR frame. */
  predicate Conducted(idOf: map<Mac, ModuleId>, s: State, adv: set<Mac>, e: Event)
    requires s.Valid()
  {
    match e
    case ChildConnected(mac) => mac in idOf
    case Received(from, AdvMsg(id, mac), _, _) => (from == mac && from in idOf) ==> id == idOf[from]
    case Received(from, SensorMsg(_, _, _), _, _) => from in s.kids.Macs() ==> from in adv
    case _ => true
  }

  predicate AdvertisedIds(idOf: map<Mac, ModuleId>, s: State, adv: set<Mac>)
    requires s.Valid()
  {
    forall m :: m in adv ==> m in idOf && IsChild(s.kids, m, idOf[m])
  }

  lemma ConductedFits(cfg: Config, idOf: map<Mac, ModuleId>, s: State, adv: set<Mac>, e: Event)
    requires s.Valid() && AdvertisedIds(idOf, s, adv) && Conducted(idOf, s, adv, e)
    ensures Fitting(cfg, idOf, s, e)
  {
  }

  lemma BelongValid(cfg: Config, idOf: map<Mac, ModuleId>, s: State)
    requires AllBelong(cfg, idOf, s)
    ensures s.Valid() && forall m :: m in s.kids.Macs() ==> m in idOf
  {
  }

  lemma AdvertisedKept(cfg: Config, idOf: map<Mac, ModuleId>, s: State, adv: set<Mac>, e: Event)
    requires AllBelong(cfg, idOf, s) && AdvertisedIds(idOf, s, adv) && Conducted(idOf, s, adv, e)
    ensures Step(cfg, s, e).state.Valid()
    ensures AdvertisedIds(idOf, Step(cfg, s, e).state, NextAdvertised(cfg, s, adv, e))
  {
    hide AllBelong, Belongs, UniqueIds, Push, Associate, Drain;
    BelongValid(cfg, idOf, s);
    StepValid(cfg, s, e);
    match e {
      case ChildConnected(mac) => PushChildKeeps(s.kids, mac);
      case ChildDisconnected(mac) => PopChildKeeps(s.kids, mac);
      case Received(from, AdvMsg(id, mac), _, _) => SetChildIdKeeps(s.kids, mac, id);
      case _ =>
    }
  }

  /** A run all of whose children are conducted, whatever the disconnects hit. */
  predicate RunConducted(cfg: Config, idOf: map<Mac, ModuleId>, s: State, adv: set<Mac>, es: seq<Event>)
    requires s.Valid()
    decreases |es|
  {
    es == [] ||
    (StepValid(cfg, s, es[0]);
     && Conducted(idOf, s, adv, es[0])
     && RunConducted(cfg, idOf, Step(cfg, s, es[0]).state, NextAdvertised(cfg, s, adv, es[0]), es[1..]))
  }

  predicate RunRefusesNothing(cfg: Config, s: State, es: seq<Event>)
    requires s.Valid()
    decreases |es|
  {
    es == [] ||
    (StepValid(cfg, s, es[0]);
     NothingRefused(cfg, s, es[0]) && RunRefusesNothing(cfg, Step(cfg, s, es[0]).state, es[1..]))
  }

  predicate RunSizeSafe(cfg: Config, idOf: map<Mac, ModuleId>, s: State, es: seq<Event>)
    requires s.Valid()
    decreases |es|
  {
    es == [] ||
    (StepValid(cfg, s, es[0]);
     SizeSafe(cfg, idOf, s, es[0]) && RunSizeSafe(cfg, idOf, Step(cfg, s, es[0]).state, es[1..]))
  }

  /** In every state of the run each entry belongs to the node or to a child then connected. */
  predicate RunBelongs(cfg: Config, idOf: map<Mac, ModuleId>, s: State, es: seq<Event>)
    requires s.Valid()
    decreases |es|
  {
    && AllBelong(cfg, idOf, s)
    && (es == [] || (StepValid(cfg, s, es[0]); RunBelongs(cfg, idOf, Step(cfg, s, es[0]).state, es[1..])))
  }

  lemma {:induction false} RunBelongsIff(cfg: Config, idOf: map<Mac, ModuleId>, s: State, adv: set<Mac>, es: seq<Event>)
    requires AllBelong(cfg, idOf, s) && Assigned(cfg, idOf) && AdvertisedIds(idOf, s, adv)
    requires RunConducted(cfg, idOf, s, adv, es)
    ensures RunBelongs(cfg, idOf, s, es) <==> RunSizeSafe(cfg, idOf, s, es)
    decreases |es|
  {
    hide AllBelong, SizeSafe, Fitting, Conducted, AdvertisedIds, NextAdvertised, Step;
    if es != [] {
      var e := es[0];
      BelongValid(cfg, idOf, s);
      StepValid(cfg, s, e);
      ConductedFits(cfg, idOf, s, adv, e);
      BelongIffSizeSafe(cfg, idOf, s, e);
      AdvertisedKept(cfg, idOf, s, adv, e);
      var s' := Step(cfg, s, e).state;
      if AllBelong(cfg, idOf, s') {
        RunBelongsIff(cfg, idOf, s', NextAdvertised(cfg, s, adv, e), es[1..]);
      } else {
        assert !RunBelongs(cfg, idOf, s', es[1..]);
      }
    }
  }

  lemma BootBelongs(cfg: Config, idOf: map<Mac, ModuleId>, aggSlots: nat, kidSlots: nat)
    ensures AllBelong(cfg, idOf, Boot(aggSlots, kidSlots))
  {
  }

  /**
   * In a run from boot, for any table sizes and whatever the disconnects, as long as children advertise
   * their one id before they send: every entry belongs to the node or to a connected child in every
   * state if and only if every step is size-safe.
   */
  lemma EntriesBelongIff(cfg: Config, idOf: map<Mac, ModuleId>, aggSlots: nat, kidSlots: nat, es: seq<Event>)
    requires Assigned(cfg, idOf) && RunConducted(cfg, idOf, Boot(aggSlots, kidSlots), {}, es)
    ensures RunBelongs(cfg, idOf, Boot(aggSlots, kidSlots), es)
            <==> RunSizeSafe(cfg, idOf, Boot(aggSlots, kidSlots), es)
  {
    BootBelongs(cfg, idOf, aggSlots, kidSlots);
    RunBelongsIff(cfg, idOf, Boot(aggSlots, kidSlots), {}, es);
  }

  lemma {:induction false} BelongsRefusesNothing(cfg: Config, idOf: map<Mac, ModuleId>, s: State, adv: set<Mac>,
                                                 l: seq<Item>, es: seq<Event>)
    requires s.Valid() && RunBelongs(cfg, idOf, s, es)
    requires AdvertisedIds(idOf, s, adv) && RunConducted(cfg, idOf, s, adv, es)
    requires |s.agg.slots| > |s.kids.macs|
    ensures RunRefusesNothing(cfg, s, es)
    ensures AllBelong(cfg, idOf, Run(cfg, s, l, es).0)
    decreases |es|
  {
    hide AllBelong, Fitting, Conducted, AdvertisedIds, NextAdvertised, Step, NothingRefused;
    if es != [] {
      var e := es[0];
      BelongValid(cfg, idOf, s);
      StepValid(cfg, s, e);
      ConductedFits(cfg, idOf, s, adv, e);
      BelongRefusesNothing(cfg, idOf, s, e);
      AdvertisedKept(cfg, idOf, s, adv, e);
      var r := Step(cfg, s, e);
      BelongsRefusesNothing(cfg, idOf, r.state, NextAdvertised(cfg, s, adv, e), l + r.items, es[1..]);
    }
  }

  lemma BelongingFit(cfg: Config, idOf: map<Mac, ModuleId>, s: State)
    requires AllBelong(cfg, idOf, s)
    ensures s.Valid() && s.agg.size <= s.kids.size + 1
  {
    if s.agg.size > 0 {
      var live := s.agg.Live();
      var last := live[|live| - 1];
      assert last == s.agg.slots[s.agg.size - 1];
      RoomForOne(cfg, idOf, s.kids.Macs(), live[..|live| - 1], last.id);
    }
  }

  /**
   * The sizing claim: with one aggregation slot more than children slots, a run refuses no sample as
   * long as children advertise before they send and disconnects are size-safe; every entry then
   * belongs to the node or to a connected child.
   */
  lemma OneMoreSlotSuffices(cfg: Config, idOf: map<Mac, ModuleId>, aggSlots: nat, kidSlots: nat, es: seq<Event>)
    requires Assigned(cfg, idOf) && aggSlots > kidSlots
    requires RunConducted(cfg, idOf, Boot(aggSlots, kidSlots), {}, es)
    requires RunSizeSafe(cfg, idOf, Boot(aggSlots, kidSlots), es)
    ensures RunRefusesNothing(cfg, Boot(aggSlots, kidSlots), es)
    ensures var s := Run(cfg, Boot(aggSlots, kidSlots), [], es).0;
            && s.Valid() && s.agg.size <= s.kids.size + 1
            && (forall i :: 0 <= i < s.agg.size ==> Belongs(cfg, idOf, s.kids.Macs(), s.agg.slots[i]))
  {
    EntriesBelongIff(cfg, idOf, aggSlots, kidSlots, es);
    BelongsRefusesNothing(cfg, idOf, Boot(aggSlots, kidSlots), {}, [], es);
    BelongingFit(cfg, idOf, Run(cfg, Boot(aggSlots, kidSlots), [], es).0);
  }

  // ---------------------------------------------------------------- ticks and own steps

  /** The node's own entry counts the ticks. */
  predicate TicksAgree(cfg: Config, s: State)
    requires s.Valid()
  {
    && (forall i :: 0 <= i < s.agg.size && s.agg.slots[i].id == cfg.self ==> s.agg.slots[i].steps == s.ticks)
    && (s.ticks > 0 ==> Has(s.agg.Live(), cfg.self))
  }

  /** The steps of module m in the table, 0 without an entry. */
  function StepsOf(t: Table, m: ModuleId): nat
    requires t.InBounds()
  {
    var k := LastById(t.Live(), m);
    if k >= 0 then t.slots[k].steps else 0
  }

  lemma StepsAt(t: Table, m: ModuleId, i: nat)
    requires t.Valid() && i < t.size && t.slots[i].id == m
    ensures StepsOf(t, m) == t.slots[i].steps >= 1
  {
    assert t.Live()[i].id == m;
  }

  lemma StepsNone(t: Table, m: ModuleId)
    requires t.Valid()
    ensures StepsOf(t, m) == 0 <==> !Has(t.Live(), m)
  {
    var k := LastById(t.Live(), m);
    if k >= 0 {
      assert t.Live()[k] == t.slots[k];
    }
  }

  /** Agreement in one equation: an absent entry counts as no steps. */
  lemma AgreeIsEqual(cfg: Config, s: State)
    requires s.Valid()
    ensures TicksAgree(cfg, s) <==> StepsOf(s.agg, cfg.self) == s.ticks
  {
    StepsNone(s.agg, cfg.self);
    forall i | 0 <= i < s.agg.size && s.agg.slots[i].id == cfg.self
      ensures StepsOf(s.agg, cfg.self) == s.agg.slots[i].steps >= 1
    {
      StepsAt(s.agg, cfg.self, i);
    }
    var k := LastById(s.agg.Live(), cfg.self);
    if k >= 0 {
      assert s.agg.Live()[k] == s.agg.slots[k];
    }
  }

  lemma PushSteps(t: Table, id: ModuleId, x: Sample, now: Instant, m: ModuleId)
    requires t.Valid()
    ensures var (t', k) := Push(t, id, x, now);
            t'.Valid() && StepsOf(t', m) == StepsOf(t, m) + if k >= 0 && m == id then 1 else 0
  {
    PushValid(t, id, x, now);
    var (t', k) := Push(t, id, x, now);
    if k >= 0 {
      if m == id {
        StepsAt(t', m, k);
        StepsNone(t, m);
      } else {
        SameSteps(t, t', m);
      }
    }
  }

  /** Tables that list m alike count its steps alike. */
  lemma SameSteps(t: Table, t': Table, m: ModuleId)
    requires t.Valid() && t'.Valid()
    requires Has(t.Live(), m) <==> Has(t'.Live(), m)
    requires forall i :: 0 <= i < t.size && t.slots[i].id == m ==>
               exists j :: 0 <= j < t'.size && t'.slots[j].id == m && t'.slots[j].steps == t.slots[i].steps
    ensures StepsOf(t', m) == StepsOf(t, m)
  {
    StepsNone(t, m);
    StepsNone(t', m);
    var k := LastById(t.Live(), m);
    if k >= 0 {
      assert t.Live()[k] == t.slots[k];
      var j :| 0 <= j < t'.size && t'.slots[j].id == m && t'.slots[j].steps == t.slots[k].steps;
      StepsAt(t', m, j);
    }
  }

  lemma AssociateSteps(t: Table, id: ModuleId, mac: Mac, m: ModuleId)
    requires t.Valid()
    ensures Associate(t, id, mac).Valid() && StepsOf(Associate(t, id, mac), m) == StepsOf(t, m)
  {
    AssociateLive(t, id, mac);
    var t' := Associate(t, id, mac);
    assert forall i :: 0 <= i < t.size ==> t'.slots[i].id == t.slots[i].id && t'.slots[i].steps == t.slots[i].steps;
    SameSteps(t, t', m);
  }

  lemma PopSteps(t: Table, k: nat, m: ModuleId)
    requires t.Valid() && k < t.size
    ensures PopAt(t, k).Valid()
    ensures StepsOf(PopAt(t, k), m) == if t.slots[k].id == m then 0 else StepsOf(t, m)
  {
    PopValid(t, k);
    var t' := PopAt(t, k);
    StepsNone(t', m);
    if t.slots[k].id != m {
      forall i | 0 <= i < t.size && t.slots[i].id == m
        ensures exists j :: 0 <= j < t'.size && t'.slots[j].id == m && t'.slots[j].steps == t.slots[i].steps
      {
        var j := if i < k then i else i - 1;
        assert t'.slots[j] == t'.Live()[j] == t.Live()[i];
      }
      SameSteps(t, t', m);
    }
  }

  predicate Full(t: Table) {
    t.size == |t.slots|
  }

  /**
   * What a step must not do: have the node's own sample refused, delete the node's own entry, or
   * take in a frame that carries the node's own id.
   */
  predicate TickSafe(cfg: Config, s: State, e: Event)
    requires s.Valid()
  {
    match e
    case Timer(_, _) => Has(s.agg.Live(), cfg.self) || !Full(s.agg)
    case ChildDisconnected(mac) => OwnSafe(cfg, s, mac)
    case Received(from, SensorMsg(id, _, _), _, _) =>
      from == cfg.sta || id != cfg.self || !IsChild(s.kids, from, id)
      || (!Has(s.agg.Live(), cfg.self) && Full(s.agg))
    case _ => true
  }

  lemma TimerSteps(cfg: Config, s: State, x: Sample, now: Instant)
    requires s.Valid() && TicksAgree(cfg, s)
    ensures var s' := OnTimer(cfg, s, x, now).state;
            s'.Valid() && (TicksAgree(cfg, s') <==> TickSafe(cfg, s, Timer(x, now)))
  {
    hide TicksAgree, StepsOf;
    PushSteps(s.agg, cfg.self, x, now, cfg.self);
    PushValid(s.agg, cfg.self, x, now);
    AgreeIsEqual(cfg, s);
    AgreeIsEqual(cfg, OnTimer(cfg, s, x, now).state);
  }

  lemma DisconnectSteps(cfg: Config, s: State, mac: Mac)
    requires s.Valid() && TicksAgree(cfg, s)
    ensures var s' := OnDisconnect(s, mac).state;
            s'.Valid() && (TicksAgree(cfg, s') <==> OwnSafe(cfg, s, mac))
  {
    hide TicksAgree, StepsOf;
    DisconnectValid(s, mac);
    var k := LastByMac(s.agg.Live(), mac);
    if k >= 0 {
      PopSteps(s.agg, k, cfg.self);
      if s.agg.slots[k].id == cfg.self {
        StepsAt(s.agg, cfg.self, k);
      }
    }
    AgreeIsEqual(cfg, s);
    AgreeIsEqual(cfg, OnDisconnect(s, mac).state);
  }

  lemma SensorSteps(cfg: Config, s: State, from: Mac, msg: Msg, now: Instant, root: bool)
    requires s.Valid() && TicksAgree(cfg, s) && msg.SensorMsg? && from != cfg.sta
    ensures var s' := OnSensor(s, from, msg, now, root).state;
            s'.Valid() && (TicksAgree(cfg, s') <==> TickSafe(cfg, s, Received(from, msg, now, root)))
  {
    hide TicksAgree, StepsOf;
    SensorValid(s, from, msg, now, root);
    if IsChild(s.kids, from, msg.id) {
      PushValid(s.agg, msg.id, msg.values, now);
      PushSteps(s.agg, msg.id, msg.values, now, cfg.self);
      AssociateSteps(Push(s.agg, msg.id, msg.values, now).0, msg.id, from, cfg.self);
    }
    AgreeIsEqual(cfg, s);
    AgreeIsEqual(cfg, OnSensor(s, from, msg, now, root).state);
  }

  lemma SameAgreement(cfg: Config, s: State, s': State)
    requires s.Valid() && s'.Valid() && s'.agg == s.agg && s'.ticks == s.ticks
    ensures TicksAgree(cfg, s') <==> TicksAgree(cfg, s)
  {
  }

  lemma NoneAgree(cfg: Config, s: State)
    requires s.Valid() && s.agg.size == 0 && s.ticks == 0
    ensures TicksAgree(cfg, s)
  {
  }

  /** Agreement of ticks and own steps survives a step if and only if the step is tick-safe. */
  lemma AgreesIffTickSafe(cfg: Config, s: State, e: Event)
    requires s.Valid() && TicksAgree(cfg, s)
    ensures Step(cfg, s, e).state.Valid()
    ensures TicksAgree(cfg, Step(cfg, s, e).state) <==> TickSafe(cfg, s, e)
  {
    hide TicksAgree, OwnSafe, Push, PopAt, Drain;
    StepValid(cfg, s, e);
    match e {
      case Timer(x, now) => TimerSteps(cfg, s, x, now);
      case ChildDisconnected(mac) => DisconnectSteps(cfg, s, mac);
      case Received(from, msg, now, root) =>
        if msg.SensorMsg? && from != cfg.sta {
          SensorSteps(cfg, s, from, msg, now, root);
        } else {
          SameAgreement(cfg, s, Step(cfg, s, e).state);
        }
      case Served(_, _) =>
        if Ready(cfg, s) {
          NoneAgree(cfg, Step(cfg, s, e).state);
        }
      case _ => SameAgreement(cfg, s, Step(cfg, s, e).state);
    }
  }

  predicate RunTickSafe(cfg: Config, s: State, es: seq<Event>)
    requires s.Valid()
    decreases |es|
  {
    es == [] ||
    (StepValid(cfg, s, es[0]);
     TickSafe(cfg, s, es[0]) && RunTickSafe(cfg, Step(cfg, s, es[0]).state, es[1..]))
  }

  /** In every state of the run the own entry is there exactly when `ticks` is not 0, with that many steps. */
  predicate RunAgrees(cfg: Config, s: State, es: seq<Event>)
    requires s.Valid()
    decreases |es|
  {
    && TicksAgree(cfg, s)
    && (es == [] || (StepValid(cfg, s, es[0]); RunAgrees(cfg, Step(cfg, s, es[0]).state, es[1..])))
  }

  lemma {:induction false} RunAgreesIff(cfg: Config, s: State, es: seq<Event>)
    requires s.Valid() && TicksAgree(cfg, s)
    ensures RunAgrees(cfg, s, es) <==> RunTickSafe(cfg, s, es)
    decreases |es|
  {
    hide TicksAgree, TickSafe, Step;
    if es != [] {
      AgreesIffTickSafe(cfg, s, es[0]);
      var s' := Step(cfg, s, es[0]).state;
      if TicksAgree(cfg, s') {
        RunAgreesIff(cfg, s', es[1..]);
      } else {
        assert !RunAgrees(cfg, s', es[1..]);
      }
    }
  }

  /**
   * In a run from boot, whatever the table sizes and whatever the children do, ticks and own steps
   * agree in every state if and only if every step is tick-safe.
   */
  lemma OwnStepsAreTicks(cfg: Config, aggSlots: nat, kidSlots: nat, es: seq<Event>)
    ensures RunAgrees(cfg, Boot(aggSlots, kidSlots), es) <==> RunTickSafe(cfg, Boot(aggSlots, kidSlots), es)
  {
    RunAgreesIff(cfg, Boot(aggSlots, kidSlots), es);
  }

  // ---------------------------------------------------------------- both together

  /** Disconnects that spare the node's own entry are safe in both ways. */
  predicate Behaved(cfg: Config, idOf: map<Mac, ModuleId>, s: State, adv: set<Mac>, e: Event)
    requires s.Valid()
  {
    Conducted(idOf, s, adv, e) && (e.ChildDisconnected? ==> OwnSafe(cfg, s, e.mac))
  }

  predicate Good(cfg: Config, idOf: map<Mac, ModuleId>, s: State) {
    AllBelong(cfg, idOf, s) && |s.agg.slots| > |s.kids.macs| && TicksAgree(cfg, s)
  }

  /** Steps that fit and whose disconnects spare the own entry keep all of it, and refuse no sample. */
  lemma StepGood(cfg: Config, idOf: map<Mac, ModuleId>, s: State, e: Event)
    requires Good(cfg, idOf, s) && Assigned(cfg, idOf) && Fitting(cfg, idOf, s, e)
    requires e.ChildDisconnected? ==> OwnSafe(cfg, s, e.mac)
    ensures Good(cfg, idOf, Step(cfg, s, e).state)
    ensures NothingRefused(cfg, s, e)
  {
    BelongIffSizeSafe(cfg, idOf, s, e);
    BelongRefusesNothing(cfg, idOf, s, e);
    GoodIsTickSafe(cfg, idOf, s, e);
    hide AllBelong, TicksAgree, Fitting, TickSafe, OwnSafe, Step;
    StepValid(cfg, s, e);
    AgreesIffTickSafe(cfg, s, e);
  }

  lemma GoodIsTickSafe(cfg: Config, idOf: map<Mac, ModuleId>, s: State, e: Event)
    requires Good(cfg, idOf, s) && Assigned(cfg, idOf) && Fitting(cfg, idOf, s, e)
    requires e.ChildDisconnected? ==> OwnSafe(cfg, s, e.mac)
    ensures TickSafe(cfg, s, e)
  {
    hide TicksAgree;
    if e.Timer? {
      NeverFull(cfg, idOf, s, cfg.self, e.x, e.now);
      PushValid(s.agg, cfg.self, e.x, e.now);
    }
  }

  predicate RunBehaved(cfg: Config, idOf: map<Mac, ModuleId>, s: State, adv: set<Mac>, es: seq<Event>)
    requires s.Valid()
    decreases |es|
  {
    es == [] ||
    (StepValid(cfg, s, es[0]);
     && Behaved(cfg, idOf, s, adv, es[0])
     && RunBehaved(cfg, idOf, Step(cfg, s, es[0]).state, NextAdvertised(cfg, s, adv, es[0]), es[1..]))
  }

  lemma {:induction false} RunGood(cfg: Config, idOf: map<Mac, ModuleId>, s: State, adv: set<Mac>,
                                   l: seq<Item>, es: seq<Event>)
    requires Good(cfg, idOf, s) && Assigned(cfg, idOf) && AdvertisedIds(idOf, s, adv)
    requires RunBehaved(cfg, idOf, s, adv, es)
    ensures Good(cfg, idOf, Run(cfg, s, l, es).0)
    decreases |es|
  {
    hide AllBelong, TicksAgree, Fitting, Conducted, AdvertisedIds, NextAdvertised, Step, NothingRefused, OwnSafe;
    if es != [] {
      var e := es[0];
      BelongValid(cfg, idOf, s);
      StepValid(cfg, s, e);
      ConductedFits(cfg, idOf, s, adv, e);
      StepGood(cfg, idOf, s, e);
      AdvertisedKept(cfg, idOf, s, adv, e);
      var r := Step(cfg, s, e);
      RunGood(cfg, idOf, r.state, NextAdvertised(cfg, s, adv, e), l + r.items, es[1..]);
    }
  }

  lemma BootGood(cfg: Config, idOf: map<Mac, ModuleId>, kidSlots: nat)
    ensures Good(cfg, idOf, Boot(kidSlots + 1, kidSlots))
  {
  }

  /**
   * In particular ticks and steps agree in every behaved run: the node's own entry is there exactly when
   * `ticks` is not 0, and its step counter equals `ticks`.
   */
  lemma BehavedStepsAreTicks(cfg: Config, idOf: map<Mac, ModuleId>, kidSlots: nat, es: seq<Event>)
    requires Assigned(cfg, idOf)
    requires RunBehaved(cfg, idOf, Boot(kidSlots + 1, kidSlots), {}, es)
    ensures var s := Run(cfg, Boot(kidSlots + 1, kidSlots), [], es).0;
            && s.Valid()
            && var k := LastById(s.agg.Live(), cfg.self);
               (k < 0 <==> s.ticks == 0) && (k >= 0 ==> s.agg.slots[k].steps == s.ticks)
  {
    BootGood(cfg, idOf, kidSlots);
    RunGood(cfg, idOf, Boot(kidSlots + 1, kidSlots), {}, [], es);
    var s := Run(cfg, Boot(kidSlots + 1, kidSlots), [], es).0;
    var k := LastById(s.agg.Live(), cfg.self);
    if k >= 0 {
      assert s.agg.Live()[k] == s.agg.slots[k];
    }
  }

  // ---------------------------------------------------------------- a disconnect that is not own-safe

  lemma {:induction false} LedgerIrrelevant(cfg: Config, s: State, l: seq<Item>, m: seq<Item>, es: seq<Event>)
    requires s.Valid()
    ensures Run(cfg, s, l, es).0 == Run(cfg, s, m, es).0
    decreases |es|
  {
    if es != [] {
      StepValid(cfg, s, es[0]);
      var r := Step(cfg, s, es[0]);
      LedgerIrrelevant(cfg, r.state, l + r.items, m + r.items, es[1..]);
    }
  }

  /** From s, with adv advertised, the run es is conducted and leads to r; if safe, it is also behaved. */
  ghost predicate Leads(cfg: Config, idOf: map<Mac, ModuleId>, s: State, adv: set<Mac>, es: seq<Event>, r: State,
                        safe: bool)
  {
    && s.Valid() && Run(cfg, s, [], es).0 == r && RunConducted(cfg, idOf, s, adv, es)
    && (safe ==> RunBehaved(cfg, idOf, s, adv, es))
  }

  lemma LeadsNowhere(cfg: Config, idOf: map<Mac, ModuleId>, s: State, adv: set<Mac>, safe: bool)
    requires s.Valid()
    ensures Leads(cfg, idOf, s, adv, [], s, safe)
  {
  }

  lemma OneMoreEvent(cfg: Config, idOf: map<Mac, ModuleId>, s: State, adv: set<Mac>, e: Event, es: seq<Event>, r: State,
                     safe: bool)
    requires s.Valid() && Conducted(idOf, s, adv, e)
    requires safe && e.ChildDisconnected? ==> OwnSafe(cfg, s, e.mac)
    requires Leads(cfg, idOf, Step(cfg, s, e).state, NextAdvertised(cfg, s, adv, e), es, r, safe)
    ensures Leads(cfg, idOf, s, adv, [e] + es, r, safe)
  {
    hide Step, NextAdvertised, Conducted, OwnSafe;
    assert ([e] + es)[1..] == es;
    StepValid(cfg, s, e);
    LedgerIrrelevant(cfg, Step(cfg, s, e).state, [] + Step(cfg, s, e).items, [], es);
  }

  function Counting(id: ModuleId, mac: Mac): Entry {
    Entry(id, mac, EPOCH, 1, ZERO)
  }

  function Frame(from: Mac, id: ModuleId): Event {
    Received(from, SensorMsg(id, 0.0, ZERO), EPOCH, false)
  }

  const TICK: Event := Timer(ZERO, EPOCH)

  lemma Absent(t: Table, id: ModuleId)
    requires t.InBounds() && forall i :: 0 <= i < t.size ==> t.slots[i].id != id
    ensures LastById(t.Live(), id) == -1
  {
    assert forall i :: 0 <= i < t.size ==> t.Live()[i] == t.slots[i];
  }

  lemma Found(t: Table, id: ModuleId, k: nat)
    requires t.InBounds() && k < t.size && t.slots[k].id == id
    requires forall i :: 0 <= i < t.size && i != k ==> t.slots[i].id != id
    ensures LastById(t.Live(), id) == k
  {
    assert t.Live()[k] == t.slots[k];
    var j := LastById(t.Live(), id);
    assert j >= 0 ==> t.Live()[j] == t.slots[j];
  }

  /** A frame of a new module, claimed: it fills the first free slot. */
  lemma FrameFills(cfg: Config, s: State, from: Mac, id: ModuleId)
    requires s.Valid() && from != cfg.sta && IsChild(s.kids, from, id) && s.agg.size < |s.agg.slots|
    requires forall i :: 0 <= i < s.agg.size ==> s.agg.slots[i].id != id
    ensures Step(cfg, s, Frame(from, id)).state
         == s.(agg := Table(s.agg.slots[s.agg.size := Counting(id, from)], s.agg.size + 1))
  {
    hide Table.Valid, Kids.Valid, UniqueIds, IsChild;
    Absent(s.agg, id);
    var n := s.agg.size;
    var pushed := Table(s.agg.slots[n := Counting(id, s.agg.slots[n].mac)], n + 1);
    assert Push(s.agg, id, ZERO, EPOCH) == (pushed, n);
    Found(pushed, id, n);
    assert Associate(pushed, id, from) == Table(s.agg.slots[n := Counting(id, from)], n + 1);
  }

  /** The node's first own sample takes the first free slot, leftover address included. */
  lemma TickFills(cfg: Config, s: State)
    requires s.Valid() && s.agg.size < |s.agg.slots| && s.sensors == ZERO
    requires forall i :: 0 <= i < s.agg.size ==> s.agg.slots[i].id != cfg.self
    ensures Step(cfg, s, TICK).state
         == s.(agg := Table(s.agg.slots[s.agg.size := Counting(cfg.self, s.agg.slots[s.agg.size].mac)], s.agg.size + 1),
               ticks := s.ticks + 1)
  {
    Absent(s.agg, cfg.self);
  }

  /** The child a (or b) is listed with its id i; the table is given; the node is flushed. */
  function At(slots: seq<Entry>, size: nat, mac: Mac, i: ModuleId, ticks: nat): State {
    State(Table(slots, size), Kids([mac], [i], 1), ticks, ZERO, true)
  }

  lemma ListedChild(mac: Mac, i: ModuleId)
    ensures var kids := Kids([mac], [i], 1);
            kids.Valid() && kids.Macs() == [mac] && forall x :: IsChild(kids, mac, x) <==> x == i
  {
  }

  function Advertisement(mac: Mac, i: ModuleId): Event {
    Received(mac, AdvMsg(i, mac), EPOCH, false)
  }

  const DRAIN: Event := Served(Stopped(EPOCH), false)

  /** Connected, advertised and flushed: the way to At([BLANK, BLANK], 0, a, i, 0). */
  lemma Entrance(cfg: Config, idOf: map<Mac, ModuleId>, a: Mac, es: seq<Event>, r: State, safe: bool)
    requires a in idOf && a != cfg.sta
    requires Leads(cfg, idOf, At([BLANK, BLANK], 0, a, idOf[a], 0), {a}, es, r, safe)
    ensures Leads(cfg, idOf, Boot(2, 1), {},
                  [ChildConnected(a)] + ([Advertisement(a, idOf[a])] + ([Received(a, FlushMsg(0), EPOCH, false)] + es)),
                  r, safe)
  {
    var i := idOf[a];
    var flush := Received(a, FlushMsg(0), EPOCH, false);
    var s0 := Boot(2, 1);
    var s1 := State(Table([BLANK, BLANK], 0), Kids([a], [0], 1), 0, ZERO, false);
    var s2 := s1.(kids := Kids([a], [i], 1));
    var s3 := At([BLANK, BLANK], 0, a, i, 0);
    assert Step(cfg, s0, ChildConnected(a)).state == s1;
    assert s1.kids.Macs() == s2.kids.Macs() == [a];
    assert Step(cfg, s1, Advertisement(a, i)).state == s2;
    assert Step(cfg, s2, flush).state == s3;
    assert NextAdvertised(cfg, s1, {}, Advertisement(a, i)) == {a};
    hide Step, Leads;
    OneMoreEvent(cfg, idOf, s2, {a}, flush, es, r, safe);
    OneMoreEvent(cfg, idOf, s1, {}, Advertisement(a, i), [flush] + es, r, safe);
    OneMoreEvent(cfg, idOf, s0, {}, ChildConnected(a), [Advertisement(a, i)] + ([flush] + es), r, safe);
  }

  /** Both slots under the address of a, the second with the node's own entry. */
  function Stale(cfg: Config, a: Mac, i: ModuleId): State {
    At([Counting(i, a), Counting(cfg.self, a)], 2, a, i, 1)
  }

  /** Eight events on the way to Stale, then es. */
  function StaleRun(a: Mac, i: ModuleId, es: seq<Event>): seq<Event> {
    [ChildConnected(a)] + ([Advertisement(a, i)] + ([Received(a, FlushMsg(0), EPOCH, false)]
    + ([TICK] + ([Frame(a, i)] + ([DRAIN] + ([Frame(a, i)] + ([TICK] + es)))))))
  }

  lemma Filling(cfg: Config, idOf: map<Mac, ModuleId>, a: Mac, es: seq<Event>, r: State, safe: bool)
    requires a in idOf && a != cfg.sta && idOf[a] != cfg.self
    requires Leads(cfg, idOf, At([Counting(cfg.self, NO_MAC), Counting(idOf[a], a)], 0, a, idOf[a], 0), {a},
                   es, r, safe)
    ensures Leads(cfg, idOf, At([BLANK, BLANK], 0, a, idOf[a], 0), {a},
                  [TICK] + ([Frame(a, idOf[a])] + ([DRAIN] + es)), r, safe)
  {
    var i, own := idOf[a], Counting(cfg.self, NO_MAC);
    ListedChild(a, i);
    var s3 := At([BLANK, BLANK], 0, a, i, 0);
    var s4 := At([own, BLANK], 1, a, i, 1);
    var s5 := At([own, Counting(i, a)], 2, a, i, 1);
    TickFills(cfg, s3);
    assert [BLANK, BLANK][0 := own] == [own, BLANK];
    assert Step(cfg, s3, TICK).state == s4;
    FrameFills(cfg, s4, a, i);
    assert [own, BLANK][1 := Counting(i, a)] == [own, Counting(i, a)];
    assert Step(cfg, s4, Frame(a, i)).state == s5;
    assert Step(cfg, s5, DRAIN).state == At([own, Counting(i, a)], 0, a, i, 0);
    hide Step, Leads, IsChild, UniqueIds;
    OneMoreEvent(cfg, idOf, s5, {a}, DRAIN, es, r, safe);
    OneMoreEvent(cfg, idOf, s4, {a}, Frame(a, i), [DRAIN] + es, r, safe);
    OneMoreEvent(cfg, idOf, s3, {a}, TICK, [Frame(a, i)] + ([DRAIN] + es), r, safe);
  }

  lemma Refilling(cfg: Config, idOf: map<Mac, ModuleId>, a: Mac, es: seq<Event>, r: State, safe: bool)
    requires a in idOf && a != cfg.sta && idOf[a] != cfg.self
    requires Leads(cfg, idOf, Stale(cfg, a, idOf[a]), {a}, es, r, safe)
    ensures Leads(cfg, idOf, At([Counting(cfg.self, NO_MAC), Counting(idOf[a], a)], 0, a, idOf[a], 0), {a},
                  [Frame(a, idOf[a])] + ([TICK] + es), r, safe)
  {
    var i, own := idOf[a], Counting(cfg.self, NO_MAC);
    ListedChild(a, i);
    var s6 := At([own, Counting(i, a)], 0, a, i, 0);
    var s7 := At([Counting(i, a), Counting(i, a)], 1, a, i, 0);
    FrameFills(cfg, s6, a, i);
    assert [own, Counting(i, a)][0 := Counting(i, a)] == [Counting(i, a), Counting(i, a)];
    assert Step(cfg, s6, Frame(a, i)).state == s7;
    TickFills(cfg, s7);
    assert [Counting(i, a), Counting(i, a)][1 := Counting(cfg.self, a)] == [Counting(i, a), Counting(cfg.self, a)];
    assert Step(cfg, s7, TICK).state == Stale(cfg, a, i);
    hide Step, Leads, IsChild, UniqueIds;
    OneMoreEvent(cfg, idOf, s7, {a}, TICK, es, r, safe);
    OneMoreEvent(cfg, idOf, s6, {a}, Frame(a, i), [TICK] + es, r, safe);
  }

  lemma TowardsStale(cfg: Config, idOf: map<Mac, ModuleId>, a: Mac, es: seq<Event>, r: State, safe: bool)
    requires a in idOf && a != cfg.sta && idOf[a] != cfg.self
    requires Leads(cfg, idOf, Stale(cfg, a, idOf[a]), {a}, es, r, safe)
    ensures Leads(cfg, idOf, Boot(2, 1), {}, StaleRun(a, idOf[a], es), r, safe)
  {
    hide Leads;
    var i := idOf[a];
    Refilling(cfg, idOf, a, es, r, safe);
    Filling(cfg, idOf, a, [Frame(a, i)] + ([TICK] + es), r, safe);
    Entrance(cfg, idOf, a, [TICK] + ([Frame(a, i)] + ([DRAIN] + ([Frame(a, i)] + ([TICK] + es)))), r, safe);
  }

  /** The departed child's entry and that of the next child fill the table; the node's own entry is gone. */
  function Damaged(a: Mac, i: ModuleId, b: Mac, j: ModuleId): State {
    At([Counting(i, a), Counting(j, b)], 2, b, j, 1)
  }

  function Damaging(a: Mac, b: Mac, j: ModuleId): seq<Event> {
    [ChildDisconnected(a)] + ([ChildConnected(b)] + ([Advertisement(b, j)] + ([Frame(b, j)] + [])))
  }

  /** The disconnect of a deletes the node's own entry instead of that of a. */
  lemma WrongEntry(cfg: Config, a: Mac, i: ModuleId)
    requires i != cfg.self
    ensures var s := Stale(cfg, a, i);
            && s.Valid() && !OwnSafe(cfg, s, a) && Has(s.agg.Live(), i)
            && Step(cfg, s, ChildDisconnected(a)).state == s.(agg := Table(s.agg.slots, 1), kids := Kids([a], [i], 0))
  {
    var s := Stale(cfg, a, i);
    assert s.agg.Live() == s.agg.slots;
    assert s.agg.Live()[0].id == i;
    assert LastByMac(s.agg.Live(), a) == 1;
    PopLast(s.agg);
    assert s.kids.Macs() == [a];
    assert ShiftLeft([a], 0, 1) == [a] && ShiftLeft([i], 0, 1) == [i];
  }

  lemma AfterStale(cfg: Config, idOf: map<Mac, ModuleId>, a: Mac, b: Mac)
    requires Assigned(cfg, idOf) && a in idOf && b in idOf && a != b && a != cfg.sta && b != cfg.sta
    ensures Leads(cfg, idOf, Stale(cfg, a, idOf[a]), {a}, Damaging(a, b, idOf[b]),
                  Damaged(a, idOf[a], b, idOf[b]), false)
  {
    var i, j := idOf[a], idOf[b];
    WrongEntry(cfg, a, i);
    ListedChild(b, i);
    ListedChild(b, j);
    var slots := [Counting(i, a), Counting(cfg.self, a)];
    var s8 := Stale(cfg, a, i);
    var s9 := State(Table(slots, 1), Kids([a], [i], 0), 1, ZERO, true);
    var s10 := At(slots, 1, b, i, 1);
    var s11 := At(slots, 1, b, j, 1);
    var s12 := Damaged(a, i, b, j);
    assert s9.kids.Macs() == [];
    assert Step(cfg, s9, ChildConnected(b)).state == s10;
    assert Step(cfg, s10, Advertisement(b, j)).state == s11;
    assert NextAdvertised(cfg, s10, {}, Advertisement(b, j)) == {b};
    assert NextAdvertised(cfg, s8, {a}, ChildDisconnected(a)) == {};
    FrameFills(cfg, s11, b, j);
    assert s12.Valid();
    hide Step, Leads, IsChild, UniqueIds, LastByMac;
    LeadsNowhere(cfg, idOf, s12, {b}, false);
    OneMoreEvent(cfg, idOf, s11, {b}, Frame(b, j), [], s12, false);
    OneMoreEvent(cfg, idOf, s10, {}, Advertisement(b, j), [Frame(b, j)] + [], s12, false);
    OneMoreEvent(cfg, idOf, s9, {}, ChildConnected(b), [Advertisement(b, j)] + ([Frame(b, j)] + []), s12, false);
    OneMoreEvent(cfg, idOf, s8, {a}, ChildDisconnected(a),
                 [ChildConnected(b)] + ([Advertisement(b, j)] + ([Frame(b, j)] + [])), s12, false);
  }

  lemma DamagedRefuses(cfg: Config, a: Mac, i: ModuleId, b: Mac, j: ModuleId)
    requires i != cfg.self && j != cfg.self && i != j && a != b
    ensures var s := Damaged(a, i, b, j);
            s.Valid() && Has(s.agg.Live(), i) && a !in s.kids.Macs() && !NothingRefused(cfg, s, TICK)
  {
    var s := Damaged(a, i, b, j);
    assert s.agg.Live()[0].id == i;
    Absent(s.agg, cfg.self);
  }

  /**
   * From boot, a behaved run leads to a state whose next disconnect of `a` hits the node's own entry.
   * After that disconnect the entry of `a` stays behind, and once another child has taken the free
   * slot the node's own sample is refused, although every child has kept to the rules.
   */
  lemma StaleMacRun(cfg: Config, idOf: map<Mac, ModuleId>, a: Mac, b: Mac) returns (es: seq<Event>, more: seq<Event>)
    requires Assigned(cfg, idOf) && a in idOf && b in idOf && a != b && a != cfg.sta && b != cfg.sta
    ensures RunBehaved(cfg, idOf, Boot(2, 1), {}, es)
    ensures Run(cfg, Boot(2, 1), [], es).0.Valid()
    ensures !SizeSafe(cfg, idOf, Run(cfg, Boot(2, 1), [], es).0, ChildDisconnected(a))
    ensures more != [] && more[0] == ChildDisconnected(a) && RunConducted(cfg, idOf, Boot(2, 1), {}, es + more)
    ensures var s := Run(cfg, Boot(2, 1), [], es + more).0;
            && s.Valid() && a !in s.kids.Macs() && Has(s.agg.Live(), idOf[a])
            && !NothingRefused(cfg, s, TICK)
  {
    hide Step, IsChild, UniqueIds, LastByMac, RunBehaved, RunConducted, NothingRefused, OwnSafe;
    var i, j := idOf[a], idOf[b];
    WrongEntry(cfg, a, i);
    LeadsNowhere(cfg, idOf, Stale(cfg, a, i), {a}, true);
    TowardsStale(cfg, idOf, a, [], Stale(cfg, a, i), true);
    es := StaleRun(a, i, []);
    more := Damaging(a, b, j);
    AfterStale(cfg, idOf, a, b);
    TowardsStale(cfg, idOf, a, more, Damaged(a, i, b, j), false);
    assert StaleRun(a, i, more) == es + more;
    DamagedRefuses(cfg, a, i, b, j);
  }
}
