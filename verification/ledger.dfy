/**
 * The aggregation table against a plain log: at every point of every run the table holds exactly
 * the samples accepted since each module was last emitted or dropped, and nothing is lost.
 */
module Ledger {
  import opened Types
  import opened Samples
  import opened Aggregate
  import opened Node
  import opened Children

  /** Module `id`'s open samples p after one more item. */
  function After(p: seq<Sample>, item: Item, id: ModuleId): seq<Sample> {
    if item.Accept? then (if item.id == id then p + [item.x] else p)
    else if item.Emit? then (if item.report.id == id then [] else p)
    else if item.entry.id == id then []
    else p
  }

  /** The samples of a module accepted since its last report or drop. */
  function Pending(l: seq<Item>, id: ModuleId): seq<Sample> {
    if l == [] then [] else After(Pending(l[..|l| - 1], id), l[|l| - 1], id)
  }

  lemma PendingAppend(l: seq<Item>, item: Item, id: ModuleId)
    ensures Pending(l + [item], id) == After(Pending(l, id), item, id)
  {
    assert (l + [item])[..|l|] == l;
  }

  /** When the oldest of a module's open samples was accepted. */
  function Opened(l: seq<Item>, id: ModuleId): Instant {
    if l == [] then EPOCH
    else
      var front, item := l[..|l| - 1], l[|l| - 1];
      if item.Accept? && item.id == id && Pending(front, id) == [] then item.now else Opened(front, id)
  }

  lemma OpenedAppend(l: seq<Item>, item: Item, id: ModuleId)
    ensures Opened(l + [item], id)
         == if item.Accept? && item.id == id && Pending(l, id) == [] then item.now else Opened(l, id)
  {
    assert (l + [item])[..|l|] == l;
  }

  /** An entry stands for the logged samples p. */
  predicate Holds(e: Entry, p: seq<Sample>) {
    e.steps == |p| && forall c :: 0 <= c < CHANNELS ==> e.sums[c] == Sum(p, c)
  }

  /** The table holds the pending samples of every module and nothing else. */
  ghost predicate Refines(t: Table, l: seq<Item>) {
    && t.Valid()
    && (forall i :: 0 <= i < t.size ==> Holds(t.slots[i], Pending(l, t.slots[i].id)))
    && (forall i :: 0 <= i < t.size ==> t.slots[i].start == Opened(l, t.slots[i].id))
    && (forall id :: Pending(l, id) != [] ==> Has(t.Live(), id))
  }

  /** From one reading of the clock to the other it is so many seconds. */
  predicate Lasts(since: Instant, now: Instant, seconds: real) {
    since.sec as real + since.usec as real / 1000000.0 + seconds == now.sec as real + now.usec as real / 1000000.0
  }

  /** What an item closing a module must say about the samples it closes. */
  predicate Truthful(l: seq<Item>, item: Item) {
    match item
    case Accept(_, _, _) => true
    case Emit(r, now) =>
      var p := Pending(l, r.id);
      && p != [] && r.steps == |p| && (forall c :: 0 <= c < CHANNELS ==> r.means[c] == Mean(p, c))
      && Lasts(Opened(l, r.id), now, r.delta)
    case Drop(e) => Pending(l, e.id) != [] && Holds(e, Pending(l, e.id))
  }

  /** Every report carries the mean, number and time span of exactly the samples it closes. */
  predicate Faithful(l: seq<Item>) {
    l == [] || (Faithful(l[..|l| - 1]) && Truthful(l[..|l| - 1], l[|l| - 1]))
  }

  lemma FaithfulAppend(l: seq<Item>, item: Item)
    requires Faithful(l) && Truthful(l, item)
    ensures Faithful(l + [item])
  {
    assert (l + [item])[..|l|] == l;
  }

  lemma PushOpened(t: Table, l: seq<Item>, id: ModuleId, x: Sample, now: Instant)
    requires Refines(t, l) && Push(t, id, x, now).1 >= 0
    ensures var t' := Push(t, id, x, now).0;
            forall i :: 0 <= i < t'.size ==>
              i < |t'.slots| && t'.slots[i].start == Opened(l + [Accept(id, x, now)], t'.slots[i].id)
  {
    PushValid(t, id, x, now);
    var (t', k) := Push(t, id, x, now);
    forall i | 0 <= i < t'.size
      ensures t'.slots[i].start == Opened(l + [Accept(id, x, now)], t'.slots[i].id)
    {
      OpenedAppend(l, Accept(id, x, now), t'.slots[i].id);
      assert t'.Live()[i] == t'.slots[i];
      if i == k && k == t.size {
        assert !Has(t.Live(), id);
      } else {
        assert t.Live()[i] == t.slots[i];
      }
    }
  }

  lemma PushRefines(t: Table, l: seq<Item>, id: ModuleId, x: Sample, now: Instant)
    requires Refines(t, l)
    ensures var (t', k) := Push(t, id, x, now);
            Refines(t', if k >= 0 then l + [Accept(id, x, now)] else l)
  {
    PushValid(t, id, x, now);
    var (t', k) := Push(t, id, x, now);
    if k >= 0 {
      var l' := l + [Accept(id, x, now)];
      forall m ensures Pending(l', m) == if m == id then Pending(l, m) + [x] else Pending(l, m) {
        PendingAppend(l, Accept(id, x, now), m);
      }
      PushOpened(t, l, id, x, now);
      forall i | 0 <= i < t'.size
        ensures Holds(t'.slots[i], Pending(l', t'.slots[i].id))
      {
        var p := Pending(l, t'.slots[i].id);
        forall c | 0 <= c < CHANNELS
          ensures Sum(p + [x], c) == Sum(p, c) + x[c]
        {
          SumAppend(p, x, c);
        }
        assert t'.Live()[i] == t'.slots[i];
        if i == k && k == t.size {
          assert !Has(t.Live(), id);
        } else {
          assert t.Live()[i] == t.slots[i];
        }
      }
    }
  }

  lemma AssociateRefines(t: Table, l: seq<Item>, id: ModuleId, mac: Mac)
    requires Refines(t, l)
    ensures Refines(Associate(t, id, mac), l)
  {
    AssociateLive(t, id, mac);
  }

  lemma PopRefines(t: Table, l: seq<Item>, k: nat, item: Item)
    requires Refines(t, l) && k < t.size
    requires item == Drop(t.slots[k]) || (item.Emit? && item.report.id == t.slots[k].id)
    ensures Refines(PopAt(t, k), l + [item])
  {
    PopValid(t, k);
    var t' := PopAt(t, k);
    var id := t.slots[k].id;
    forall m
      ensures Pending(l + [item], m) == if m == id then [] else Pending(l, m)
      ensures Opened(l + [item], m) == Opened(l, m)
    {
      PendingAppend(l, item, m);
      OpenedAppend(l, item, m);
    }
    forall i | 0 <= i < t'.size
      ensures Holds(t'.slots[i], Pending(l + [item], t'.slots[i].id))
    {
      var j := if i < k then i else i + 1;
      assert t'.slots[i] == t'.Live()[i] == t.Live()[j] == t.slots[j];
      assert t.Live()[k].id != t.Live()[j].id;
    }
  }

  lemma EntryTruthful(t: Table, l: seq<Item>, k: nat, now: Instant)
    requires Refines(t, l) && k < t.size
    ensures Truthful(l, Drop(t.slots[k]))
    ensures Truthful(l, Emit(ReportOf(t.slots[k], now), now))
  {
  }

  /** The item of the last entry's report. */
  function EmitOf(s: seq<Entry>, clock: Clock): Item
    requires s != [] && s[|s| - 1].steps >= 1
  {
    var now := ReadAt(clock, |s| - 1);
    Emit(ReportOf(s[|s| - 1], now), now)
  }

  /** The ledger while the entries s are emitted one by one, the last first. */
  function Closing(l: seq<Item>, s: seq<Entry>, clock: Clock): seq<Item>
    requires forall i :: 0 <= i < |s| ==> s[i].steps >= 1
    decreases |s|
  {
    if s == [] then l else Closing(l + [EmitOf(s, clock)], s[..|s| - 1], clock)
  }

  lemma {:induction false} ClosingEmits(l: seq<Item>, s: seq<Entry>, clock: Clock)
    requires forall i :: 0 <= i < |s| ==> s[i].steps >= 1
    ensures Closing(l, s, clock) == l + Emits(Drain(s, clock), clock)
    decreases |s|
  {
    if s == [] {
      assert Emits(Drain(s, clock), clock) == [];
    } else {
      var r, rest := ReportOf(s[|s| - 1], ReadAt(clock, |s| - 1)), Drain(s[..|s| - 1], clock);
      ClosingEmits(l + [EmitOf(s, clock)], s[..|s| - 1], clock);
      DrainAt(s[..|s| - 1], clock);
      assert Emits([r] + rest, clock) == [EmitOf(s, clock)] + Emits(rest, clock);
    }
  }

  lemma EmitLastRefines(t: Table, l: seq<Item>, clock: Clock)
    requires Refines(t, l) && Faithful(l) && t.size > 0
    ensures var l' := l + [EmitOf(t.Live(), clock)];
            Refines(Table(t.slots, t.size - 1), l') && Faithful(l')
  {
    var k := t.size - 1;
    var now := ReadAt(clock, k);
    PopLast(t);
    EntryTruthful(t, l, k, now);
    assert t.Live()[k] == t.slots[k];
    PopRefines(t, l, k, EmitOf(t.Live(), clock));
    FaithfulAppend(l, EmitOf(t.Live(), clock));
  }

  lemma {:induction false} DrainRefines(t: Table, l: seq<Item>, clock: Clock)
    requires Refines(t, l) && Faithful(l)
    ensures Refines(Table(t.slots, 0), Closing(l, t.Live(), clock))
    ensures Faithful(Closing(l, t.Live(), clock))
    decreases t.size
  {
    if t.size == 0 {
      assert t == Table(t.slots, 0);
    } else {
      var t' := Table(t.slots, t.size - 1);
      EmitLastRefines(t, l, clock);
      DrainRefines(t', l + [EmitOf(t.Live(), clock)], clock);
      assert t.Live()[..t.size - 1] == t'.Live();
    }
  }

  /** The state after a step refines the ledger with the step's items, all of them truthful. */
  ghost predicate Accounted(r: Outcome, l: seq<Item>) {
    Refines(r.state.agg, l + r.items) && Faithful(l + r.items)
  }

  lemma TimerRefines(cfg: Config, s: State, l: seq<Item>, x: Sample, now: Instant)
    requires s.Valid() && Refines(s.agg, l) && Faithful(l)
    ensures Accounted(OnTimer(cfg, s, x, now), l)
  {
    assert l + [] == l;
    PushRefines(s.agg, l, cfg.self, x, now);
    FaithfulAppend(l, Accept(cfg.self, x, now));
  }

  lemma DisconnectRefines(s: State, l: seq<Item>, mac: Mac)
    requires s.Valid() && Refines(s.agg, l) && Faithful(l)
    ensures Accounted(OnDisconnect(s, mac), l)
  {
    assert l + [] == l;
    var k := LastByMac(s.agg.Live(), mac);
    if k >= 0 {
      EntryTruthful(s.agg, l, k, Instant(0, 0));
      PopRefines(s.agg, l, k, Drop(s.agg.slots[k]));
      FaithfulAppend(l, Drop(s.agg.slots[k]));
    }
  }

  lemma SensorRefines(s: State, l: seq<Item>, from: Mac, msg: Msg, now: Instant, root: bool)
    requires s.Valid() && msg.SensorMsg? && Refines(s.agg, l) && Faithful(l)
    ensures Accounted(OnSensor(s, from, msg, now, root), l)
  {
    assert l + [] == l;
    if IsChild(s.kids, from, msg.id) {
      var (t, k) := Push(s.agg, msg.id, msg.values, now);
      PushRefines(s.agg, l, msg.id, msg.values, now);
      FaithfulAppend(l, Accept(msg.id, msg.values, now));
      AssociateRefines(t, if k >= 0 then l + [Accept(msg.id, msg.values, now)] else l, msg.id, from);
    }
  }

  /** One step keeps the refinement and appends only truthful items. */
  lemma StepRefines(cfg: Config, s: State, l: seq<Item>, e: Event)
    requires s.Valid() && Refines(s.agg, l) && Faithful(l)
    ensures Accounted(Step(cfg, s, e), l)
  {
    hide Refines, Faithful, Push, Drain, Closing;
    assert l + [] == l;
    match e {
      case Timer(x, now) => TimerRefines(cfg, s, l, x, now);
      case ChildConnected(_) =>
      case ChildDisconnected(mac) => DisconnectRefines(s, l, mac);
      case Started(_, _) =>
      case Received(from, msg, now, root) =>
        if msg.SensorMsg? {
          SensorRefines(s, l, from, msg, now, root);
        }
      case Served(clock, _) =>
        DrainRefines(s.agg, l, clock);
        ClosingEmits(l, s.agg.Live(), clock);
    }
  }

  lemma {:induction false} RunRefines(cfg: Config, s: State, l: seq<Item>, es: seq<Event>)
    requires s.Valid() && Refines(s.agg, l) && Faithful(l)
    ensures var (s', l') := Run(cfg, s, l, es);
            s'.Valid() && Refines(s'.agg, l') && Faithful(l')
    decreases |es|
  {
    if es != [] {
      StepValid(cfg, s, es[0]);
      StepRefines(cfg, s, l, es[0]);
      var r := Step(cfg, s, es[0]);
      RunRefines(cfg, r.state, l + r.items, es[1..]);
    }
  }

  lemma BootRefines(aggSlots: nat, kidSlots: nat)
    ensures Refines(Boot(aggSlots, kidSlots).agg, []) && Faithful([])
  {
  }

  // ---------------------------------------------------------------- conservation

  /** A sum of channel values and the number of samples behind it. */
  datatype Tally = Tally(sum: real, count: nat)

  function Join(a: Tally, b: Tally): Tally {
    Tally(a.sum + b.sum, a.count + b.count)
  }

  const NOTHING: Tally := Tally(0.0, 0)

  function TakenBy(item: Item, id: ModuleId, c: nat): Tally
    requires c < CHANNELS
  {
    if item.Accept? && item.id == id then Tally(item.x[c], 1) else NOTHING
  }

  function ReportedBy(item: Item, id: ModuleId, c: nat): Tally
    requires c < CHANNELS
  {
    if item.Emit? && item.report.id == id
    then Tally(item.report.steps as real * item.report.means[c], item.report.steps)
    else NOTHING
  }

  function DroppedBy(item: Item, id: ModuleId, c: nat): Tally
    requires c < CHANNELS
  {
    if item.Drop? && item.entry.id == id then Tally(item.entry.sums[c], item.entry.steps) else NOTHING
  }

  /** The samples of module `id` taken in by the table. */
  function Taken(l: seq<Item>, id: ModuleId, c: nat): Tally
    requires c < CHANNELS
  {
    if l == [] then NOTHING else Join(Taken(l[..|l| - 1], id, c), TakenBy(l[|l| - 1], id, c))
  }

  /** What the emitted reports account for: steps times mean. */
  function Reported(l: seq<Item>, id: ModuleId, c: nat): Tally
    requires c < CHANNELS
  {
    if l == [] then NOTHING else Join(Reported(l[..|l| - 1], id, c), ReportedBy(l[|l| - 1], id, c))
  }

  /** What disconnects threw away. */
  function Dropped(l: seq<Item>, id: ModuleId, c: nat): Tally
    requires c < CHANNELS
  {
    if l == [] then NOTHING else Join(Dropped(l[..|l| - 1], id, c), DroppedBy(l[|l| - 1], id, c))
  }

  /** What the table still holds. */
  function Held(t: Table, id: ModuleId, c: nat): Tally
    requires t.InBounds() && c < CHANNELS
  {
    var k := LastById(t.Live(), id);
    if k >= 0 then Tally(t.slots[k].sums[c], t.slots[k].steps) else NOTHING
  }

  lemma ReportWeighs(p: seq<Sample>, r: Report, c: nat)
    requires c < CHANNELS && p != [] && r.steps == |p| && r.means[c] == Mean(p, c)
    ensures r.steps as real * r.means[c] == Sum(p, c)
  {
    DivideBack(Sum(p, c), |p|);
  }

  function Weight(p: seq<Sample>, c: nat): Tally
    requires c < CHANNELS
  {
    Tally(Sum(p, c), |p|)
  }

  lemma ItemBalances(p: seq<Sample>, item: Item, id: ModuleId, c: nat)
    requires c < CHANNELS
    requires item.Emit? && item.report.id == id ==>
               p != [] && item.report.steps == |p| && item.report.means[c] == Mean(p, c)
    requires item.Drop? && item.entry.id == id ==> Holds(item.entry, p)
    ensures Join(Weight(p, c), TakenBy(item, id, c))
         == Join(Weight(After(p, item, id), c), Join(ReportedBy(item, id, c), DroppedBy(item, id, c)))
  {
    if item.Accept? {
      SumAppend(p, item.x, c);
    } else if item.Emit? && item.report.id == id {
      ReportWeighs(p, item.report, c);
    }
  }

  lemma Regroup(taken: Tally, held: Tally, out: Tally, gone: Tally,
                in1: Tally, held1: Tally, out1: Tally, gone1: Tally)
    requires taken == Join(held, Join(out, gone))
    requires Join(held, in1) == Join(held1, Join(out1, gone1))
    ensures Join(taken, in1) == Join(held1, Join(Join(out, out1), Join(gone, gone1)))
  {
  }

  lemma {:induction false} LedgerBalances(l: seq<Item>, id: ModuleId, c: nat)
    requires c < CHANNELS && Faithful(l)
    ensures Taken(l, id, c) == Join(Weight(Pending(l, id), c), Join(Reported(l, id, c), Dropped(l, id, c)))
  {
    if l == [] {
      assert Pending(l, id) == [] && Weight([], c) == NOTHING;
    } else {
      var front, item := l[..|l| - 1], l[|l| - 1];
      LedgerBalances(front, id, c);
      assert Truthful(front, item);
      var p := Pending(front, id);
      ItemBalances(p, item, id, c);
      Regroup(Taken(front, id, c), Weight(p, c), Reported(front, id, c), Dropped(front, id, c),
              TakenBy(item, id, c), Weight(After(p, item, id), c), ReportedBy(item, id, c), DroppedBy(item, id, c));
    }
  }

  lemma HeldIsPending(t: Table, l: seq<Item>, id: ModuleId, c: nat)
    requires c < CHANNELS && Refines(t, l)
    ensures Held(t, id, c) == Weight(Pending(l, id), c)
  {
    var k := LastById(t.Live(), id);
    if k >= 0 {
      assert t.Live()[k] == t.slots[k];
    } else {
      assert !Has(t.Live(), id);
    }
  }

  /**
   * Conservation over every run: for each module and channel, what was accepted is what the table
   * holds plus steps times mean over the emitted reports plus what disconnects dropped, and the
   * sample counts balance alike.
   */
  lemma Conservation(cfg: Config, aggSlots: nat, kidSlots: nat, es: seq<Event>, id: ModuleId, c: nat)
    requires c < CHANNELS
    ensures var (s, l) := Run(cfg, Boot(aggSlots, kidSlots), [], es);
            && s.agg.InBounds()
            && Taken(l, id, c) == Join(Held(s.agg, id, c), Join(Reported(l, id, c), Dropped(l, id, c)))
  {
    BootRefines(aggSlots, kidSlots);
    RunRefines(cfg, Boot(aggSlots, kidSlots), [], es);
    var (s, l) := Run(cfg, Boot(aggSlots, kidSlots), [], es);
    LedgerBalances(l, id, c);
    HeldIsPending(s.agg, l, id, c);
  }

  lemma {:induction false} FaithfulAt(l: seq<Item>, k: nat)
    requires Faithful(l) && k < |l|
    ensures Truthful(l[..k], l[k])
  {
    if k < |l| - 1 {
      FaithfulAt(l[..|l| - 1], k);
      assert l[..|l| - 1][..k] == l[..k];
    }
  }

  /**
   * Every report of every run is the arithmetic mean, over the right number of steps, of exactly
   * the samples of its module accepted since the module's previous report or drop.
   */
  lemma ReportsAreMeans(cfg: Config, aggSlots: nat, kidSlots: nat, es: seq<Event>, k: nat)
    requires k < |Run(cfg, Boot(aggSlots, kidSlots), [], es).1|
    ensures var l := Run(cfg, Boot(aggSlots, kidSlots), [], es).1;
            l[k].Emit? ==>
              var r := l[k].report;
              var p := Pending(l[..k], r.id);
              p != [] && r.steps == |p| && forall c :: 0 <= c < CHANNELS ==> r.means[c] == Mean(p, c)
  {
    BootRefines(aggSlots, kidSlots);
    RunRefines(cfg, Boot(aggSlots, kidSlots), [], es);
    FaithfulAt(Run(cfg, Boot(aggSlots, kidSlots), [], es).1, k);
  }

  // ---------------------------------------------------------------- step counters

  /** The oldest open sample of a module is in the ledger, accepted when nothing of it was open. */
  lemma {:induction false} OpenedAt(l: seq<Item>, id: ModuleId) returns (j: nat)
    requires Pending(l, id) != []
    ensures j < |l| && l[j].Accept? && l[j].id == id && l[j].now == Opened(l, id)
    ensures Pending(l[..j], id) == []
    ensures forall i :: j < i < |l| ==> !Closes(l[i], id)
  {
    var n := |l| - 1;
    var front := l[..n];
    if l[n].Accept? && l[n].id == id && Pending(front, id) == [] {
      j := n;
    } else {
      j := OpenedAt(front, id);
      assert l[..j] == front[..j];
      assert forall i :: j < i < n ==> l[i] == front[i];
    }
  }

  /** The item reports or drops the module. */
  predicate Closes(item: Item, id: ModuleId) {
    (item.Emit? && item.report.id == id) || (item.Drop? && item.entry.id == id)
  }

  lemma {:induction false} ClosedBefore(l: seq<Item>, id: ModuleId)
    requires Pending(l, id) == []
    ensures forall i :: 0 <= i < |l| && l[i].Accept? && l[i].id == id ==>
              exists k :: i < k < |l| && Closes(l[k], id)
  {
    if l != [] {
      var n := |l| - 1;
      var front := l[..n];
      if Closes(l[n], id) {
        forall i | 0 <= i < |l| && l[i].Accept? && l[i].id == id
          ensures exists k :: i < k < |l| && Closes(l[k], id)
        {
          assert Closes(l[n], id);
        }
      } else {
        ClosedBefore(front, id);
        forall i | 0 <= i < |l| && l[i].Accept? && l[i].id == id
          ensures exists k :: i < k < |l| && Closes(l[k], id)
        {
          assert front[i] == l[i];
          var k :| i < k < |front| && Closes(front[k], id);
          assert Closes(l[k], id);
        }
      }
    }
  }

  /**
   * The time span of every report of every run: from when the module's first sample since its last
   * report or drop was accepted to the reading of the clock at which the report was drawn up.
   */
  lemma ReportSpans(cfg: Config, aggSlots: nat, kidSlots: nat, es: seq<Event>, k: nat) returns (j: nat)
    requires k < |Run(cfg, Boot(aggSlots, kidSlots), [], es).1|
    requires Run(cfg, Boot(aggSlots, kidSlots), [], es).1[k].Emit?
    ensures var l := Run(cfg, Boot(aggSlots, kidSlots), [], es).1;
            var r, now := l[k].report, l[k].now;
            && j < k && l[j].Accept? && l[j].id == r.id
            && (forall i :: j < i < k ==> !Closes(l[i], r.id))
            && (forall i :: 0 <= i < j && l[i].Accept? && l[i].id == r.id ==>
                  exists m :: i < m < j && Closes(l[m], r.id))
            && l[j].now.sec as real + l[j].now.usec as real / 1000000.0 + r.delta
               == now.sec as real + now.usec as real / 1000000.0
  {
    var l := Run(cfg, Boot(aggSlots, kidSlots), [], es).1;
    BootRefines(aggSlots, kidSlots);
    RunRefines(cfg, Boot(aggSlots, kidSlots), [], es);
    FaithfulAt(l, k);
    hide Run, Refines, Faithful, Pending, Opened;
    var id := l[k].report.id;
    j := OpenedAt(l[..k], id);
    assert l[..k][..j] == l[..j];
    ClosedBefore(l[..j], id);
    forall i | 0 <= i < j && l[i].Accept? && l[i].id == id
      ensures exists m :: i < m < j && Closes(l[m], id)
    {
      assert l[..j][i] == l[i];
      var m :| i < m < j && Closes(l[..j][m], id);
      assert Closes(l[m], id);
    }
  }

  function Accepts(l: seq<Item>): nat {
    if l == [] then 0 else Accepts(l[..|l| - 1]) + (if l[|l| - 1].Accept? then 1 else 0)
  }

  lemma {:induction false} AcceptsConcat(l: seq<Item>, m: seq<Item>)
    ensures Accepts(l + m) == Accepts(l) + Accepts(m)
  {
    if m == [] {
      assert l + m == l;
    } else {
      var n := |m| - 1;
      assert (l + m)[..|l + m| - 1] == l + m[..n];
      AcceptsConcat(l, m[..n]);
    }
  }

  lemma {:induction false} NoAccepts(m: seq<Item>)
    requires forall i :: 0 <= i < |m| ==> !m[i].Accept?
    ensures Accepts(m) == 0
  {
    if m != [] {
      NoAccepts(m[..|m| - 1]);
    }
  }

  lemma {:induction false} RunAccepts(cfg: Config, s: State, l: seq<Item>, es: seq<Event>)
    requires s.Valid()
    ensures Accepts(Run(cfg, s, l, es).1) <= Accepts(l) + |es|
    decreases |es|
  {
    if es != [] {
      StepValid(cfg, s, es[0]);
      var r := Step(cfg, s, es[0]);
      if |r.items| == 1 {
        assert r.items[..0] == [];
      } else {
        NoAccepts(r.items);
      }
      assert Accepts(r.items) <= 1;
      AcceptsConcat(l, r.items);
      RunAccepts(cfg, r.state, l + r.items, es[1..]);
    }
  }

  lemma {:induction false} PendingAccepts(l: seq<Item>, id: ModuleId)
    ensures |Pending(l, id)| <= Accepts(l)
  {
    if l != [] {
      PendingAccepts(l[..|l| - 1], id);
    }
  }

  /** A step counter never exceeds the number of events so far: 32 bits suffice for 2^32 - 1 of them. */
  lemma StepsBounded(cfg: Config, aggSlots: nat, kidSlots: nat, es: seq<Event>, i: nat)
    ensures var s := Run(cfg, Boot(aggSlots, kidSlots), [], es).0;
            s.agg.InBounds() && (i < s.agg.size ==> s.agg.slots[i].steps <= |es|)
  {
    BootRefines(aggSlots, kidSlots);
    RunRefines(cfg, Boot(aggSlots, kidSlots), [], es);
    RunAccepts(cfg, Boot(aggSlots, kidSlots), [], es);
    var (s, l) := Run(cfg, Boot(aggSlots, kidSlots), [], es);
    if i < s.agg.size {
      PendingAccepts(l, s.agg.slots[i].id);
    }
  }
}
