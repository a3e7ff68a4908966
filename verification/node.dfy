/**
 * One node of the mesh as a state machine: the aggregation table, the children table and the
 * sensor ticks, driven by the sensor timer, the mesh events and the service loop.
 */
module Node {
  import opened Types
  import opened Samples
  import opened Aggregate
  import opened Children

  datatype Config = Config(self: ModuleId, sta: Mac, sendAfter: nat)

  datatype State = State(agg: Table, kids: Kids, ticks: nat, sensors: Sample, flush: bool) {
    predicate Valid() {
      agg.Valid() && kids.Valid()
    }
  }

  /** A frame whose digest has been accepted. */
  datatype Msg =
    | SensorMsg(id: ModuleId, period: real, values: Sample)
    | FlushMsg(id: ModuleId)
    | TimeMsg(id: ModuleId, clock: Instant)
    | AdvMsg(id: ModuleId, mac: Mac)
    | OtherMsg(id: ModuleId)

  /** One timer callback, one event-handler call, or one phase of the service loop. */
  datatype Event =
    | Timer(x: Sample, now: Instant)
    | ChildConnected(mac: Mac)
    | ChildDisconnected(mac: Mac)
    | Started(connected: bool, root: bool)
    | Received(from: Mac, msg: Msg, now: Instant, root: bool)
    | Served(clock: Clock, root: bool)

  datatype Out =
    | ToServer(msg: Msg)
    | ToParent(msg: Msg)
    | ToRoot(msg: Msg)

  /** The ledger: what entered the aggregation table and how it left. */
  datatype Item =
    | Accept(id: ModuleId, x: Sample, now: Instant)
    | Emit(report: Report, now: Instant)
    | Drop(entry: Entry)

  datatype Outcome = Outcome(state: State, outs: seq<Out>, items: seq<Item>)

  function Boot(aggSlots: nat, kidSlots: nat): (s: State)
    ensures s.Valid()
  {
    State(Table(seq(aggSlots, _ => BLANK), 0),
          Kids(seq(kidSlots, _ => NO_MAC), seq(kidSlots, _ => 0), 0),
          0, ZERO, false)
  }

  function OnTimer(cfg: Config, s: State, x: Sample, now: Instant): Outcome
    requires s.Valid()
  {
    var (t, k) := Push(s.agg, cfg.self, x, now);
    Outcome(s.(agg := t, ticks := s.ticks + 1, sensors := x), [],
            if k >= 0 then [Accept(cfg.self, x, now)] else [])
  }

  function OnDisconnect(s: State, mac: Mac): Outcome
    requires s.Valid()
  {
    var kids := PopChild(s.kids, mac);
    var k := LastByMac(s.agg.Live(), mac);
    if k >= 0 then Outcome(s.(kids := kids, agg := PopAt(s.agg, k)), [], [Drop(s.agg.slots[k])])
    else Outcome(s.(kids := kids), [], [])
  }

  /** A SENSOR frame: fold a direct child's, hand any other on. */
  function OnSensor(s: State, from: Mac, msg: Msg, now: Instant, root: bool): Outcome
    requires s.Valid() && msg.SensorMsg?
  {
    if IsChild(s.kids, from, msg.id) then
      PushValid(s.agg, msg.id, msg.values, now);
      var (t, k) := Push(s.agg, msg.id, msg.values, now);
      Outcome(s.(agg := Associate(t, msg.id, from)), [],
              if k >= 0 then [Accept(msg.id, msg.values, now)] else [])
    else
      Outcome(s, [if root then ToServer(msg) else ToRoot(msg)], [])
  }

  function OnReceive(cfg: Config, s: State, from: Mac, msg: Msg, now: Instant, root: bool): Outcome
    requires s.Valid()
  {
    if from == cfg.sta then Outcome(s, [], [])
    else match msg
      case SensorMsg(_, _, _) => OnSensor(s, from, msg, now, root)
      case FlushMsg(id) =>
        Outcome(if id == 0 || id == cfg.self then s.(flush := true) else s, [], [])
      case AdvMsg(id, mac) =>
        Outcome(if from == mac then s.(kids := SetChildId(s.kids, mac, id)) else s, [], [])
      case _ => Outcome(s, [], [])
  }

  predicate Ready(cfg: Config, s: State) {
    s.flush || s.ticks >= cfg.sendAfter
  }

  function FrameOf(r: Report): Msg {
    SensorMsg(r.id, r.delta, r.means)
  }

  function FramesOut(rs: seq<Report>, root: bool): (r: seq<Out>)
    ensures |r| == |rs|
    ensures forall i :: 0 <= i < |rs| ==>
              r[i] == if root then ToServer(FrameOf(rs[i])) else ToParent(FrameOf(rs[i]))
  {
    seq(|rs|, i requires 0 <= i < |rs| => if root then ToServer(FrameOf(rs[i])) else ToParent(FrameOf(rs[i])))
  }

  /** The reports as they leave: report i is of entry |rs| - 1 - i, at that entry's reading of the clock. */
  function Emits(rs: seq<Report>, clock: Clock): (r: seq<Item>)
    ensures |r| == |rs| && forall i :: 0 <= i < |rs| ==> r[i] == Emit(rs[i], ReadAt(clock, |rs| - 1 - i))
  {
    seq(|rs|, i requires 0 <= i < |rs| => Emit(rs[i], ReadAt(clock, |rs| - 1 - i)))
  }

  function OnServe(cfg: Config, s: State, clock: Clock, root: bool): Outcome
    requires s.Valid()
  {
    if Ready(cfg, s) then
      var rs := Drain(s.agg.Live(), clock);
      Outcome(s.(agg := Table(s.agg.slots, 0), ticks := 0, sensors := ZERO), FramesOut(rs, root),
              Emits(rs, clock))
    else
      Outcome(s, [], [])
  }

  /** The service task up to its loop: a node below the root advertises itself to its parent. */
  function OnStart(cfg: Config, s: State, connected: bool, root: bool): Outcome {
    Outcome(s.(flush := false), if connected && !root then [ToParent(AdvMsg(cfg.self, cfg.sta))] else [], [])
  }

  function Step(cfg: Config, s: State, e: Event): Outcome
    requires s.Valid()
  {
    match e
    case Timer(x, now) => OnTimer(cfg, s, x, now)
    case ChildConnected(mac) => Outcome(s.(kids := PushChild(s.kids, mac).0), [], [])
    case ChildDisconnected(mac) => OnDisconnect(s, mac)
    case Started(connected, root) => OnStart(cfg, s, connected, root)
    case Received(from, msg, now, root) => OnReceive(cfg, s, from, msg, now, root)
    case Served(clock, root) => OnServe(cfg, s, clock, root)
  }

  lemma DisconnectValid(s: State, mac: Mac)
    requires s.Valid()
    ensures var s' := OnDisconnect(s, mac).state;
            s'.Valid() && |s'.agg.slots| == |s.agg.slots| && |s'.kids.macs| == |s.kids.macs|
  {
    PopChildKeeps(s.kids, mac);
    var k := LastByMac(s.agg.Live(), mac);
    if k >= 0 {
      PopValid(s.agg, k);
    }
  }

  lemma SensorValid(s: State, from: Mac, msg: Msg, now: Instant, root: bool)
    requires s.Valid() && msg.SensorMsg?
    ensures var s' := OnSensor(s, from, msg, now, root).state;
            s'.Valid() && |s'.agg.slots| == |s.agg.slots| && s'.kids == s.kids
  {
    PushValid(s.agg, msg.id, msg.values, now);
    AssociateLive(Push(s.agg, msg.id, msg.values, now).0, msg.id, from);
  }

  lemma StepValid(cfg: Config, s: State, e: Event)
    requires s.Valid()
    ensures Step(cfg, s, e).state.Valid()
    ensures |Step(cfg, s, e).state.agg.slots| == |s.agg.slots|
    ensures |Step(cfg, s, e).state.kids.macs| == |s.kids.macs|
  {
    match e {
      case Timer(x, now) => PushValid(s.agg, cfg.self, x, now);
      case ChildConnected(mac) => PushChildKeeps(s.kids, mac);
      case ChildDisconnected(mac) => DisconnectValid(s, mac);
      case Started(_, _) =>
      case Received(from, msg, now, root) =>
        if msg.SensorMsg? {
          SensorValid(s, from, msg, now, root);
        }
        if msg.AdvMsg? {
          SetChildIdKeeps(s.kids, msg.mac, msg.id);
        }
      case Served(_, _) =>
    }
  }

  /** A run: the final state and the ledger, started from the given ones. */
  function Run(cfg: Config, s: State, l: seq<Item>, es: seq<Event>): (State, seq<Item>)
    requires s.Valid()
    decreases |es|
  {
    if es == [] then (s, l)
    else
      StepValid(cfg, s, es[0]);
      var r := Step(cfg, s, es[0]);
      Run(cfg, r.state, l + r.items, es[1..])
  }

  // ---------------------------------------------------------------- flushing

  /** A flush request that reaches the node. */
  predicate Flushes(cfg: Config, e: Event) {
    e.Received? && e.msg.FlushMsg? && e.from != cfg.sta && (e.msg.id == 0 || e.msg.id == cfg.self)
  }

  lemma FlushStep(cfg: Config, s: State, e: Event)
    requires s.Valid()
    ensures Step(cfg, s, e).state.flush <==> if e.Started? then false else s.flush || Flushes(cfg, e)
  {
  }

  /**
   * From a service start on, the node is flushed if and only if a flush request for it or for all has
   * reached it since: nothing else sets the flag, and nothing clears it.
   */
  lemma {:induction false} FlushedIff(cfg: Config, s: State, l: seq<Item>, es: seq<Event>)
    requires s.Valid() && forall i :: 0 <= i < |es| ==> !es[i].Started?
    ensures Run(cfg, s, l, es).0.flush <==> s.flush || exists i :: 0 <= i < |es| && Flushes(cfg, es[i])
    decreases |es|
  {
    hide Step, Flushes;
    if es != [] {
      StepValid(cfg, s, es[0]);
      FlushStep(cfg, s, es[0]);
      var r := Step(cfg, s, es[0]);
      var rest := es[1..];
      FlushedIff(cfg, r.state, l + r.items, rest);
      assert forall i :: 0 <= i < |rest| ==> rest[i] == es[i + 1];
      if exists i :: 0 <= i < |es| && Flushes(cfg, es[i]) {
        var i :| 0 <= i < |es| && Flushes(cfg, es[i]);
        assert i > 0 ==> Flushes(cfg, rest[i - 1]);
      }
      if exists i :: 0 <= i < |rest| && Flushes(cfg, rest[i]) {
        var i :| 0 <= i < |rest| && Flushes(cfg, rest[i]);
        assert Flushes(cfg, es[i + 1]);
      }
    }
  }

  lemma {:induction false} RunValid(cfg: Config, s: State, l: seq<Item>, es: seq<Event>)
    requires s.Valid()
    ensures Run(cfg, s, l, es).0.Valid()
    decreases |es|
  {
    hide Step;
    if es != [] {
      StepValid(cfg, s, es[0]);
      var r := Step(cfg, s, es[0]);
      RunValid(cfg, r.state, l + r.items, es[1..]);
    }
  }

  /** A service just started, in whatever state, sends nothing before enough ticks or a flush request. */
  lemma StartedWaits(cfg: Config, s: State, connected: bool, root: bool, es: seq<Event>, clock: Clock, later: bool)
    requires s.Valid() && forall i :: 0 <= i < |es| ==> !es[i].Started? && !Flushes(cfg, es[i])
    ensures Step(cfg, s, Started(connected, root)).state.Valid()
    ensures var s' := Run(cfg, Step(cfg, s, Started(connected, root)).state, [], es).0;
            s'.Valid() && (s'.ticks < cfg.sendAfter ==> OnServe(cfg, s', clock, later) == Outcome(s', [], []))
  {
    var s1 := Step(cfg, s, Started(connected, root)).state;
    RunValid(cfg, s1, [], es);
    FlushedIff(cfg, s1, [], es);
  }
}
