/** The node as the program runs it: the tables and the board updated by timer, event handler and received frames. */
module MeshNodes {
  import opened Types
  import opened Samples
  import opened Aggregate
  import opened AggregateStore
  import opened ChildStore
  import opened Gpio
  import opened Node
  import Children

  class MeshNode {
    const cfg: Config
    const agg: AggregateTable
    const kids: ChildTable
    const board: Board
    /** A local of the service task: cleared when the task starts, never once set. */
    var flush: bool
    ghost var ledger: seq<Item>

    ghost function Footprint(): set<object> {
      {this, agg, agg.slots, kids, kids.macs, kids.ids, board, board.state}
    }

    ghost predicate Valid()
      reads Footprint()
    {
      agg.Valid() && kids.Valid() && board.Valid()
    }

    ghost function View(): State
      reads Footprint()
      requires Valid()
    {
      State(agg.View(), kids.View(), board.ticks, board.Reading(), flush)
    }

    /** The node is where outcome r leaves it, the ledger extended by r's items. */
    ghost predicate Shows(r: Outcome, was: seq<Item>, outs: seq<Out>)
      reads Footprint()
    {
      Valid() && View() == r.state && ledger == was + r.items && outs == r.outs
    }

    constructor (cfg: Config, aggSlots: nat, kidSlots: nat)
      requires 1 <= aggSlots <= 255 && 1 <= kidSlots <= 255
      ensures Valid() && fresh(Footprint())
      ensures this.cfg == cfg && View() == Boot(aggSlots, kidSlots) && ledger == []
    {
      this.cfg := cfg;
      agg := new AggregateTable(aggSlots);
      kids := new ChildTable(kidSlots);
      board := new Board();
      flush := false;
      ledger := [];
    }

    method PeriodicSensorsCheck(drawn: Sample, now: Instant)
      requires Valid()
      modifies Footprint()
      ensures Shows(OnTimer(cfg, old(View()), drawn, now), old(ledger), [])
    {
      board.UpdateSensors(drawn);
      var index := agg.PushSensors(cfg.self, board.state[..], now);
      ledger := ledger + if index >= 0 then [Accept(cfg.self, drawn, now)] else [];
    }

    method OnChildConnected(mac: Mac)
      requires Valid()
      modifies Footprint()
      ensures Shows(Step(cfg, old(View()), ChildConnected(mac)), old(ledger), [])
    {
      var _ := kids.Push(mac);
    }

    method OnChildDisconnected(mac: Mac)
      requires Valid()
      modifies Footprint()
      ensures Shows(OnDisconnect(old(View()), mac), old(ledger), [])
    {
      ghost var r := OnDisconnect(View(), mac);
      var _ := kids.Pop(mac);
      var _ := agg.PopSensorsByMac(mac);
      ledger := ledger + r.items;
    }

    /** The start of the service task, up to its loop. */
    method Start(connected: bool, root: bool) returns (outs: seq<Out>)
      requires Valid()
      modifies Footprint()
      ensures Shows(OnStart(cfg, old(View()), connected, root), old(ledger), outs)
      ensures !flush && outs == if connected && !root then [ToParent(AdvMsg(cfg.self, cfg.sta))] else []
    {
      flush := false;
      outs := [];
      if connected && !root {
        outs := [ToParent(AdvMsg(cfg.self, cfg.sta))];
      }
    }

    /** A SENSOR frame: fold a direct child's, hand any other on. */
    method FoldOrForward(from: Mac, msg: Msg, now: Instant, root: bool) returns (outs: seq<Out>)
      requires Valid() && msg.SensorMsg?
      modifies Footprint()
      ensures Shows(OnSensor(old(View()), from, msg, now, root), old(ledger), outs)
    {
      outs := [];
      var child := kids.Matches(from, msg.id);
      if child {
        var index := agg.PushSensors(msg.id, msg.values, now);
        var _ := agg.AssociateMac(msg.id, from);
        ledger := ledger + if index >= 0 then [Accept(msg.id, msg.values, now)] else [];
      } else if root {
        outs := [ToServer(msg)];
      } else {
        outs := [ToRoot(msg)];
      }
    }

    method NoteFlush(id: ModuleId)
      requires Valid()
      modifies this`flush
      ensures Valid() && View() == if id == 0 || id == cfg.self then old(View()).(flush := true) else old(View())
    {
      if id == 0 || id == cfg.self {
        flush := true;
      }
    }

    /** An ADV frame counts only when it names the address it came from. */
    method NoteAdvertisement(from: Mac, id: ModuleId, mac: Mac)
      requires Valid()
      modifies kids.ids
      ensures Valid()
      ensures View() == if from == mac then old(View()).(kids := Children.SetChildId(old(View()).kids, mac, id))
                        else old(View())
    {
      var same := SameAddress(from, mac);
      if same == 0 {
        var _ := kids.SetId(mac, id);
      }
    }

    /** The receive phase of the service loop, for a frame whose digest was accepted. */
    method Receive(from: Mac, msg: Msg, now: Instant, root: bool) returns (outs: seq<Out>)
      requires Valid()
      modifies Footprint()
      ensures Shows(OnReceive(cfg, old(View()), from, msg, now, root), old(ledger), outs)
    {
      outs := [];
      var own := SameAddress(cfg.sta, from);
      if own != 0 {
        match msg {
          case SensorMsg(_, _, _) => outs := FoldOrForward(from, msg, now, root);
          case FlushMsg(id) => NoteFlush(id);
          case AdvMsg(id, mac) => NoteAdvertisement(from, id, mac);
          case _ =>
        }
      }
    }
  }
}
