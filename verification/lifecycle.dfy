/**
 * The life of the two service tasks and of the UDP socket: event handlers set flags, tasks poll
 * them and exit, and every access interleaves. Handlers run one after another, as the event
 * loop runs them; each of their flag accesses is a step of its own.
 */
module Lifecycle {

  /** Where a mesh-service task is: before its loop, in it, past it, or past clearing the flag. */
  datatype MeshPc = MStart | MLoop | MExit | MDone

  /** Where a bridge-service task is. The socket is created at BOpen and closed at BClose. */
  datatype BridgePc = BWait | BOpen | BLoop | BClose | BClear | BDone

  datatype Handler = HIdle | HMeshCheck | HMeshSet | HMeshCreate | HBridgeCheck | HBridgeSet | HBridgeCreate

  /** The variable `udpSocket` and the descriptors really open. */
  datatype Sockets = Sockets(udp: int, open: set<int>)

  datatype World = World(
    connected: bool, gotIp: bool, root: bool,
    meshStarted: bool, bridgeStarted: bool,
    handler: Handler, mesh: seq<MeshPc>, bridge: seq<BridgePc>, sockets: Sockets)

  datatype Event =
    | LinkDown                                  // started, stopped, or parent disconnected
    | ParentConnected
    | GotIp
    | HandlerStep
    | RootChange(root: bool)
    | MeshStep(i: nat)
    | BridgeStep(i: nat, fd: int, len: int)     // what socket() and the receive would return

  // ---------------------------------------------------------------- steps

  function CreateSocket(s: Sockets, fd: int): Sockets {
    var open := if s.udp > 0 then s.open - {s.udp} else s.open;
    Sockets(fd, if fd >= 0 then open + {fd} else open)
  }

  function CloseSocket(s: Sockets): Sockets {
    if s.udp > 0 then Sockets(0, s.open - {s.udp}) else s
  }

  function OnHandler(w: World): World {
    match w.handler
    case HIdle => w
    case HMeshCheck => w.(handler := if w.meshStarted then HIdle else HMeshSet)
    case HMeshSet => w.(meshStarted := true, handler := HMeshCreate)
    case HMeshCreate => w.(mesh := w.mesh + [MStart], handler := HIdle)
    case HBridgeCheck => w.(handler := if !w.bridgeStarted && w.root then HBridgeSet else HIdle)
    case HBridgeSet => w.(bridgeStarted := true, handler := HBridgeCreate)
    case HBridgeCreate => w.(bridge := w.bridge + [BWait], handler := HIdle)
  }

  /** A mesh task's next position: it looks at the connection before its loop and in it. */
  function AfterMesh(pc: MeshPc, connected: bool): MeshPc {
    match pc
    case MStart => if connected then MLoop else MExit
    case MLoop => if connected then MLoop else MExit
    case MExit => MDone
    case MDone => MDone
  }

  function OnMesh(w: World, i: nat): World
    requires i < |w.mesh|
  {
    w.(mesh := w.mesh[i := AfterMesh(w.mesh[i], w.connected)],
       meshStarted := w.meshStarted && w.mesh[i] != MExit)
  }

  /** A bridge task's next position; `len` is what the receive in its loop returns. */
  function AfterBridge(pc: BridgePc, gotIp: bool, root: bool, len: int): BridgePc {
    match pc
    case BWait => if root && !gotIp then BWait else BOpen
    case BOpen => BLoop
    case BLoop => if gotIp && root && len >= 0 then BLoop else BClose
    case BClose => BClear
    case BClear => BDone
    case BDone => BDone
  }

  function SocketsAfter(pc: BridgePc, s: Sockets, root: bool, fd: int): Sockets {
    if pc == BOpen && root then CreateSocket(s, fd)
    else if pc == BClose then CloseSocket(s)
    else s
  }

  function OnBridge(w: World, i: nat, fd: int, len: int): World
    requires i < |w.bridge|
  {
    w.(bridge := w.bridge[i := AfterBridge(w.bridge[i], w.gotIp, w.root, len)],
       sockets := SocketsAfter(w.bridge[i], w.sockets, w.root, fd),
       bridgeStarted := w.bridgeStarted && w.bridge[i] != BClear)
  }

  /** The step of task i calls socket(). */
  predicate Opens(w: World, i: nat)
    requires i < |w.bridge|
  {
    w.bridge[i] == BOpen && w.root
  }

  /** What socket() can return once the stored descriptor has been closed: a free number, or -1. */
  predicate Possible(s: Sockets, fd: int) {
    fd >= -1 && fd !in CloseSocket(s).open
  }

  /** An event that cannot happen now changes nothing: handlers wait for each other. */
  function Step(w: World, e: Event): World {
    match e
    case LinkDown => if w.handler == HIdle then w.(connected := false, gotIp := false) else w
    case ParentConnected => if w.handler == HIdle then w.(connected := true, handler := HMeshCheck) else w
    case GotIp => if w.handler == HIdle then w.(gotIp := true, handler := HBridgeCheck) else w
    case HandlerStep => OnHandler(w)
    case RootChange(root) => w.(root := root)
    case MeshStep(i) => if i < |w.mesh| then OnMesh(w, i) else w
    case BridgeStep(i, fd, len) =>
      if i < |w.bridge| && (Opens(w, i) ==> Possible(w.sockets, fd)) then OnBridge(w, i, fd, len) else w
  }

  function Run(w: World, es: seq<Event>): World
    decreases |es|
  {
    if es == [] then w else Run(Step(w, es[0]), es[1..])
  }

  const BOOT: World := World(false, false, false, false, false, HIdle, [], [], Sockets(0, {}))

  // ---------------------------------------------------------------- counting tasks

  predicate MeshAlive(pc: MeshPc) {
    pc != MDone
  }

  predicate BridgeAlive(pc: BridgePc) {
    pc != BDone
  }

  /** Between its create and close calls. */
  predicate HoldsSocket(pc: BridgePc) {
    pc == BLoop || pc == BClose
  }

  function Count<T>(s: seq<T>, p: T -> bool): nat {
    if s == [] then 0 else Count(s[..|s| - 1], p) + if p(s[|s| - 1]) then 1 else 0
  }

  lemma {:induction false} CountUpdate<T>(s: seq<T>, p: T -> bool, i: nat, x: T)
    requires i < |s|
    ensures Count(s[i := x], p) + (if p(s[i]) then 1 else 0) == Count(s, p) + if p(x) then 1 else 0
  {
    var n := |s| - 1;
    if i < n {
      CountUpdate(s[..n], p, i, x);
      assert s[i := x][..n] == s[..n][i := x];
    } else {
      assert s[i := x][..n] == s[..n];
    }
  }

  lemma CountAppend<T>(s: seq<T>, p: T -> bool, x: T)
    ensures Count(s + [x], p) == Count(s, p) + if p(x) then 1 else 0
  {
    assert (s + [x])[..|s|] == s;
  }

  lemma {:induction false} CountZero<T>(s: seq<T>, p: T -> bool)
    ensures Count(s, p) == 0 <==> forall i :: 0 <= i < |s| ==> !p(s[i])
  {
    if s != [] {
      CountZero(s[..|s| - 1], p);
      assert forall i :: 0 <= i < |s| - 1 ==> s[..|s| - 1][i] == s[i];
    }
  }

  lemma {:induction false} CountAtMostOne<T>(s: seq<T>, p: T -> bool)
    requires Count(s, p) <= 1
    ensures forall i, j :: 0 <= i < j < |s| ==> !(p(s[i]) && p(s[j]))
  {
    if s != [] {
      var front := s[..|s| - 1];
      CountAtMostOne(front, p);
      CountZero(front, p);
      forall i, j | 0 <= i < j < |s|
        ensures !(p(s[i]) && p(s[j]))
      {
        assert front[i] == s[i];
        assert j < |front| ==> front[j] == s[j];
      }
    }
  }

  // ---------------------------------------------------------------- the invariant

  function Flag(b: bool): nat {
    if b then 1 else 0
  }

  /** The open descriptor, if any, is the one in `udpSocket`. */
  predicate Owned(s: Sockets) {
    s.udp >= -1 && s.open == if s.udp > 0 then {s.udp} else {}
  }

  predicate MeshInv(w: World) {
    && Count(w.mesh, MeshAlive) + Flag(w.handler == HMeshCreate) == Flag(w.meshStarted)
    && (w.handler == HMeshSet ==> !w.meshStarted)
    && ((w.handler == HMeshCheck || w.handler == HMeshSet || w.handler == HMeshCreate) ==> w.connected)
  }

  predicate BridgeInv(w: World) {
    && Count(w.bridge, BridgeAlive) + Flag(w.handler == HBridgeCreate) == Flag(w.bridgeStarted)
    && (w.handler == HBridgeSet ==> !w.bridgeStarted)
    && ((w.handler == HBridgeCheck || w.handler == HBridgeSet || w.handler == HBridgeCreate) ==> w.gotIp)
  }

  predicate SocketHeld(w: World) {
    w.sockets.udp > 0 ==> exists i :: 0 <= i < |w.bridge| && HoldsSocket(w.bridge[i])
  }

  /**
   * A started flag is set exactly while one task lives or is about to be created; a socket
   * number is stored only while a bridge task is between its create and close calls.
   */
  predicate Inv(w: World) {
    MeshInv(w) && BridgeInv(w) && SocketHeld(w)
  }

  /** The system never gets descriptor 0 from socket(). */
  predicate NoZero(e: Event) {
    e.BridgeStep? ==> e.fd != 0
  }

  lemma MeshStepKeeps(w: World, i: nat)
    requires Inv(w) && i < |w.mesh|
    ensures Inv(OnMesh(w, i))
  {
    CountUpdate(w.mesh, MeshAlive, i, AfterMesh(w.mesh[i], w.connected));
    CountZero(w.mesh, MeshAlive);
    hide Count;
  }

  lemma BridgeCountKeeps(w: World, i: nat, fd: int, len: int)
    requires BridgeInv(w) && i < |w.bridge|
    ensures BridgeInv(OnBridge(w, i, fd, len))
  {
    CountUpdate(w.bridge, BridgeAlive, i, AfterBridge(w.bridge[i], w.gotIp, w.root, len));
    CountZero(w.bridge, BridgeAlive);
    hide Count, SocketsAfter;
  }

  lemma HolderKeeps(w: World, i: nat, fd: int, len: int)
    requires BridgeInv(w) && SocketHeld(w) && i < |w.bridge|
    ensures SocketHeld(OnBridge(w, i, fd, len))
  {
    CountAtMostOne(w.bridge, BridgeAlive);
    hide Count, BridgeInv;
    var w' := OnBridge(w, i, fd, len);
    if w'.sockets.udp > 0 {
      if w.bridge[i] == BOpen && w.root {
        assert HoldsSocket(w'.bridge[i]);
      } else {
        var j :| 0 <= j < |w.bridge| && HoldsSocket(w.bridge[j]);
        assert BridgeAlive(w.bridge[j]);
        assert HoldsSocket(w'.bridge[j]);
      }
    }
  }

  lemma BridgeStepKeeps(w: World, i: nat, fd: int, len: int)
    requires Inv(w) && i < |w.bridge|
    ensures Inv(OnBridge(w, i, fd, len))
  {
    BridgeCountKeeps(w, i, fd, len);
    HolderKeeps(w, i, fd, len);
    hide BridgeInv, SocketHeld, Count, AfterBridge, SocketsAfter;
  }

  /** What a handler step leaves alone: the sockets, and every bridge task already there. */
  lemma HandlerAdds(w: World)
    ensures var w' := OnHandler(w);
            && w'.sockets == w.sockets
            && |w.bridge| <= |w'.bridge| && forall j :: 0 <= j < |w.bridge| ==> w'.bridge[j] == w.bridge[j]
  {
  }

  lemma HandlerSocket(w: World)
    requires SocketHeld(w)
    ensures SocketHeld(OnHandler(w))
  {
    hide OnHandler, HoldsSocket;
    HandlerAdds(w);
    var w' := OnHandler(w);
    if w'.sockets.udp > 0 {
      var j :| 0 <= j < |w.bridge| && HoldsSocket(w.bridge[j]);
      assert w'.bridge[j] == w.bridge[j];
    }
  }

  lemma HandlerMesh(w: World)
    requires MeshInv(w)
    ensures MeshInv(OnHandler(w))
  {
    hide Count;
    CountAppend(w.mesh, MeshAlive, MStart);
  }

  lemma HandlerBridge(w: World)
    requires BridgeInv(w)
    ensures BridgeInv(OnHandler(w))
  {
    hide Count;
    CountAppend(w.bridge, BridgeAlive, BWait);
  }

  lemma HandlerKeeps(w: World)
    requires Inv(w)
    ensures Inv(OnHandler(w))
  {
    hide OnHandler, MeshInv, BridgeInv, SocketHeld;
    HandlerMesh(w);
    HandlerBridge(w);
    HandlerSocket(w);
  }

  /** Every interleaved step keeps the invariant. */
  lemma StepKeeps(w: World, e: Event)
    requires Inv(w)
    ensures Inv(Step(w, e))
  {
    hide Count, OnMesh, OnBridge, OnHandler, HoldsSocket, MeshAlive, BridgeAlive;
    match e {
      case MeshStep(i) =>
        if i < |w.mesh| {
          MeshStepKeeps(w, i);
        }
      case BridgeStep(i, fd, len) =>
        if i < |w.bridge| {
          BridgeStepKeeps(w, i, fd, len);
        }
      case HandlerStep => HandlerKeeps(w);
      case _ =>
    }
  }

  /** Ownership of the socket is kept by every step, unless socket() returns 0. */
  lemma OwnershipKept(w: World, e: Event)
    requires Owned(w.sockets) && NoZero(e)
    ensures Owned(Step(w, e).sockets)
  {
    if e.BridgeStep? {
      hide OnMesh, OnHandler;
    }
  }

  lemma {:induction false} RunKeeps(w: World, es: seq<Event>)
    requires Inv(w)
    ensures Inv(Run(w, es))
    ensures Owned(w.sockets) && (forall e :: e in es ==> NoZero(e)) ==> Owned(Run(w, es).sockets)
    decreases |es|
  {
    if es != [] {
      StepKeeps(w, es[0]);
      RunKeeps(Step(w, es[0]), es[1..]);
      if Owned(w.sockets) && NoZero(es[0]) {
        OwnershipKept(w, es[0]);
      }
    }
  }

  // ---------------------------------------------------------------- what follows

  /**
   * In every run from boot no two mesh-service loops and no two bridge-service loops are alive at
   * once, and outside the start handlers a flag is set exactly when one such task is alive.
   */
  lemma OneTaskEach(es: seq<Event>)
    ensures var w := Run(BOOT, es);
            && (forall i, j :: 0 <= i < j < |w.mesh| ==> !(MeshAlive(w.mesh[i]) && MeshAlive(w.mesh[j])))
            && (forall i, j :: 0 <= i < j < |w.bridge| ==> !(BridgeAlive(w.bridge[i]) && BridgeAlive(w.bridge[j])))
            && (w.handler != HMeshCreate ==>
                  (w.meshStarted <==> exists i :: 0 <= i < |w.mesh| && MeshAlive(w.mesh[i])))
            && (w.handler != HBridgeCreate ==>
                  (w.bridgeStarted <==> exists i :: 0 <= i < |w.bridge| && BridgeAlive(w.bridge[i])))
  {
    var w := Run(BOOT, es);
    RunKeeps(BOOT, es);
    CountAtMostOne(w.mesh, MeshAlive);
    CountAtMostOne(w.bridge, BridgeAlive);
    CountZero(w.mesh, MeshAlive);
    CountZero(w.bridge, BridgeAlive);
  }

  /**
   * In every run from boot whose socket() calls never return 0, at most one descriptor is open, it
   * is the one in `udpSocket`, and then a bridge task is between its create and close calls.
   */
  lemma SocketOwnership(es: seq<Event>)
    requires forall e :: e in es ==> NoZero(e)
    ensures var w := Run(BOOT, es);
            && Owned(w.sockets) && |w.sockets.open| <= 1
            && (w.sockets.udp > 0 ==> exists i :: 0 <= i < |w.bridge| && HoldsSocket(w.bridge[i]))
  {
    RunKeeps(BOOT, es);
  }

  /** A socket call breaks the ownership exactly when it returns 0: that descriptor is never closed. */
  lemma ZeroDescriptorLeaks(s: Sockets, fd: int)
    requires Owned(s) && Possible(s, fd)
    ensures Owned(CreateSocket(s, fd)) <==> fd != 0
    ensures fd == 0 ==> 0 in CloseSocket(CreateSocket(s, fd)).open
  {
    if fd == 0 {
      assert 0 in CreateSocket(s, fd).open;
    }
  }

  // ---------------------------------------------------------------- restarting the mesh service

  /** Some mesh task is in its loop or will enter it while connected. */
  predicate Serving(w: World) {
    exists i :: 0 <= i < |w.mesh| && (w.mesh[i] == MStart || w.mesh[i] == MLoop)
  }

  predicate Exiting(w: World) {
    exists i :: 0 <= i < |w.mesh| && w.mesh[i] == MExit
  }

  /** Steps up to the next event: the running handler, the tasks, the role of the node. */
  predicate NoNewEvent(es: seq<Event>) {
    forall e :: e in es ==> e.HandlerStep? || e.RootChange? || e.MeshStep? || e.BridgeStep?
  }

  /** On the way to a served connection. */
  predicate OnTrack(w: World) {
    && Inv(w) && w.connected
    && (w.handler == HIdle ==> Serving(w))
    && (w.handler == HMeshCheck ==> !Exiting(w))
    && (w.handler == HIdle || w.handler == HMeshCheck || w.handler == HMeshSet || w.handler == HMeshCreate)
  }

  lemma OnTrackMesh(w: World, i: nat)
    requires OnTrack(w) && i < |w.mesh|
    ensures OnTrack(OnMesh(w, i))
  {
    MeshStepKeeps(w, i);
    CountAtMostOne(w.mesh, MeshAlive);
    hide Inv, Count;
    var w' := OnMesh(w, i);
    if Serving(w) {
      var j :| 0 <= j < |w.mesh| && (w.mesh[j] == MStart || w.mesh[j] == MLoop);
      assert w'.mesh[j] == MStart || w'.mesh[j] == MLoop;
    }
    if w.handler == HMeshCheck {
      assert forall j :: 0 <= j < |w'.mesh| ==> w'.mesh[j] != MExit;
    }
  }

  /** A set flag at the check means a living task. */
  lemma StartedAlive(w: World) returns (j: nat)
    requires MeshInv(w) && w.meshStarted && w.handler == HMeshCheck
    ensures j < |w.mesh| && MeshAlive(w.mesh[j])
  {
    CountZero(w.mesh, MeshAlive);
    j :| 0 <= j < |w.mesh| && MeshAlive(w.mesh[j]);
  }

  lemma InvMesh(w: World)
    requires Inv(w)
    ensures MeshInv(w)
  {
  }

  /** A handler that starts a task has one to serve; one that does not start a task has found one. */
  lemma HandlerServes(w: World)
    requires OnTrack(w) && OnHandler(w).handler == HIdle
    ensures Serving(OnHandler(w))
  {
    hide Inv, Count, MeshInv;
    InvMesh(w);
    var w' := OnHandler(w);
    if w.handler == HMeshCreate {
      assert w'.mesh[|w.mesh|] == MStart;
    } else if w.handler == HMeshCheck {
      var j := StartedAlive(w);
      assert w.mesh[j] != MExit;
      assert w'.mesh[j] == w.mesh[j];
    } else {
      assert w' == w;
    }
  }

  lemma OnTrackHandler(w: World)
    requires OnTrack(w)
    ensures OnTrack(OnHandler(w))
  {
    hide Inv, Serving, Count;
    HandlerKeeps(w);
    if OnHandler(w).handler == HIdle {
      HandlerServes(w);
    }
  }

  lemma OnTrackStep(w: World, e: Event)
    requires OnTrack(w) && NoNewEvent([e])
    ensures OnTrack(Step(w, e))
  {
    assert e in [e];
    StepKeeps(w, e);
    if e.MeshStep? {
      if e.i < |w.mesh| {
        OnTrackMesh(w, e.i);
      }
    } else if e.HandlerStep? {
      OnTrackHandler(w);
    } else {
      hide Inv, OnMesh, OnHandler, CreateSocket, CloseSocket;
      assert Step(w, e).mesh == w.mesh;
    }
  }

  lemma {:induction false} OnTrackRun(w: World, es: seq<Event>)
    requires OnTrack(w) && NoNewEvent(es)
    ensures OnTrack(Run(w, es))
    decreases |es|
  {
    hide OnTrack, Step;
    if es != [] {
      OnTrackStep(w, es[0]);
      OnTrackRun(Step(w, es[0]), es[1..]);
    }
  }

  lemma RunCons(w: World, e: Event, es: seq<Event>)
    ensures Run(w, [e] + es) == Run(Step(w, e), es)
  {
    assert ([e] + es)[1..] == es;
  }

  /** Connected, with the mesh task, if any, at pc and the handler at h. */
  function Linked(connected: bool, started: bool, h: Handler, mesh: seq<MeshPc>): World {
    BOOT.(connected := connected, meshStarted := started, handler := h, mesh := mesh)
  }

  lemma LinkedSteps()
    ensures Step(BOOT, ParentConnected) == Linked(true, false, HMeshCheck, [])
    ensures Step(Linked(true, false, HMeshCheck, []), HandlerStep) == Linked(true, false, HMeshSet, [])
    ensures Step(Linked(true, false, HMeshSet, []), HandlerStep) == Linked(true, true, HMeshCreate, [])
    ensures Step(Linked(true, true, HMeshCreate, []), HandlerStep) == Linked(true, true, HIdle, [MStart])
    ensures Step(Linked(true, true, HIdle, [MStart]), MeshStep(0)) == Linked(true, true, HIdle, [MLoop])
    ensures Step(Linked(true, true, HIdle, [MLoop]), LinkDown) == Linked(false, true, HIdle, [MLoop])
    ensures Step(Linked(false, true, HIdle, [MLoop]), MeshStep(0)) == Linked(false, true, HIdle, [MExit])
    ensures Step(Linked(false, true, HIdle, [MExit]), ParentConnected) == Linked(true, true, HMeshCheck, [MExit])
  {
  }

  /** A run from boot into the exit window: the link drops, the task sees it, and the link is back. */
  lemma ExitWindowRun() returns (es: seq<Event>)
    ensures var w := Run(BOOT, es);
            Inv(w) && w.handler == HMeshCheck && Exiting(w)
  {
    hide Run, Step, Inv, Exiting;
    LinkedSteps();
    var w := Linked(true, true, HMeshCheck, [MExit]);
    assert Run(w, []) == w by {
      RunNothing(w);
    }
    RunCons(Linked(false, true, HIdle, [MExit]), ParentConnected, []);
    es := [ParentConnected] + [];
    RunCons(Linked(false, true, HIdle, [MLoop]), MeshStep(0), es);
    es := [MeshStep(0)] + es;
    RunCons(Linked(true, true, HIdle, [MLoop]), LinkDown, es);
    es := [LinkDown] + es;
    RunCons(Linked(true, true, HIdle, [MStart]), MeshStep(0), es);
    es := [MeshStep(0)] + es;
    RunCons(Linked(true, true, HMeshCreate, []), HandlerStep, es);
    es := [HandlerStep] + es;
    RunCons(Linked(true, false, HMeshSet, []), HandlerStep, es);
    es := [HandlerStep] + es;
    RunCons(Linked(true, false, HMeshCheck, []), HandlerStep, es);
    es := [HandlerStep] + es;
    RunCons(BOOT, ParentConnected, es);
    es := [ParentConnected] + es;
    BootInv();
    RunKeeps(BOOT, es);
    ExitingNow(w);
  }

  lemma RunNothing(w: World)
    ensures Run(w, []) == w
  {
  }

  lemma BootInv()
    ensures Inv(BOOT)
  {
  }

  lemma ExitingNow(w: World)
    requires w.mesh == [MExit]
    ensures Exiting(w)
  {
    assert w.mesh[0] == MExit;
  }

  /** So the restart is lost in a run from boot: connected, no handler at work, and no mesh task. */
  lemma LostRestartRun() returns (es: seq<Event>, more: seq<Event>)
    ensures var w := Run(BOOT, es);
            w.handler == HMeshCheck && w.connected && NoNewEvent(more)
            && Run(w, more).handler == HIdle && Run(w, more).connected && !Serving(Run(w, more))
  {
    hide Run;
    es := ExitWindowRun();
    more := LostRestart(Run(BOOT, es));
  }

  /** A task caught in its exit window: the handler sees the flag still set, then the task clears it. */
  lemma LostRestart(w: World) returns (es: seq<Event>)
    requires Inv(w) && w.handler == HMeshCheck && Exiting(w)
    ensures NoNewEvent(es) && Run(w, es).handler == HIdle && Run(w, es).connected && !Serving(Run(w, es))
  {
    var i :| 0 <= i < |w.mesh| && w.mesh[i] == MExit;
    CountZero(w.mesh, MeshAlive);
    assert MeshAlive(w.mesh[i]);
    CountAtMostOne(w.mesh, MeshAlive);
    es := [HandlerStep, MeshStep(i)];
    var w1 := OnHandler(w);
    var w2 := OnMesh(w1, i);
    assert es[1..] == [MeshStep(i)] && es[1..][1..] == [];
    assert Run(w1, [MeshStep(i)]) == Run(w2, []);
    assert forall j :: 0 <= j < |w2.mesh| && j != i ==> !MeshAlive(w.mesh[j]);
  }

  /**
   * After PARENT_CONNECTED the mesh service is running again once the handler is done, however the
   * tasks interleave, if and only if no task was in its exit window when the handler set the flag.
   */
  lemma RestartIffNotExiting(w: World)
    requires Inv(w) && w.handler == HMeshCheck
    ensures (forall es :: NoNewEvent(es) && Run(w, es).handler == HIdle ==> Serving(Run(w, es))) <==> !Exiting(w)
  {
    if Exiting(w) {
      var es := LostRestart(w);
    } else {
      forall es | NoNewEvent(es) && Run(w, es).handler == HIdle
        ensures Serving(Run(w, es))
      {
        OnTrackRun(w, es);
      }
    }
  }

  /** When the handler of PARENT_CONNECTED returns, a task is in its loop or in its exit window. */
  lemma HandlerLeavesTask(w: World)
    requires Inv(w) && (w.handler == HMeshCheck || w.handler == HMeshCreate) && OnHandler(w).handler == HIdle
    ensures Serving(OnHandler(w)) || Exiting(OnHandler(w))
  {
    var w' := OnHandler(w);
    if w.handler == HMeshCreate {
      assert w'.mesh[|w.mesh|] == MStart;
    } else {
      CountZero(w.mesh, MeshAlive);
      var j :| 0 <= j < |w.mesh| && MeshAlive(w.mesh[j]);
      assert w'.mesh[j] == w.mesh[j];
    }
  }

  // ---------------------------------------------------------------- restarting the bridge service

  /** Some bridge task is in its loop or on the way into it. */
  predicate Bridging(w: World) {
    exists i :: 0 <= i < |w.bridge| && (w.bridge[i] == BWait || w.bridge[i] == BOpen || w.bridge[i] == BLoop)
  }

  predicate BridgeExiting(w: World) {
    exists i :: 0 <= i < |w.bridge| && (w.bridge[i] == BClose || w.bridge[i] == BClear)
  }

  /** Nothing that ends the bridge: the address and the root role stay, and receives succeed. */
  predicate BridgeQuiet(es: seq<Event>) {
    forall e :: e in es ==>
      e.HandlerStep? || e.MeshStep? || (e.RootChange? && e.root) || (e.BridgeStep? && e.len >= 0)
  }

  /** On the way to a served address. */
  predicate BridgeOnTrack(w: World) {
    && Inv(w) && w.gotIp && w.root
    && (w.handler == HIdle ==> Bridging(w))
    && (w.handler == HBridgeCheck ==> !BridgeExiting(w))
    && (w.handler == HIdle || w.handler == HBridgeCheck || w.handler == HBridgeSet || w.handler == HBridgeCreate)
  }

  lemma InvBridge(w: World)
    requires Inv(w)
    ensures BridgeInv(w)
  {
  }

  lemma BridgeTrackBridge(w: World, i: nat, fd: int, len: int)
    requires BridgeOnTrack(w) && i < |w.bridge| && len >= 0
    ensures BridgeOnTrack(OnBridge(w, i, fd, len))
  {
    hide Inv, SocketsAfter;
    BridgeStepKeeps(w, i, fd, len);
    var w' := OnBridge(w, i, fd, len);
    if Bridging(w) {
      var j :| 0 <= j < |w.bridge| && (w.bridge[j] == BWait || w.bridge[j] == BOpen || w.bridge[j] == BLoop);
      assert w'.bridge[j] == BWait || w'.bridge[j] == BOpen || w'.bridge[j] == BLoop;
    }
    if w.handler == HBridgeCheck {
      assert forall j :: 0 <= j < |w'.bridge| ==> w'.bridge[j] != BClose && w'.bridge[j] != BClear;
    }
  }

  /** A set flag at the check means a living task. */
  lemma BridgeStartedAlive(w: World) returns (j: nat)
    requires BridgeInv(w) && w.bridgeStarted && w.handler == HBridgeCheck
    ensures j < |w.bridge| && BridgeAlive(w.bridge[j])
  {
    CountZero(w.bridge, BridgeAlive);
    j :| 0 <= j < |w.bridge| && BridgeAlive(w.bridge[j]);
  }

  lemma HandlerBridges(w: World)
    requires BridgeOnTrack(w) && OnHandler(w).handler == HIdle
    ensures Bridging(OnHandler(w))
  {
    hide Inv, Count, BridgeInv;
    InvBridge(w);
    var w' := OnHandler(w);
    if w.handler == HBridgeCreate {
      assert w'.bridge[|w.bridge|] == BWait;
    } else if w.handler == HBridgeCheck {
      var j := BridgeStartedAlive(w);
      assert w.bridge[j] != BClose && w.bridge[j] != BClear;
      assert w'.bridge[j] == w.bridge[j];
    } else {
      assert w' == w;
    }
  }

  lemma BridgeTrackHandler(w: World)
    requires BridgeOnTrack(w)
    ensures BridgeOnTrack(OnHandler(w))
  {
    hide Inv, Bridging, Count;
    HandlerKeeps(w);
    if OnHandler(w).handler == HIdle {
      HandlerBridges(w);
    }
  }

  lemma BridgeTrackStep(w: World, e: Event)
    requires BridgeOnTrack(w) && BridgeQuiet([e])
    ensures BridgeOnTrack(Step(w, e))
  {
    assert e in [e];
    StepKeeps(w, e);
    if e.BridgeStep? {
      hide BridgeOnTrack, OnBridge;
      if e.i < |w.bridge| {
        BridgeTrackBridge(w, e.i, e.fd, e.len);
      }
    } else if e.HandlerStep? {
      hide BridgeOnTrack, OnHandler;
      BridgeTrackHandler(w);
    } else {
      hide Inv, OnBridge, OnHandler;
      assert Step(w, e).bridge == w.bridge;
    }
  }

  lemma {:induction false} BridgeTrackRun(w: World, es: seq<Event>)
    requires BridgeOnTrack(w) && BridgeQuiet(es)
    ensures BridgeOnTrack(Run(w, es))
    decreases |es|
  {
    hide BridgeOnTrack, Step;
    if es != [] {
      BridgeTrackStep(w, es[0]);
      BridgeTrackRun(Step(w, es[0]), es[1..]);
    }
  }

  /** Where the only bridge task alive is. */
  predicate OnlyTask(w: World, i: nat, pc: BridgePc) {
    i < |w.bridge| && w.bridge[i] == pc && forall j :: 0 <= j < |w.bridge| && j != i ==> w.bridge[j] == BDone
  }

  /** One more step of that task, towards its end. */
  lemma TaskStep(w: World, i: nat, pc: BridgePc, es: seq<Event>)
    requires OnlyTask(w, i, pc) && w.handler == HIdle && w.gotIp && (w.root ==> pc == BClose || pc == BClear)
    ensures var e := BridgeStep(i, -1, 0);
            && Run(w, [e] + es) == Run(Step(w, e), es)
            && OnlyTask(Step(w, e), i, AfterBridge(pc, true, w.root, 0))
            && Step(w, e).handler == HIdle && Step(w, e).gotIp && Step(w, e).root == w.root
  {
    hide Run, SocketsAfter;
    RunCons(w, BridgeStep(i, -1, 0), es);
  }

  /** Such a task runs to its end, step by step. */
  lemma TaskEnds(w: World, i: nat, pc: BridgePc) returns (es: seq<Event>)
    requires OnlyTask(w, i, pc) && w.handler == HIdle && w.gotIp
    requires w.root ==> pc == BClose || pc == BClear || pc == BDone
    ensures BridgeQuiet(es)
    ensures var w' := Run(w, es);
            OnlyTask(w', i, BDone) && w'.handler == HIdle && w'.gotIp && w'.root == w.root
    decreases match pc case BWait => 5 case BOpen => 4 case BLoop => 3 case BClose => 2 case BClear => 1 case BDone => 0
  {
    hide Run, Step, OnlyTask;
    if pc == BDone {
      es := [];
      RunNothing(w);
    } else {
      var e := BridgeStep(i, -1, 0);
      TaskStep(w, i, pc, []);
      var rest := TaskEnds(Step(w, e), i, AfterBridge(pc, true, w.root, 0));
      RunCons(w, e, rest);
      es := [e] + rest;
    }
  }

  /** When the flag is set at the check there is one task; without a task nobody bridges. */
  lemma OneAlive(w: World) returns (i: nat)
    requires BridgeInv(w) && w.handler == HBridgeCheck && w.bridgeStarted
    ensures i < |w.bridge| && OnlyTask(w, i, w.bridge[i]) && w.bridge[i] != BDone
  {
    i := BridgeStartedAlive(w);
    CountAtMostOne(w.bridge, BridgeAlive);
    hide Count;
    assert forall j :: 0 <= j < |w.bridge| && j != i ==> !BridgeAlive(w.bridge[j]);
  }

  lemma NoTask(w: World, i: nat)
    requires OnlyTask(w, i, BDone)
    ensures forall j :: 0 <= j < |w.bridge| ==> w.bridge[j] == BDone
  {
  }

  lemma NoneAlive(w: World)
    requires BridgeInv(w) && w.handler == HBridgeCheck && !w.bridgeStarted
    ensures forall j :: 0 <= j < |w.bridge| ==> w.bridge[j] == BDone
  {
    CountZero(w.bridge, BridgeAlive);
    hide Count;
    assert forall j :: 0 <= j < |w.bridge| ==> !BridgeAlive(w.bridge[j]);
  }

  /**
   * A GOT_IP that meets a task in its exit window, or a node that is not root, starts no bridge: when
   * all is done there is an address, an idle handler and no bridge task.
   */
  lemma LostBridge(w: World) returns (es: seq<Event>)
    requires Inv(w) && w.handler == HBridgeCheck && (!w.root || BridgeExiting(w))
    ensures BridgeQuiet(es)
    ensures var w' := Run(w, es);
            && w'.handler == HIdle && w'.gotIp && w'.root == w.root
            && forall j :: 0 <= j < |w'.bridge| ==> w'.bridge[j] == BDone
  {
    InvBridge(w);
    var w1 := Step(w, HandlerStep);
    var rest: seq<Event> := [];
    if w.bridgeStarted {
      var i := OneAlive(w);
      assert w1 == w.(handler := HIdle);
      rest := TaskEnds(w1, i, w.bridge[i]);
      NoTask(Run(w1, rest), i);
    } else {
      NoneAlive(w);
      RunNothing(w1);
    }
    hide Run, Step, Inv, BridgeInv;
    RunCons(w, HandlerStep, rest);
    es := [HandlerStep] + rest;
  }

  /**
   * After GOT_IP the bridge service is running, or on its way, once the handler is done, however the
   * tasks interleave, if and only if the node is root at the check and no task is in its exit window.
   */
  lemma BridgeRestartIff(w: World)
    requires Inv(w) && w.handler == HBridgeCheck
    ensures (forall es :: BridgeQuiet(es) && Run(w, es).handler == HIdle ==> Bridging(Run(w, es)))
            <==> w.root && !BridgeExiting(w)
  {
    if w.root && !BridgeExiting(w) {
      InvBridge(w);
      hide Inv;
      forall es | BridgeQuiet(es) && Run(w, es).handler == HIdle
        ensures Bridging(Run(w, es))
      {
        BridgeTrackRun(w, es);
      }
    } else {
      hide Inv;
      var es := LostBridge(w);
      assert !Bridging(Run(w, es));
    }
  }

  function Addressed(gotIp: bool, root: bool, started: bool, h: Handler, bridge: seq<BridgePc>, s: Sockets): World {
    BOOT.(gotIp := gotIp, root := root, bridgeStarted := started, handler := h, bridge := bridge, sockets := s)
  }

  lemma AddressedSteps()
    ensures var none, one := Sockets(0, {}), Sockets(1, {1});
            && Step(BOOT, RootChange(true)) == Addressed(false, true, false, HIdle, [], none)
            && Step(Addressed(false, true, false, HIdle, [], none), GotIp)
               == Addressed(true, true, false, HBridgeCheck, [], none)
            && Step(Addressed(true, true, false, HBridgeCheck, [], none), HandlerStep)
               == Addressed(true, true, false, HBridgeSet, [], none)
            && Step(Addressed(true, true, false, HBridgeSet, [], none), HandlerStep)
               == Addressed(true, true, true, HBridgeCreate, [], none)
            && Step(Addressed(true, true, true, HBridgeCreate, [], none), HandlerStep)
               == Addressed(true, true, true, HIdle, [BWait], none)
            && Step(Addressed(true, true, true, HIdle, [BWait], none), BridgeStep(0, -1, 0))
               == Addressed(true, true, true, HIdle, [BOpen], none)
            && Step(Addressed(true, true, true, HIdle, [BOpen], none), BridgeStep(0, 1, 0))
               == Addressed(true, true, true, HIdle, [BLoop], one)
            && Step(Addressed(true, true, true, HIdle, [BLoop], one), LinkDown)
               == Addressed(false, true, true, HIdle, [BLoop], one)
            && Step(Addressed(false, true, true, HIdle, [BLoop], one), BridgeStep(0, -1, 0))
               == Addressed(false, true, true, HIdle, [BClose], one)
            && Step(Addressed(false, true, true, HIdle, [BClose], one), GotIp)
               == Addressed(true, true, true, HBridgeCheck, [BClose], one)
  {
  }

  /** A run from boot to a root whose GOT_IP meets the bridge task in its exit window. */
  lemma BridgeWindowRun() returns (es: seq<Event>)
    ensures var w := Run(BOOT, es);
            Inv(w) && w.handler == HBridgeCheck && w.root && BridgeExiting(w)
  {
    hide Run, Step, Inv, BridgeExiting;
    AddressedSteps();
    var none, one := Sockets(0, {}), Sockets(1, {1});
    var last := Addressed(true, true, true, HBridgeCheck, [BClose], one);
    RunNothing(last);
    RunCons(Addressed(false, true, true, HIdle, [BClose], one), GotIp, []);
    es := [GotIp] + [];
    RunCons(Addressed(false, true, true, HIdle, [BLoop], one), BridgeStep(0, -1, 0), es);
    es := [BridgeStep(0, -1, 0)] + es;
    RunCons(Addressed(true, true, true, HIdle, [BLoop], one), LinkDown, es);
    es := [LinkDown] + es;
    RunCons(Addressed(true, true, true, HIdle, [BOpen], none), BridgeStep(0, 1, 0), es);
    es := [BridgeStep(0, 1, 0)] + es;
    RunCons(Addressed(true, true, true, HIdle, [BWait], none), BridgeStep(0, -1, 0), es);
    es := [BridgeStep(0, -1, 0)] + es;
    RunCons(Addressed(true, true, true, HBridgeCreate, [], none), HandlerStep, es);
    es := [HandlerStep] + es;
    RunCons(Addressed(true, true, false, HBridgeSet, [], none), HandlerStep, es);
    es := [HandlerStep] + es;
    RunCons(Addressed(true, true, false, HBridgeCheck, [], none), HandlerStep, es);
    es := [HandlerStep] + es;
    RunCons(Addressed(false, true, false, HIdle, [], none), GotIp, es);
    es := [GotIp] + es;
    RunCons(BOOT, RootChange(true), es);
    es := [RootChange(true)] + es;
    BootInv();
    RunKeeps(BOOT, es);
    BridgeExitingNow(last);
  }

  lemma BridgeExitingNow(w: World)
    requires w.bridge == [BClose]
    ensures BridgeExiting(w)
  {
    assert w.bridge[0] == BClose;
  }

  /** So the bridge is lost in a run from boot: root, an address, an idle handler, and no bridge task. */
  lemma LostBridgeRun() returns (es: seq<Event>, more: seq<Event>)
    ensures var w := Run(BOOT, es);
            && w.handler == HBridgeCheck && BridgeQuiet(more)
            && var w' := Run(w, more);
               && w'.root && w'.gotIp && w'.handler == HIdle
               && forall j :: 0 <= j < |w'.bridge| ==> w'.bridge[j] == BDone
  {
    hide Run;
    es := BridgeWindowRun();
    more := LostBridge(Run(BOOT, es));
  }

  /** And in one whose GOT_IP comes before the node is root. */
  lemma EarlyAddressRun() returns (es: seq<Event>)
    ensures var w := Run(BOOT, es);
            w.root && w.gotIp && w.handler == HIdle && w.bridge == []
  {
    var w1 := Step(BOOT, GotIp);
    var w2 := Step(w1, HandlerStep);
    var w3 := Step(w2, RootChange(true));
    RunNothing(w3);
    RunCons(w2, RootChange(true), []);
    RunCons(w1, HandlerStep, [RootChange(true)] + []);
    RunCons(BOOT, GotIp, [HandlerStep] + ([RootChange(true)] + []));
    hide Run;
    es := [GotIp] + ([HandlerStep] + ([RootChange(true)] + []));
  }

  // ---------------------------------------------------------------- when the loops end

  /** A mesh task goes on exactly as long as it finds the node connected. */
  lemma MeshGoesOnIff(w: World, i: nat)
    requires i < |w.mesh| && (w.mesh[i] == MStart || w.mesh[i] == MLoop)
    ensures var w' := Step(w, MeshStep(i));
            w'.mesh == w.mesh[i := if w.connected then MLoop else MExit] && w'.meshStarted == w.meshStarted
  {
  }

  /** Once it finds the link down, two steps of it later the flag is clear and no mesh task is left. */
  lemma LinkLossEnds(w: World, i: nat)
    requires Inv(w) && i < |w.mesh| && (w.mesh[i] == MStart || w.mesh[i] == MLoop) && !w.connected
    ensures var w' := Step(Step(w, MeshStep(i)), MeshStep(i));
            !w'.meshStarted && |w'.mesh| == |w.mesh| && forall j :: 0 <= j < |w'.mesh| ==> w'.mesh[j] == MDone
  {
    CountAtMostOne(w.mesh, MeshAlive);
    hide Count, Inv;
    assert MeshAlive(w.mesh[i]);
    assert forall j :: 0 <= j < |w.mesh| && j != i ==> !MeshAlive(w.mesh[j]);
  }

  /** A bridge task waits for the address as long as the node is root, and no longer. */
  lemma BridgeWaitsIff(w: World, i: nat, fd: int, len: int)
    requires i < |w.bridge| && w.bridge[i] == BWait
    ensures var w' := Step(w, BridgeStep(i, fd, len));
            w' == w.(bridge := w.bridge[i := if w.root && !w.gotIp then BWait else BOpen])
  {
  }

  /** Then it opens the socket if the node is root: the stored one is closed, the new one stored, -1 for none. */
  lemma BridgeOpens(w: World, i: nat, fd: int, len: int)
    requires i < |w.bridge| && w.bridge[i] == BOpen && Possible(w.sockets, fd)
    ensures var w' := Step(w, BridgeStep(i, fd, len));
            && w'.bridge == w.bridge[i := BLoop] && w'.bridgeStarted == w.bridgeStarted
            && (if w.root then
                  && w'.sockets.udp == fd
                  && (forall n :: n in w'.sockets.open <==>
                        (n == fd && fd >= 0) || (n in w.sockets.open && !(n == w.sockets.udp && n > 0)))
                else w'.sockets == w.sockets)
  {
  }

  /** In its loop it goes on exactly as long as the node has an address, is root, and receives do not fail. */
  lemma BridgeGoesOnIff(w: World, i: nat, fd: int, len: int)
    requires i < |w.bridge| && w.bridge[i] == BLoop
    ensures var w' := Step(w, BridgeStep(i, fd, len));
            w' == w.(bridge := w.bridge[i := if w.gotIp && w.root && len >= 0 then BLoop else BClose])
  {
  }

  /** Past its loop it closes the stored descriptor, if positive, and then clears the flag. */
  lemma BridgeCloses(w: World, i: nat, fd: int, len: int)
    requires i < |w.bridge|
    ensures w.bridge[i] == BClose ==>
              Step(w, BridgeStep(i, fd, len))
              == w.(bridge := w.bridge[i := BClear],
                    sockets := if w.sockets.udp > 0 then Sockets(0, w.sockets.open - {w.sockets.udp}) else w.sockets)
    ensures w.bridge[i] == BClear ==>
              Step(w, BridgeStep(i, fd, len)) == w.(bridge := w.bridge[i := BDone], bridgeStarted := false)
  {
  }

  lemma OthersDone(w: World, i: nat)
    requires Inv(w) && i < |w.bridge| && w.bridge[i] == BLoop
    ensures forall j :: 0 <= j < |w.bridge| && j != i ==> w.bridge[j] == BDone
  {
    CountAtMostOne(w.bridge, BridgeAlive);
    hide Count;
    assert BridgeAlive(w.bridge[i]);
    assert forall j :: 0 <= j < |w.bridge| && j != i ==> !BridgeAlive(w.bridge[j]);
  }

  /**
   * A failed receive ends the bridge whatever the address and the role: two more steps of the task
   * leave the stored descriptor closed, nothing stored, the flag clear, and no bridge task.
   */
  lemma FailedReceiveEnds(w: World, i: nat, fd: int, len: int)
    requires Inv(w) && i < |w.bridge| && w.bridge[i] == BLoop && len < 0
    ensures Step(w, BridgeStep(i, fd, len)).bridge == w.bridge[i := BClose]
    ensures var w' := Step(Step(Step(w, BridgeStep(i, fd, len)), BridgeStep(i, fd, len)), BridgeStep(i, fd, len));
            && !w'.bridgeStarted && |w'.bridge| == |w.bridge|
            && (forall j :: 0 <= j < |w'.bridge| ==> w'.bridge[j] == BDone)
            && w'.sockets == if w.sockets.udp > 0 then Sockets(0, w.sockets.open - {w.sockets.udp}) else w.sockets
  {
    hide Step, Inv;
    OthersDone(w, i);
    BridgeGoesOnIff(w, i, fd, len);
    var w1 := Step(w, BridgeStep(i, fd, len));
    BridgeCloses(w1, i, fd, len);
    BridgeCloses(Step(w1, BridgeStep(i, fd, len)), i, fd, len);
  }

  // ---------------------------------------------------------------- the socket module in place

  class SocketState {
    var udpSocket: int
    /** The descriptors the system has open for this program. */
    ghost var open: set<int>

    ghost function View(): Sockets
      reads this
    {
      Sockets(udpSocket, open)
    }

    constructor ()
      ensures View() == BOOT.sockets
    {
      udpSocket := 0;
      open := {};
    }

    method Close(fd: int)
      modifies this`open
      ensures open == old(open) - {fd}
    {
      open := open - {fd};
    }

    /** `fd` is what the system's socket call returns. */
    method Create(fd: int) returns (r: int)
      requires Possible(View(), fd)
      modifies this
      ensures View() == CreateSocket(old(View()), fd) && r == fd
    {
      if udpSocket > 0 {
        Close(udpSocket);
      }
      udpSocket := fd;
      open := if fd >= 0 then open + {fd} else open;
      r := udpSocket;
    }

    method Shut()
      modifies this
      ensures View() == CloseSocket(old(View()))
    {
      if udpSocket > 0 {
        Close(udpSocket);
        udpSocket := 0;
      }
    }
  }
}
