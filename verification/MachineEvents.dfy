/**
 * How an OpenStackMachine learns about its OpenStackServer: the decision of reconcileMachineState
 * whether to come back by timer (controllers/openstackmachine_controller.go) and the predicate that
 * filters watch events (controllers/openstackserver_controller.go).
 */
module MachineEvents {
  import opened Common
  import opened Instances

  datatype Outcome = Proceed | Stop | RequeueAfter

  /** reconcileMachineState: Proceed is the nil result, Stop the empty one. */
  function MachineStateOutcome(state: Option<InstanceState>): Outcome {
    match state
    case None => RequeueAfter
    case Some(Active) => Proceed
    case Some(Error) => RequeueAfter
    case Some(Deleted) => Stop
    case Some(Build) => RequeueAfter
    case Some(Undefined) => RequeueAfter
    case Some(_) => RequeueAfter
  }

  predicate Reportable(state: Option<InstanceState>) {
    state == Some(Active) || state == Some(Error) || state == Some(Deleted)
  }

  /** ptr.Deref(state, ""): no state and the undefined state are the same string. */
  function Named(state: Option<InstanceState>): InstanceState {
    state.GetOr(Undefined)
  }

  /** UpdateFunc of OpenStackServerStatusReportable. */
  predicate PassesUpdate(old_: ServerStatus, new_: ServerStatus) {
    || old_.ready != new_.ready
    || (Named(old_.instanceState) != Named(new_.instanceState)
        && (Reportable(old_.instanceState) || Reportable(new_.instanceState)))
  }

  /** Every change away from a state is let through exactly when that state is reportable. */
  lemma EveryChangePassesExactly(old_: ServerStatus)
    ensures Reportable(old_.instanceState) <==>
            forall new_: ServerStatus :: Named(new_.instanceState) != Named(old_.instanceState) ==> PassesUpdate(old_, new_)
  {
    if !Reportable(old_.instanceState) {
      var other := if Named(old_.instanceState) == Build then Other("MIGRATING") else Build;
      var blocked := old_.(instanceState := Some(other));
      assert Named(blocked.instanceState) != Named(old_.instanceState) && !PassesUpdate(old_, blocked);
    }
  }

  /**
   * The update predicate passes a change of ready, and a change between differently named states if
   * one of the two is reportable; nothing else.
   */
  lemma PassesExactly(old_: ServerStatus, new_: ServerStatus)
    ensures old_.ready != new_.ready ==> PassesUpdate(old_, new_)
    ensures old_.ready == new_.ready && Named(old_.instanceState) == Named(new_.instanceState) ==> !PassesUpdate(old_, new_)
    ensures old_.ready == new_.ready && !Reportable(old_.instanceState) && !Reportable(new_.instanceState) ==> !PassesUpdate(old_, new_)
    ensures Named(old_.instanceState) != Named(new_.instanceState) && new_.instanceState in {Some(Active), Some(Error), Some(Deleted)} ==>
              PassesUpdate(old_, new_) && PassesUpdate(new_, old_)
  {
  }

  // ---------------------------------------------------------------- the wake-up protocol

  /**
   * One machine and its server. `actual` is the server's stored status, `cache` the copy in the
   * machine controller's informer, which reads are served from. A reconcile is in progress
   * between Start and Finish; `acted` is the state the last finished one acted on. While the machine
   * is blocked (its cluster is paused, bootstrap data is missing, or its finalizer is only now being
   * written) a reconcile takes the event, acts on nothing and sets no timer. `admitted` says whether
   * the server's events pass the filter that the controller puts on all its watches: they do without
   * a watch filter, and with one only if the server carries its label.
   */
  datatype World = World(
    actual: ServerStatus,
    cache: ServerStatus,
    acted: Option<Option<InstanceState>>,
    running: Option<Option<InstanceState>>,
    queued: bool,
    timer: bool,
    blocked: bool,
    admitted: bool)

  ghost predicate Init(w: World) {
    && w.actual == w.cache == ServerStatus(None, None, false)
    && w.acted.None? && w.running.None?
    && w.queued && !w.timer
  }

  /** The server controller writes the status. */
  ghost predicate Write(w: World, w': World) {
    && StatusOK(w'.actual)
    && w' == w.(actual := w'.actual)
  }

  /** The watch brings the cache up to date, possibly skipping intermediate statuses. */
  ghost predicate Deliver(w: World, w': World) {
    w' == w.(cache := w.actual, queued := w.queued || (w.admitted && PassesUpdate(w.cache, w.actual)))
  }

  ghost predicate Fire(w: World, w': World) {
    w.timer && w' == w.(timer := false, queued := true)
  }

  /** A worker takes the machine from the queue and reads the server. */
  ghost predicate Start(w: World, w': World) {
    w.queued && !w.blocked && w.running.None? && w' == w.(queued := false, running := Some(w.cache.instanceState))
  }

  /** A worker takes the machine from the queue and leaves early. */
  ghost predicate Skip(w: World, w': World) {
    w.queued && w.blocked && w.running.None? && w' == w.(queued := false)
  }

  ghost predicate Block(w: World, w': World) {
    w' == w.(blocked := true)
  }

  /** What blocked the machine ends, and the watches on Cluster, Machine and OpenStackMachine queue it. */
  ghost predicate Unblock(w: World, w': World) {
    w' == w.(blocked := false, queued := true)
  }

  /** The reconcile ends: with an error it is retried, otherwise a timer is set where the code asks for one. */
  ghost predicate Finish(w: World, w': World) {
    && w.running.Some?
    && w'.actual == w.actual && w'.cache == w.cache && w'.blocked == w.blocked && w'.admitted == w.admitted
    && w'.acted == Some(w.running.value) && w'.running.None?
    && (w.queued ==> w'.queued) && (w.timer ==> w'.timer)
    && (w'.queued || (MachineStateOutcome(w.running.value).RequeueAfter? ==> w'.timer))
  }

  ghost predicate Step(w: World, w': World) {
    || Write(w, w') || Deliver(w, w') || Fire(w, w') || Start(w, w') || Finish(w, w')
    || Skip(w, w') || Block(w, w') || Unblock(w, w')
  }

  ghost predicate Run(ws: seq<World>) {
    && ws != [] && Init(ws[0])
    && forall i :: 0 <= i < |ws| - 1 ==> Step(ws[i], ws[i + 1])
  }

  /** Something will still make the machine look at its server. */
  ghost predicate WillLook(w: World) {
    w.queued || w.timer
  }

  /**
   * If the machine last acted on another state than the server is in, then a reconcile is still to
   * come, or the one under way will set a timer or act on the state the watch has brought, or
   * the change is still on its way through the watch, or the machine is blocked and will be queued
   * when that ends.
   */
  ghost predicate NoLostWakeUp(w: World) {
    w.acted.None? || Named(w.acted.value) != Named(w.actual.instanceState) ==>
      || WillLook(w) || w.blocked
      || (w.running.Some? && (MachineStateOutcome(w.running.value).RequeueAfter?
                              || Named(w.running.value) == Named(w.cache.instanceState)))
      || Named(w.cache.instanceState) != Named(w.actual.instanceState)
  }

  ghost predicate Covered(w: World) {
    && (w.running.None? && !WillLook(w) && !w.blocked ==>
          && w.acted.Some? && !MachineStateOutcome(w.acted.value).RequeueAfter?
          && Named(w.acted.value) == Named(w.cache.instanceState))
    && (w.running.Some? && !WillLook(w) && !MachineStateOutcome(w.running.value).RequeueAfter? ==>
          Named(w.running.value) == Named(w.cache.instanceState))
  }

  /** A state without a timer is reportable, and no other state goes by its name. */
  lemma NoTimerIsReportable(state: Option<InstanceState>)
    requires !MachineStateOutcome(state).RequeueAfter?
    ensures Reportable(state)
    ensures forall other: Option<InstanceState> :: Named(other) == Named(state) ==> other == state
  {
  }

  lemma StepKeepsCovered(w: World, w': World)
    requires Covered(w) && Step(w, w') && w.admitted
    ensures Covered(w') && w'.admitted
  {
    if Deliver(w, w') && !WillLook(w') && (w.running.Some? || !w.blocked) {
      var state := if w.running.Some? then w.running.value else w.acted.value;
      if !MachineStateOutcome(state).RequeueAfter? {
        NoTimerIsReportable(state);
        EveryChangePassesExactly(w.cache);
      }
    }
  }

  lemma {:induction false} AdmittedRunKeepsCovered(ws: seq<World>, i: nat)
    requires Run(ws) && i < |ws| && ws[0].admitted
    ensures Covered(ws[i]) && ws[i].admitted
  {
    if i > 0 {
      AdmittedRunKeepsCovered(ws, i - 1);
      StepKeepsCovered(ws[i - 1], ws[i]);
    }
  }

  /**
   * The failing input: the server carries no label, and its events are dropped. The machine acts on an
   * active server, for which it sets no timer; the server then fails, and the machine never looks.
   */
  lemma UnlabelledServerIsNotSeen() returns (ws: seq<World>)
    ensures Run(ws) && !ws[0].admitted && !NoLostWakeUp(ws[|ws| - 1])
  {
    var active := ServerStatus(Some(1), Some(Active), true);
    var w0 := World(ServerStatus(None, None, false), ServerStatus(None, None, false), None, None, true, false, false, false);
    var w1 := w0.(actual := active);
    var w2 := w1.(cache := active);
    var w3 := w2.(queued := false, running := Some(active.instanceState));
    var w4 := w3.(running := None, acted := Some(active.instanceState));
    var w5 := w4.(actual := active.(instanceState := Some(Error), ready := false));
    var w6 := w5.(cache := w5.actual);
    ws := [w0, w1, w2, w3, w4, w5, w6];
    assert Write(w0, w1) && Deliver(w1, w2) && Start(w2, w3) && Finish(w3, w4) && Write(w4, w5) && Deliver(w5, w6);
  }

  /** No wake-up is lost in any reachable state of any run, exactly if the server's events are let through. */
  lemma NoWakeUpIsLostExactly(admitted: bool)
    ensures admitted <==> forall ws: seq<World>, i :: Run(ws) && 0 <= i < |ws| && ws[0].admitted == admitted ==> NoLostWakeUp(ws[i])
  {
    if admitted {
      forall ws: seq<World>, i | Run(ws) && 0 <= i < |ws| && ws[0].admitted ensures NoLostWakeUp(ws[i]) {
        AdmittedRunKeepsCovered(ws, i);
      }
    } else {
      var ws := UnlabelledServerIsNotSeen();
      assert !NoLostWakeUp(ws[|ws| - 1]);
    }
  }
}
