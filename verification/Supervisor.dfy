/**
 Runtime supervisors, their control handlers, and configuration appliers, interleaved
 step by step over one shared runtime lock. Several supervisors may share the lock, one
 per container; an applier needs it exclusively.
 */
module Supervisor {
  import opened Results
  import opened Faults
  import Firewall

  type SupervisorId = nat
  type HandlerId = nat
  type ApplierId = nat

  // ------------------------------------------------------------------
  // State
  // ------------------------------------------------------------------

  /** Where a supervisor is in its run. */
  datatype Phase =
    | Fresh | Locked | NetworkUp | BrokerUp | Running
    | Stopping | Stopped | Cleaned | Yielded
    | Relocking | Relocked
    | ExitKill | ExitCleanup | ExitRelease | Exited | Killed

  /**
   A supervisor's local variables and what they stand for: live children, the network flag and
   apart from it whether any firewall rules of the instance stand, the revision it has loaded,
   the revision its children run, whether it has been through a yield, and the request in
   service with its three channels.
   */
  datatype Sup = Sup(
    phase: Phase, openvpn: bool, broker: bool, api: bool, apiStarted: bool, networkActive: bool, rules: bool,
    loaded: nat, running: nat, resumed: bool,
    request: Option<HandlerId>, ready: Option<bool>, resume: Option<bool>, done: Option<bool>)

  datatype HandlerPhase = Waiting | Busy | Offering | AwaitReady | ReadySent | ResumeSent | Finished

  datatype Handler = Handler(phase: HandlerPhase, sup: SupervisorId)

  datatype ApplierPhase = Idle | RuntimeLocked | BothLocked | DataReleased

  /** The data lock is also taken by client mutations, which do not touch the runtime lock. */
  datatype DataHolder = ByApplier(a: ApplierId) | ByMutation

  datatype World = World(
    shared: set<SupervisorId>, exclusive: Option<ApplierId>, data: Option<DataHolder>,
    revision: nat, sups: map<SupervisorId, Sup>, busy: map<SupervisorId, HandlerId>,
    handlers: map<HandlerId, Handler>, appliers: map<ApplierId, ApplierPhase>)

  predicate ChildAlive(s: Sup) {
    s.openvpn || s.broker
  }

  // ------------------------------------------------------------------
  // Steps
  // ------------------------------------------------------------------

  datatype Child = OpenVPN | Broker | Api

  /**
   A supervisor starting its runtime, in the order of its code. Wherever the network is worked on,
   `left` tells whether rules stand afterwards, within what that work can do (see `Firewall`);
   a child that cannot be started has it cleaned up.
   */
  datatype StartStep =
    | AcquireShared(ok: bool)
    | ReconcileNetwork(outcome: Outcome, required: bool, left: bool)
    | StartBroker
    | StartOpenVPN
    | BrokerFails(cleanup: Outcome, left: bool)
    | OpenVPNFails(cleanup: Outcome, left: bool)
    | StartApi

  /** A supervisor yielding the lock and coming back; a failed release may or may not have let the lock go. */
  datatype YieldStep =
    | StopRuntime
    | CleanupNetwork(outcome: Outcome, left: bool)
    | ReleaseShared(ok: bool, dropped: bool)
    | ReceiveResume
    | ReacquireShared(ok: bool)
    | Reload(ok: bool)

  /**
   `Cancel` is also the way out when HUP cannot be forwarded or the management API cannot be started;
   the deferred cleanup does nothing unless the flag is set. `Kill` is no step of the code: it takes
   the process down, which drops its lock, and leaves its children and rules alone.
   */
  datatype LeaveStep =
    | NoticeExit | Cancel | KillChildren | CleanupOnExit(outcome: Outcome, left: bool) | NothingToClean | ReleaseOnExit
    | Kill

  datatype HandlerStep = TakeBusy | Offer | WriteReady | SendResume(resume: bool) | WriteOk | FinishHandler

  datatype ApplierStep = LockRuntime | LockData | ChangeConfig | UnlockData | UnlockRuntime | Die

  datatype Step =
    // an earlier run of the instance may have left rules
    | Load(s: SupervisorId, left: bool)
    | Starts(s: SupervisorId, start: StartStep)
    | Yields(s: SupervisorId, yielding: YieldStep)
    | Leaves(s: SupervisorId, leaving: LeaveStep)
    | TakeRequest(s: SupervisorId, h: HandlerId)
    | Dies(s: SupervisorId, child: Child)
    | Connect(h: HandlerId, s: SupervisorId)
    | Handles(h: HandlerId, handling: HandlerStep)
    | Applies(a: ApplierId, applying: ApplierStep)
    // a client mutation, which takes the data lock alone
    | MutationLocks
    | MutationUnlocks

  function SetSup(w: World, s: SupervisorId, sup: Sup): World {
    w.(sups := w.sups[s := sup])
  }

  function SetHandler(w: World, h: HandlerId, phase: HandlerPhase): World
    requires h in w.handlers
  {
    w.(handlers := w.handlers[h := w.handlers[h].(phase := phase)])
  }

  predicate At(w: World, s: SupervisorId, phase: Phase) {
    s in w.sups && w.sups[s].phase == phase
  }

  predicate HandlerAt(w: World, h: HandlerId, phase: HandlerPhase) {
    h in w.handlers && w.handlers[h].phase == phase
  }

  predicate ApplierAt(w: World, a: ApplierId, phase: ApplierPhase) {
    a in w.appliers && w.appliers[a] == phase
  }

  /** What a supervisor step does to the shared lock. */
  datatype Hold = Keep | Acquire | Release

  datatype Advanced = Stuck | Advanced(sup: Sup, hold: Hold)

  /** A cleanup of the network may end this way. */
  predicate Cleans(sup: Sup, outcome: Outcome, left: bool) {
    outcome != Crashed && Firewall.CleanupLeaves(sup.rules, outcome, left)
  }

  /** Startup, up to the running state; `free` tells whether the lock can be shared. */
  function Startup(sup: Sup, step: StartStep, free: bool): Advanced {
    match step
    case AcquireShared(ok) =>
      if !sup.phase.Fresh? || (ok && !free) then Stuck
      else if ok then Advanced(sup.(phase := Locked), Acquire)
      else Advanced(sup.(phase := Exited), Keep)
    case ReconcileNetwork(outcome, required, left) =>
      if !sup.phase.Locked? || outcome == Crashed || !Firewall.ReconcileLeaves(required, sup.rules, outcome, left)
      then Stuck
      else if outcome == Done then Advanced(sup.(phase := NetworkUp, networkActive := true, rules := left), Keep)
      else Advanced(sup.(phase := ExitKill, rules := left, done := Some(false)), Keep)
    case StartBroker =>
      if !sup.phase.NetworkUp? then Stuck
      else Advanced(sup.(phase := BrokerUp, broker := true, running := sup.loaded), Keep)
    case StartOpenVPN =>
      if !sup.phase.BrokerUp? then Stuck
      else Advanced(sup.(phase := Running, openvpn := true, done := Some(true), request := None), Keep)
    case BrokerFails(cleanup, left) =>
      if !sup.phase.NetworkUp? || !Cleans(sup, cleanup, left) then Stuck
      else Advanced(sup.(phase := ExitKill, networkActive := false, rules := left, done := Some(false)), Keep)
    case OpenVPNFails(cleanup, left) =>
      if !sup.phase.BrokerUp? || !Cleans(sup, cleanup, left) then Stuck
      else Advanced(sup.(phase := ExitKill, broker := false, networkActive := false, rules := left,
        done := Some(false)), Keep)
    case StartApi =>
      if !sup.phase.Running? || sup.resumed || sup.apiStarted then Stuck
      else Advanced(sup.(api := true, apiStarted := true), Keep)
  }

  /** Yielding to an applier and coming back. */
  function Yielding(sup: Sup, step: YieldStep, free: bool, revision: nat): Advanced {
    match step
    case StopRuntime =>
      if !sup.phase.Stopping? then Stuck else Advanced(sup.(phase := Stopped, openvpn := false, broker := false), Keep)
    case CleanupNetwork(outcome, left) =>
      // an error keeps the flag
      if !sup.phase.Stopped? || !Cleans(sup, outcome, left) then Stuck
      else if outcome == Done then Advanced(sup.(phase := Cleaned, networkActive := false, rules := left), Keep)
      else Advanced(sup.(phase := ExitKill, rules := left, ready := Some(false)), Keep)
    case ReleaseShared(ok, dropped) =>
      if !sup.phase.Cleaned? then Stuck
      else if ok then Advanced(sup.(phase := Yielded, ready := Some(true)), Release)
      else Advanced(sup.(phase := ExitKill, ready := Some(false)), if dropped then Release else Keep)
    case ReceiveResume =>
      if !sup.phase.Yielded? || sup.resume.None? then Stuck
      else if sup.resume.value then Advanced(sup.(phase := Relocking), Keep)
      else Advanced(sup.(phase := ExitKill), Keep)
    case ReacquireShared(ok) =>
      if !sup.phase.Relocking? || (ok && !free) then Stuck
      else if ok then Advanced(sup.(phase := Relocked), Acquire)
      else Advanced(sup.(phase := ExitKill, done := Some(false)), Keep)
    case Reload(ok) =>
      if !sup.phase.Relocked? then Stuck
      else if ok then Advanced(sup.(phase := Locked, loaded := revision, resumed := true), Keep)
      else Advanced(sup.(phase := ExitKill, done := Some(false)), Keep)
  }

  /** The event loop's exits and the deferred shutdown, last deferred first. */
  function Leaving(sup: Sup, step: LeaveStep): Advanced {
    match step
    case NoticeExit =>
      // a dead child makes its sibling be terminated; a dead API makes both be stopped
      if !sup.phase.Running? then Stuck
      else if !sup.openvpn then Advanced(sup.(phase := ExitKill, broker := false), Keep)
      else if !sup.broker then Advanced(sup.(phase := ExitKill, openvpn := false), Keep)
      else if sup.apiStarted && !sup.api then Advanced(sup.(phase := ExitKill, openvpn := false, broker := false), Keep)
      else Stuck
    case Cancel =>
      if sup.phase.Running? || sup.phase.Yielded? then Advanced(sup.(phase := ExitKill), Keep) else Stuck
    case KillChildren =>
      if !sup.phase.ExitKill? then Stuck
      else Advanced(sup.(phase := ExitCleanup, openvpn := false, broker := false, api := false), Keep)
    case CleanupOnExit(outcome, left) =>
      // errors are only reported here; the flag is cleared either way
      if !sup.phase.ExitCleanup? || !sup.networkActive || !Cleans(sup, outcome, left) then Stuck
      else Advanced(sup.(phase := ExitRelease, networkActive := false, rules := left), Keep)
    case NothingToClean =>
      if !sup.phase.ExitCleanup? || sup.networkActive then Stuck else Advanced(sup.(phase := ExitRelease), Keep)
    case ReleaseOnExit =>
      if !sup.phase.ExitRelease? then Stuck else Advanced(sup.(phase := Exited), Release)
    case Kill =>
      if sup.phase.Exited? || sup.phase.Killed? then Stuck else Advanced(sup.(phase := Killed), Release)
  }

  function HoldAfter(shared: set<SupervisorId>, s: SupervisorId, hold: Hold): set<SupervisorId> {
    match hold
    case Keep => shared
    case Acquire => shared + {s}
    case Release => shared - {s}
  }

  /** The world after supervisor `s` has taken a step of its own. */
  function Moved(w: World, s: SupervisorId, next: Advanced): Option<World> {
    match next
    case Stuck => None
    case Advanced(sup, hold) => Some(SetSup(w.(shared := HoldAfter(w.shared, s, hold)), s, sup))
  }

  function StartsStep(w: World, s: SupervisorId, step: StartStep): Option<World> {
    if s in w.sups then Moved(w, s, Startup(w.sups[s], step, w.exclusive.None?)) else None
  }

  function YieldsStep(w: World, s: SupervisorId, step: YieldStep): Option<World> {
    if s in w.sups then Moved(w, s, Yielding(w.sups[s], step, w.exclusive.None?, w.revision)) else None
  }

  function LeavesStep(w: World, s: SupervisorId, step: LeaveStep): Option<World> {
    if s in w.sups then Moved(w, s, Leaving(w.sups[s], step)) else None
  }

  function Loaded(revision: nat, left: bool): Sup {
    Sup(Fresh, false, false, false, false, false, left, revision, 0, false, None, None, None, None)
  }

  /** A supervisor begins with the revision it reads before it holds the lock. */
  function LoadStep(w: World, s: SupervisorId, left: bool): Option<World> {
    if s in w.sups then None
    else Some(SetSup(w, s, Loaded(w.revision, left)))
  }

  /** The rendezvous of a running supervisor with a handler that offers a request. */
  function TakeRequestStep(w: World, s: SupervisorId, h: HandlerId): Option<World> {
    if !At(w, s, Running) || !HandlerAt(w, h, Offering) || w.handlers[h].sup != s then None
    else
      Some(SetHandler(SetSup(w, s, w.sups[s].(phase := Stopping, request := Some(h), ready := None, resume := None,
        done := None)), h, AwaitReady))
  }

  function Bereaved(sup: Sup, child: Child): Sup {
    match child
    case OpenVPN => sup.(openvpn := false)
    case Broker => sup.(broker := false)
    case Api => sup.(api := false)
  }

  function ChildDies(w: World, s: SupervisorId, child: Child): Option<World> {
    if s in w.sups then Some(SetSup(w, s, Bereaved(w.sups[s], child))) else None
  }

  function ConnectStep(w: World, h: HandlerId, s: SupervisorId): Option<World> {
    if h in w.handlers then None else Some(w.(handlers := w.handlers[h := Handler(Waiting, s)]))
  }

  /** The world after a handler step. A handler serves at most one request, in the busy slot. */
  function HandlesStep(w: World, h: HandlerId, step: HandlerStep): Option<World> {
    if h !in w.handlers || At(w, w.handlers[h].sup, Killed) then None
    else
      var s := w.handlers[h].sup;
      var phase := w.handlers[h].phase;
      match step
      case TakeBusy =>
        if !phase.Waiting? then None
        else if s in w.busy then Some(SetHandler(w, h, Finished))
        else Some(SetHandler(w.(busy := w.busy[s := h]), h, Busy))
      case Offer =>
        if phase.Busy? then Some(SetHandler(w, h, Offering)) else None
      case WriteReady =>
        if !phase.AwaitReady? || s !in w.sups || w.sups[s].ready != Some(true) then None
        else Some(SetHandler(w, h, ReadySent))
      case SendResume(resume) =>
        if !phase.ReadySent? || s !in w.sups then None
        else Some(SetHandler(SetSup(w, s, w.sups[s].(resume := Some(resume))), h, ResumeSent))
      case WriteOk =>
        if !phase.ResumeSent? || s !in w.sups || w.sups[s].done != Some(true) then None
        else Some(SetHandler(if s in w.busy && w.busy[s] == h then w.(busy := w.busy - {s}) else w, h, Finished))
      case FinishHandler =>
        if !MayFinish(phase) then None
        else
          var next := if s in w.busy && w.busy[s] == h then w.(busy := w.busy - {s}) else w;
          Some(SetHandler(next, h, Finished))
  }

  /**
   A handler leaves on the answer it waits for, or at any time because its server is cancelled;
   but once READY is written it first says whether to resume.
   */
  predicate MayFinish(phase: HandlerPhase) {
    !phase.ReadySent? && !phase.Finished?
  }

  predicate Ending(s: Sup) {
    s.phase.ExitKill? || s.phase.ExitCleanup? || s.phase.ExitRelease? || s.phase.Exited? || s.phase.Killed?
  }

  /** The world after an applier step: runtime lock, then data lock, released in reverse or by its death. */
  function AppliesStep(w: World, a: ApplierId, step: ApplierStep): Option<World> {
    match step
    case LockRuntime =>
      if (a in w.appliers && w.appliers[a] != Idle) || w.shared != {} || w.exclusive.Some? then None
      else Some(w.(exclusive := Some(a), appliers := w.appliers[a := RuntimeLocked]))
    case LockData =>
      if !ApplierAt(w, a, RuntimeLocked) || w.data.Some? then None
      else Some(w.(data := Some(ByApplier(a)), appliers := w.appliers[a := BothLocked]))
    case ChangeConfig =>
      if ApplierAt(w, a, BothLocked) then Some(w.(revision := w.revision + 1)) else None
    case UnlockData =>
      if ApplierAt(w, a, BothLocked) then Some(w.(data := None, appliers := w.appliers[a := DataReleased])) else None
    case UnlockRuntime =>
      // also the exit of an applier that could not get the data lock
      if ApplierAt(w, a, DataReleased) || ApplierAt(w, a, RuntimeLocked)
      then Some(w.(exclusive := None, appliers := w.appliers[a := Idle])) else None
    case Die =>
      if a !in w.appliers || w.appliers[a] == Idle then None
      else
        Some(w.(exclusive := None, appliers := w.appliers[a := Idle],
                data := if w.data == Some(ByApplier(a)) then None else w.data))
  }

  function MutationStep(w: World, locks: bool): Option<World> {
    if locks && w.data.None? then Some(w.(data := Some(ByMutation)))
    else if !locks && w.data == Some(ByMutation) then Some(w.(data := None))
    else None
  }

  function Take(w: World, step: Step): Option<World> {
    match step
    case Load(s, left) => LoadStep(w, s, left)
    case Starts(s, start) => StartsStep(w, s, start)
    case Yields(s, yielding) => YieldsStep(w, s, yielding)
    case Leaves(s, leaving) => LeavesStep(w, s, leaving)
    case TakeRequest(s, h) => TakeRequestStep(w, s, h)
    case Dies(s, child) => ChildDies(w, s, child)
    case Connect(h, s) => ConnectStep(w, h, s)
    case Handles(h, handling) => HandlesStep(w, h, handling)
    case Applies(a, applying) => AppliesStep(w, a, applying)
    case MutationLocks => MutationStep(w, true)
    case MutationUnlocks => MutationStep(w, false)
  }

  /** The world after a whole interleaving. */
  function Run(w: World, steps: seq<Step>): Option<World> {
    if steps == [] then Some(w)
    else
      match Run(w, steps[..|steps| - 1])
      case None => None
      case Some(before) => Take(before, steps[|steps| - 1])
  }

  const START := World({}, None, None, 1, map[], map[], map[], map[])

  // ------------------------------------------------------------------
  // Invariant
  // ------------------------------------------------------------------

  /** The phases in which a supervisor's lock variable holds the shared lock. */
  predicate MustHold(phase: Phase) {
    match phase
    case Fresh | Yielded | Relocking | Exited | ExitKill | ExitCleanup | ExitRelease | Killed => false
    case _ => true
  }

  predicate MustNotHold(phase: Phase) {
    phase.Fresh? || phase.Yielded? || phase.Relocking? || phase.Exited? || phase.Killed?
  }

  /** The phases in which openvpn or the broker may be alive. */
  predicate MayRun(phase: Phase) {
    phase.BrokerUp? || phase.Running? || phase.Stopping? || phase.ExitKill?
  }

  /** The phases in which the network flag is set; on the way out it may be. */
  predicate IsUp(phase: Phase) {
    phase.NetworkUp? || phase.BrokerUp? || phase.Running? || phase.Stopping? || phase.Stopped?
  }

  /** Between taking a request and its answer. */
  predicate Serving(phase: Phase) {
    phase.Stopping? || phase.Stopped? || phase.Cleaned? || phase.Yielded?
  }

  /** From the reload under the lock on. */
  predicate UsesLoaded(phase: Phase) {
    phase.Locked? || phase.NetworkUp? || phase.BrokerUp? || phase.Running?
  }

  /** Children and the network flag exist only under the lock, unless the supervisor has been killed. */
  predicate HoldsLock(sup: Sup, held: bool) {
    && (MustHold(sup.phase) ==> held)
    && (MustNotHold(sup.phase) ==> !held)
    && (ChildAlive(sup) && !sup.phase.Killed? ==> MayRun(sup.phase) && held)
    && (sup.networkActive && !sup.phase.Killed? ==>
      held && (IsUp(sup.phase) || sup.phase.ExitKill? || sup.phase.ExitCleanup?))
    && (IsUp(sup.phase) ==> sup.networkActive)
    && (sup.phase.Cleaned? ==> !sup.rules)
    && (sup.phase.Fresh? || sup.phase.ExitCleanup? || sup.phase.ExitRelease? || sup.phase.Exited? ==> !sup.api)
  }

  /** Once the configuration has been read under the lock it stays current. */
  predicate RunsCurrent(sup: Sup, held: bool, revision: nat) {
    && (sup.phase.Fresh? ==> !sup.resumed)
    && (sup.resumed && held && UsesLoaded(sup.phase) ==> sup.loaded == revision)
    && (sup.phase.BrokerUp? || sup.phase.Running? ==> sup.running == sup.loaded)
    && (sup.resumed && ChildAlive(sup) && !sup.phase.Killed? ==> sup.running == revision)
  }

  /** A positive answer that no resumption has followed yet means a yielded or ending runtime. */
  predicate AnswersTruly(sup: Sup, held: bool) {
    && (sup.request.Some? && sup.resume.None? ==> Serving(sup.phase) || Ending(sup))
    && (sup.ready == Some(true) && sup.resume.None? ==>
          (sup.phase.Yielded? || Ending(sup)) && !held && !ChildAlive(sup) && !sup.networkActive && !sup.rules)
    && (Serving(sup.phase) || sup.phase.Relocking? || sup.phase.Relocked? ==> sup.done.None?)
    && (sup.ready == Some(true) ==> !sup.phase.Stopping? && !sup.phase.Stopped? && !sup.phase.Cleaned?)
  }

  predicate SupOk(sup: Sup, held: bool, revision: nat) {
    HoldsLock(sup, held) && RunsCurrent(sup, held, revision) && AnswersTruly(sup, held)
  }

  predicate SupFits(w: World, s: SupervisorId)
    requires s in w.sups
  {
    SupOk(w.sups[s], s in w.shared, w.revision)
  }

  predicate Serves(phase: HandlerPhase) {
    !phase.Waiting? && !phase.Finished?
  }

  /** A supervisor that has been told to resume, until its handler is done with it. */
  predicate Resuming(sup: Sup) {
    || Ending(sup)
    || ((sup.phase.Yielded? || sup.phase.Relocking? || sup.phase.Relocked?) && sup.done.None?)
    || ((sup.phase.Locked? || sup.phase.NetworkUp? || sup.phase.BrokerUp?) && sup.resumed && sup.done.None?)
    || (sup.phase.Running? && sup.resumed)
  }

  predicate HandlerOk(w: World, h: HandlerId)
    requires h in w.handlers
  {
    var handler := w.handlers[h];
    && (Serves(handler.phase) ==> handler.sup in w.busy && w.busy[handler.sup] == h)
    && (handler.phase.AwaitReady? || handler.phase.ReadySent? ==>
      handler.sup in w.sups && w.sups[handler.sup].request == Some(h) && w.sups[handler.sup].resume.None?)
    && (handler.phase == ReadySent ==> w.sups[handler.sup].ready == Some(true))
    && (handler.phase == ResumeSent ==> handler.sup in w.sups && Resuming(w.sups[handler.sup]))
  }

  ghost predicate Inv(w: World) {
    && (w.exclusive.Some? ==> w.shared == {})
    && (forall s :: s in w.sups ==> SupFits(w, s))
    && (forall s :: s in w.shared ==> s in w.sups)
    && (forall h :: h in w.handlers ==> HandlerOk(w, h))
    && (forall a :: a in w.appliers && w.appliers[a] != Idle ==> w.exclusive == Some(a))
    && (forall a :: ApplierAt(w, a, BothLocked) ==> w.data == Some(ByApplier(a)))
  }

  // ------------------------------------------------------------------
  // Every step keeps the invariant
  // ------------------------------------------------------------------

  lemma SameElsewhere(w: World, w': World, s: SupervisorId, other: SupervisorId)
    requires w'.sups - {s} == w.sups - {s} && w'.shared - {s} == w.shared - {s} && other != s
    ensures other in w'.sups <==> other in w.sups
    ensures other in w.sups ==> w'.sups[other] == w.sups[other]
    ensures other in w'.shared <==> other in w.shared
  {
    assert other in w.sups <==> other in w.sups - {s};
    assert other in w'.sups <==> other in w'.sups - {s};
    assert other in w.shared <==> other in w.shared - {s};
    assert other in w'.shared <==> other in w'.shared - {s};
    if other in w.sups { assert w.sups[other] == (w.sups - {s})[other] == (w'.sups - {s})[other]; }
  }

  /** A change to one supervisor and its own hold on the lock is a local matter. */
  lemma SupervisorChange(w: World, w': World, s: SupervisorId)
    requires Inv(w) && s in w'.sups
    requires w' == w.(shared := w'.shared, sups := w'.sups)
    requires w'.sups - {s} == w.sups - {s} && w'.shared - {s} == w.shared - {s}
    requires s in w'.shared && s !in w.shared ==> w.exclusive.None?
    requires SupFits(w', s)
    requires forall h :: h in w.handlers && w.handlers[h].sup == s ==> HandlerOk(w', h)
    ensures Inv(w')
  {
    forall other | other in w'.sups ensures SupFits(w', other) {
      if other != s {
        SameElsewhere(w, w', s, other);
        assert SupFits(w, other);
      }
    }
    forall other | other in w'.shared ensures other in w'.sups {
      if other != s {
        SameElsewhere(w, w', s, other);
      }
    }
    forall h | h in w'.handlers ensures HandlerOk(w', h) {
      assert HandlerOk(w, h);
      if w.handlers[h].sup != s {
        SameElsewhere(w, w', s, w.handlers[h].sup);
      }
    }
    if w'.exclusive.Some? {
      assert w.shared == {};
      assert forall other :: other in w'.shared ==> other in w'.shared - {s} || other == s;
    }
    forall a | ApplierAt(w', a, BothLocked) ensures w'.data == Some(ByApplier(a)) {
      assert ApplierAt(w, a, BothLocked);
    }
  }

  predicate HeldAfter(held: bool, hold: Hold) {
    if hold.Keep? then held else hold.Acquire?
  }

  /** What a supervisor's step owes to the lock and to the handler that waits for it. */
  predicate Fits(sup: Sup, next: Advanced, held: bool, free: bool, revision: nat) {
    && next.Advanced?
    && SupOk(next.sup, HeldAfter(held, next.hold), revision)
    && (next.hold.Acquire? ==> free)
    && next.sup.resume == sup.resume
    && (sup.request.Some? && sup.resume.None? ==> next.sup.request == sup.request)
    && (sup.ready == Some(true) ==> next.sup.ready == Some(true))
    && (Resuming(sup) ==> Resuming(next.sup))
  }

  lemma StartupRunsCurrent(sup: Sup, step: StartStep, held: bool, free: bool, revision: nat)
    requires SupOk(sup, held, revision) && Startup(sup, step, free).Advanced?
    ensures var next := Startup(sup, step, free); RunsCurrent(next.sup, HeldAfter(held, next.hold), revision)
  {
    hide AnswersTruly;
  }

  lemma StartupFits(sup: Sup, step: StartStep, held: bool, free: bool, revision: nat)
    requires SupOk(sup, held, revision) && Startup(sup, step, free).Advanced?
    ensures Fits(sup, Startup(sup, step, free), held, free, revision)
  {
    hide RunsCurrent;
    StartupRunsCurrent(sup, step, held, free, revision);
  }

  lemma YieldingLeavesNoChild(sup: Sup, step: YieldStep, held: bool, free: bool, revision: nat)
    requires HoldsLock(sup, held) && Yielding(sup, step, free, revision).Advanced?
    ensures var next := Yielding(sup, step, free, revision).sup;
            !ChildAlive(next) && !next.phase.Fresh? &&
              (UsesLoaded(next.phase) ==> next.phase.Locked? && next.loaded == revision)
  {
  }

  lemma YieldingRunsCurrent(sup: Sup, step: YieldStep, held: bool, free: bool, revision: nat)
    requires SupOk(sup, held, revision) && Yielding(sup, step, free, revision).Advanced?
    ensures var next := Yielding(sup, step, free, revision); RunsCurrent(next.sup, HeldAfter(held, next.hold), revision)
  {
    hide AnswersTruly, HoldsLock, ChildAlive, Yielding;
    YieldingLeavesNoChild(sup, step, held, free, revision);
  }

  lemma YieldingResumes(sup: Sup, step: YieldStep, free: bool, revision: nat)
    requires Yielding(sup, step, free, revision).Advanced? && Resuming(sup)
    ensures Resuming(Yielding(sup, step, free, revision).sup)
  {
    match step {
      case StopRuntime =>
      case CleanupNetwork(outcome, left) =>
      case ReleaseShared(ok, dropped) =>
      case ReceiveResume =>
      case ReacquireShared(ok) =>
      case Reload(ok) =>
    }
  }

  lemma YieldingAnswersTruly(sup: Sup, step: YieldStep, held: bool, free: bool, revision: nat)
    requires SupOk(sup, held, revision) && Yielding(sup, step, free, revision).Advanced?
    ensures var next := Yielding(sup, step, free, revision); AnswersTruly(next.sup, HeldAfter(held, next.hold))
  {
    hide RunsCurrent;
    match step {
      case StopRuntime =>
      case CleanupNetwork(outcome, left) =>
      case ReleaseShared(ok, dropped) =>
      case ReceiveResume =>
      case ReacquireShared(ok) =>
      case Reload(ok) =>
    }
  }

  lemma YieldingHoldsLock(sup: Sup, step: YieldStep, held: bool, free: bool, revision: nat)
    requires SupOk(sup, held, revision) && Yielding(sup, step, free, revision).Advanced?
    ensures var next := Yielding(sup, step, free, revision); HoldsLock(next.sup, HeldAfter(held, next.hold))
    ensures Yielding(sup, step, free, revision).hold.Acquire? ==> free
  {
    hide RunsCurrent, AnswersTruly;
    match step {
      case StopRuntime =>
      case CleanupNetwork(outcome, left) =>
      case ReleaseShared(ok, dropped) =>
      case ReceiveResume =>
      case ReacquireShared(ok) =>
      case Reload(ok) =>
    }
  }

  lemma YieldsKeepResume(sup: Sup, step: YieldStep, free: bool, revision: nat)
    requires Yielding(sup, step, free, revision).Advanced?
    ensures Yielding(sup, step, free, revision).sup.resume == sup.resume
  {
    hide Cleans;
    match step {
      case StopRuntime =>
      case CleanupNetwork(outcome, left) =>
      case ReleaseShared(ok, dropped) =>
      case ReceiveResume =>
      case ReacquireShared(ok) =>
      case Reload(ok) =>
    }
  }

  lemma YieldsKeepRequest(sup: Sup, step: YieldStep, free: bool, revision: nat)
    requires Yielding(sup, step, free, revision).Advanced?
    ensures Yielding(sup, step, free, revision).sup.request == sup.request
  {
    hide Cleans;
    match step {
      case StopRuntime =>
      case CleanupNetwork(outcome, left) =>
      case ReleaseShared(ok, dropped) =>
      case ReceiveResume =>
      case ReacquireShared(ok) =>
      case Reload(ok) =>
    }
  }

  lemma YieldsKeepReady(sup: Sup, step: YieldStep, free: bool, revision: nat)
    requires Yielding(sup, step, free, revision).Advanced? && sup.ready == Some(true)
    requires !sup.phase.Stopping? && !sup.phase.Stopped? && !sup.phase.Cleaned?
    ensures Yielding(sup, step, free, revision).sup.ready == Some(true)
  {
    hide Cleans;
    match step {
      case StopRuntime =>
      case CleanupNetwork(outcome, left) =>
      case ReleaseShared(ok, dropped) =>
      case ReceiveResume =>
      case ReacquireShared(ok) =>
      case Reload(ok) =>
    }
  }

  lemma ReadyHasYielded(sup: Sup, held: bool, revision: nat)
    requires SupOk(sup, held, revision) && sup.ready == Some(true)
    ensures !sup.phase.Stopping? && !sup.phase.Stopped? && !sup.phase.Cleaned?
  {
  }

  lemma YieldingFits(sup: Sup, step: YieldStep, held: bool, free: bool, revision: nat)
    requires SupOk(sup, held, revision) && Yielding(sup, step, free, revision).Advanced?
    ensures Fits(sup, Yielding(sup, step, free, revision), held, free, revision)
  {
    hide RunsCurrent, HoldsLock, AnswersTruly, Resuming, Yielding;
    YieldingRunsCurrent(sup, step, held, free, revision);
    YieldingAnswersTruly(sup, step, held, free, revision);
    YieldingHoldsLock(sup, step, held, free, revision);
    YieldsKeepResume(sup, step, free, revision);
    YieldsKeepRequest(sup, step, free, revision);
    if sup.ready == Some(true) {
      ReadyHasYielded(sup, held, revision);
      YieldsKeepReady(sup, step, free, revision);
    }
    if Resuming(sup) {
      YieldingResumes(sup, step, free, revision);
    }
  }

  lemma LeavingFits(sup: Sup, step: LeaveStep, held: bool, free: bool, revision: nat)
    requires SupOk(sup, held, revision) && Leaving(sup, step).Advanced?
    ensures Fits(sup, Leaving(sup, step), held, free, revision)
  {
  }

  lemma MovedKeeps(w: World, s: SupervisorId, next: Advanced)
    requires Inv(w) && s in w.sups && Fits(w.sups[s], next, s in w.shared, w.exclusive.None?, w.revision)
    ensures Inv(Moved(w, s, next).value)
  {
    hide SupOk;
    var w' := Moved(w, s, next).value;
    assert w'.sups - {s} == w.sups - {s};
    assert w'.shared - {s} == w.shared - {s};
    forall h | h in w.handlers && w.handlers[h].sup == s ensures HandlerOk(w', h) {
      assert HandlerOk(w, h);
    }
    SupervisorChange(w, w', s);
  }

  lemma StartsKeeps(w: World, s: SupervisorId, step: StartStep)
    requires Inv(w) && StartsStep(w, s, step).Some?
    ensures Inv(StartsStep(w, s, step).value)
  {
    hide SupOk, Startup, Fits;
    assert SupFits(w, s);
    StartupFits(w.sups[s], step, s in w.shared, w.exclusive.None?, w.revision);
    MovedKeeps(w, s, Startup(w.sups[s], step, w.exclusive.None?));
  }

  lemma YieldsKeeps(w: World, s: SupervisorId, step: YieldStep)
    requires Inv(w) && YieldsStep(w, s, step).Some?
    ensures Inv(YieldsStep(w, s, step).value)
  {
    hide SupOk, Yielding, Fits;
    assert SupFits(w, s);
    YieldingFits(w.sups[s], step, s in w.shared, w.exclusive.None?, w.revision);
    MovedKeeps(w, s, Yielding(w.sups[s], step, w.exclusive.None?, w.revision));
  }

  lemma LeavesKeeps(w: World, s: SupervisorId, step: LeaveStep)
    requires Inv(w) && LeavesStep(w, s, step).Some?
    ensures Inv(LeavesStep(w, s, step).value)
  {
    hide SupOk, Leaving, Fits;
    assert SupFits(w, s);
    LeavingFits(w.sups[s], step, s in w.shared, w.exclusive.None?, w.revision);
    MovedKeeps(w, s, Leaving(w.sups[s], step));
  }

  lemma LoadKeeps(w: World, s: SupervisorId, left: bool)
    requires Inv(w) && LoadStep(w, s, left).Some?
    ensures Inv(LoadStep(w, s, left).value)
  {
    var w' := LoadStep(w, s, left).value;
    assert w'.sups - {s} == w.sups - {s};
    forall h | h in w.handlers && w.handlers[h].sup == s ensures HandlerOk(w', h) {
      assert HandlerOk(w, h);
    }
    SupervisorChange(w, w', s);
  }

  lemma DeathFits(sup: Sup, child: Child, held: bool, revision: nat)
    requires SupOk(sup, held, revision)
    ensures SupOk(Bereaved(sup, child), held, revision) && (Resuming(sup) ==> Resuming(Bereaved(sup, child)))
  {
  }

  lemma DeathKeeps(w: World, s: SupervisorId, child: Child)
    requires Inv(w) && ChildDies(w, s, child).Some?
    ensures Inv(ChildDies(w, s, child).value)
  {
    hide SupOk;
    var w' := ChildDies(w, s, child).value;
    assert w'.sups - {s} == w.sups - {s};
    assert SupFits(w, s);
    DeathFits(w.sups[s], child, s in w.shared, w.revision);
    forall h | h in w.handlers && w.handlers[h].sup == s ensures HandlerOk(w', h) {
      assert HandlerOk(w, h);
    }
    SupervisorChange(w, w', s);
  }

  /** The rendezvous: the supervisor takes the offered request and the handler waits for its answer. */
  lemma TakeRequestKeeps(w: World, s: SupervisorId, h: HandlerId)
    requires Inv(w) && TakeRequestStep(w, s, h).Some?
    ensures Inv(TakeRequestStep(w, s, h).value)
  {
    var w' := TakeRequestStep(w, s, h).value;
    assert SupFits(w, s) && HandlerOk(w, h);
    forall other | other in w'.sups ensures SupFits(w', other) {
      assert SupFits(w, other);
    }
    forall other | other in w'.handlers ensures HandlerOk(w', other) {
      assert HandlerOk(w, other);
    }
    AppliersKept(w, w');
  }

  lemma AppliersKept(w: World, w': World)
    requires Inv(w) && w'.appliers == w.appliers && w'.exclusive == w.exclusive && w'.data == w.data
    ensures forall a :: a in w'.appliers && w'.appliers[a] != Idle ==> w'.exclusive == Some(a)
    ensures forall a :: ApplierAt(w', a, BothLocked) ==> w'.data == Some(ByApplier(a))
  {
    forall a | ApplierAt(w', a, BothLocked) ensures w'.data == Some(ByApplier(a)) {
      assert ApplierAt(w, a, BothLocked);
    }
  }

  lemma ConnectKeeps(w: World, h: HandlerId, s: SupervisorId)
    requires Inv(w) && ConnectStep(w, h, s).Some?
    ensures Inv(ConnectStep(w, h, s).value)
  {
    var w' := ConnectStep(w, h, s).value;
    forall other | other in w'.sups ensures SupFits(w', other) {
      assert SupFits(w, other);
    }
    forall other | other in w'.handlers ensures HandlerOk(w', other) {
      if other in w.handlers {
        assert HandlerOk(w, other);
      }
    }
    AppliersKept(w, w');
  }

  /** The only handler step that reaches into a supervisor: the answer whether to resume. */
  lemma ResumeFits(sup: Sup, resume: bool, held: bool, revision: nat)
    requires SupOk(sup, held, revision)
    ensures SupOk(sup.(resume := Some(resume)), held, revision)
    ensures Resuming(sup) || (sup.ready == Some(true) && sup.resume.None?) ==> Resuming(sup.(resume := Some(resume)))
  {
  }

  lemma ResumeKeeps(w: World, h: HandlerId, resume: bool)
    requires Inv(w) && HandlesStep(w, h, SendResume(resume)).Some?
    ensures Inv(HandlesStep(w, h, SendResume(resume)).value)
  {
    hide SupOk, Resuming, MayFinish;
    var w' := HandlesStep(w, h, SendResume(resume)).value;
    assert HandlerOk(w, h);
    forall other | other in w'.sups ensures SupFits(w', other) {
      assert SupFits(w, other);
      ResumeFits(w.sups[other], resume, other in w.shared, w.revision);
    }
    forall other | other in w'.handlers ensures HandlerOk(w', other) {
      assert HandlerOk(w, other);
      if w.handlers[other].sup in w.sups {
        assert SupFits(w, w.handlers[other].sup);
        ResumeFits(w.sups[w.handlers[other].sup], resume, w.handlers[other].sup in w.shared, w.revision);
      }
    }
    AppliersKept(w, w');
  }

  lemma HandlesKeeps(w: World, h: HandlerId, step: HandlerStep)
    requires Inv(w) && HandlesStep(w, h, step).Some?
    ensures Inv(HandlesStep(w, h, step).value)
  {
    hide SupOk, Resuming, MayFinish;
    if step.SendResume? {
      ResumeKeeps(w, h, step.resume);
    } else {
      var w' := HandlesStep(w, h, step).value;
      assert HandlerOk(w, h);
      forall other | other in w'.sups ensures SupFits(w', other) {
        assert SupFits(w, other);
      }
      forall other | other in w'.handlers ensures HandlerOk(w', other) {
        assert HandlerOk(w, other);
      }
      AppliersKept(w, w');
    }
  }

  lemma AppliesKeeps(w: World, a: ApplierId, step: ApplierStep)
    requires Inv(w) && AppliesStep(w, a, step).Some?
    ensures Inv(AppliesStep(w, a, step).value)
  {
    var w' := AppliesStep(w, a, step).value;
    forall s | s in w'.sups ensures SupFits(w', s) {
      assert SupFits(w, s);
    }
    forall h | h in w'.handlers ensures HandlerOk(w', h) {
      assert HandlerOk(w, h);
    }
    forall b | ApplierAt(w', b, BothLocked) ensures w'.data == Some(ByApplier(b)) {
      if ApplierAt(w, b, BothLocked) {
        assert w.data == Some(ByApplier(b));
      }
    }
  }

  lemma MutationKeeps(w: World, locks: bool)
    requires Inv(w) && MutationStep(w, locks).Some?
    ensures Inv(MutationStep(w, locks).value)
  {
    var w' := MutationStep(w, locks).value;
    forall s | s in w'.sups ensures SupFits(w', s) {
      assert SupFits(w, s);
    }
    forall h | h in w'.handlers ensures HandlerOk(w', h) {
      assert HandlerOk(w, h);
    }
    forall b ensures !ApplierAt(w', b, BothLocked) {
      if ApplierAt(w, b, BothLocked) {
        assert false;
      }
    }
  }

  lemma TakeKeeps(w: World, step: Step)
    requires Inv(w) && Take(w, step).Some?
    ensures Inv(Take(w, step).value)
  {
    hide Inv, StartsStep, YieldsStep, LeavesStep, HandlesStep, AppliesStep, MutationStep, ConnectStep, ChildDies,
      LoadStep, TakeRequestStep;
    match step {
      case Load(s, left) => LoadKeeps(w, s, left);
      case Starts(s, start) => StartsKeeps(w, s, start);
      case Yields(s, yielding) => YieldsKeeps(w, s, yielding);
      case Leaves(s, leaving) => LeavesKeeps(w, s, leaving);
      case TakeRequest(s, h) => TakeRequestKeeps(w, s, h);
      case Dies(s, child) => DeathKeeps(w, s, child);
      case Connect(h, s) => ConnectKeeps(w, h, s);
      case Handles(h, handling) => HandlesKeeps(w, h, handling);
      case Applies(a, applying) => AppliesKeeps(w, a, applying);
      case MutationLocks => MutationKeeps(w, true);
      case MutationUnlocks => MutationKeeps(w, false);
    }
  }

  lemma {:induction false} RunKeeps(w: World, steps: seq<Step>)
    requires Inv(w) && Run(w, steps).Some?
    ensures Inv(Run(w, steps).value)
    decreases |steps|
  {
    if steps != [] {
      RunKeeps(w, steps[..|steps| - 1]);
      TakeKeeps(Run(w, steps[..|steps| - 1]).value, steps[|steps| - 1]);
    }
  }

  // ------------------------------------------------------------------
  // Runs, step by step
  // ------------------------------------------------------------------

  lemma {:induction false} PrefixRuns(steps: seq<Step>, n: nat)
    requires Run(START, steps).Some? && n <= |steps|
    ensures Run(START, steps[..n]).Some?
    decreases |steps|
  {
    if n < |steps| {
      PrefixRuns(steps[..|steps| - 1], n);
      assert steps[..|steps| - 1][..n] == steps[..n];
    } else {
      assert steps[..n] == steps;
    }
  }

  /** The world before step `n` of a run, and after it if there is no such step. */
  ghost function Before(steps: seq<Step>, n: nat): World
    requires Run(START, steps).Some? && n <= |steps|
  {
    PrefixRuns(steps, n);
    Run(START, steps[..n]).value
  }

  lemma StepAt(steps: seq<Step>, n: nat)
    requires Run(START, steps).Some? && n < |steps|
    ensures Inv(Before(steps, n)) && Take(Before(steps, n), steps[n]) == Some(Before(steps, n + 1))
    ensures Before(steps, |steps|) == Run(START, steps).value
  {
    PrefixRuns(steps, n);
    PrefixRuns(steps, n + 1);
    RunKeeps(START, steps[..n]);
    assert steps[..n + 1][..n] == steps[..n];
    assert steps[..|steps|] == steps;
  }

  /** All that one step can make of a supervisor. */
  ghost predicate Becomes(w: World, step: Step, s: SupervisorId, after: Sup)
    requires s in w.sups
  {
    var sup := w.sups[s];
    match step
    case Starts(o, start) =>
      if o != s then after == sup
      else
        var next := Startup(sup, start, w.exclusive.None?);
        next.Advanced? && after == next.sup
    case Yields(o, yielding) =>
      if o != s then after == sup
      else
        var next := Yielding(sup, yielding, w.exclusive.None?, w.revision);
        next.Advanced? && after == next.sup
    case Leaves(o, leaving) =>
      if o != s then after == sup else Leaving(sup, leaving).Advanced? && after == Leaving(sup, leaving).sup
    case TakeRequest(o, h) =>
      after == sup || (sup.phase.Running? &&
        after == sup.(phase := Stopping, request := Some(h), ready := None, resume := None, done := None))
    case Dies(o, child) => after == if o == s then Bereaved(sup, child) else sup
    case Handles(h, handling) => after == sup ||
      (handling.SendResume? && after == sup.(resume := Some(handling.resume)))
    case _ => after == sup
  }

  lemma StepOf(w: World, step: Step, s: SupervisorId)
    requires Take(w, step).Some? && s in Take(w, step).value.sups
    ensures s in w.sups ==> Becomes(w, step, s, Take(w, step).value.sups[s])
    ensures s !in w.sups ==> step.Load? && step.s == s && Take(w, step).value.sups[s] == Loaded(w.revision, step.left)
  {
    hide Startup, Yielding, Leaving;
  }

  /** The configuration changes only while nobody shares the lock. */
  lemma ChangeExcludes(w: World, step: Step)
    requires Inv(w) && Take(w, step).Some?
    ensures Take(w, step).value.revision == w.revision || w.shared == {}
    ensures forall s :: s in w.sups ==> s in Take(w, step).value.sups
  {
    hide SupFits, HandlerOk, Startup, Yielding, Leaving, Bereaved;
  }

  // ------------------------------------------------------------------
  // What every interleaving guarantees
  // ------------------------------------------------------------------

  predicate IsKilled(w: World, s: SupervisorId) {
    At(w, s, Killed)
  }

  /** openvpn and the broker are alive, and the network counts as active, only under the supervisor's shared lock. */
  lemma ChildrenUnderLock(steps: seq<Step>, s: SupervisorId)
    requires Run(START, steps).Some? && s in Run(START, steps).value.sups
    ensures var w := Run(START, steps).value;
            ChildAlive(w.sups[s]) || w.sups[s].networkActive ==> (s in w.shared && w.exclusive.None?) || IsKilled(w, s)
  {
    RunKeeps(START, steps);
    assert SupFits(Run(START, steps).value, s);
  }

  /** While one applier holds its locks, no other does, and no supervisor that was not killed has a runtime up. */
  lemma ApplyExcludesRuntime(steps: seq<Step>, a: ApplierId)
    requires Run(START, steps).Some?
    requires a in Run(START, steps).value.appliers && Run(START, steps).value.appliers[a] != Idle
    ensures var w := Run(START, steps).value;
            && w.shared == {}
            && (forall s :: s in w.sups && !IsKilled(w, s) ==> !ChildAlive(w.sups[s]))
            && (forall b :: b in w.appliers && w.appliers[b] != Idle ==> b == a)
  {
    RunKeeps(START, steps);
    var w := Run(START, steps).value;
    forall s | s in w.sups && !IsKilled(w, s) ensures !ChildAlive(w.sups[s]) {
      assert SupFits(w, s);
    }
  }

  /** Stopped, cleaned up, and off the lock. */
  predicate HasYielded(w: World, s: SupervisorId) {
    s in w.sups && !ChildAlive(w.sups[s]) && !w.sups[s].networkActive && !w.sups[s].rules && s !in w.shared
  }

  /** READY is written only after the children have died, all rules are gone and the lock is released. */
  lemma ReadyMeansYielded(steps: seq<Step>, h: HandlerId)
    requires Run(START, steps).Some? && Take(Run(START, steps).value, Handles(h, WriteReady)).Some?
    ensures HasYielded(Run(START, steps).value, Run(START, steps).value.handlers[h].sup)
  {
    RunKeeps(START, steps);
    var w := Run(START, steps).value;
    assert HandlerOk(w, h);
    assert SupFits(w, w.handlers[h].sup);
  }

  /** It stays that way until the handler answers whether to resume. */
  lemma ReadyHolds(steps: seq<Step>, h: HandlerId)
    requires Run(START, steps).Some? && HandlerAt(Run(START, steps).value, h, ReadySent)
    ensures HasYielded(Run(START, steps).value, Run(START, steps).value.handlers[h].sup)
  {
    RunKeeps(START, steps);
    var w := Run(START, steps).value;
    assert HandlerOk(w, h);
    assert SupFits(w, w.handlers[h].sup);
  }

  /** A runtime that has been through a yield runs the revision that is current, for as long as it runs. */
  lemma ResumedRunsCurrent(steps: seq<Step>, s: SupervisorId)
    requires Run(START, steps).Some? && s in Run(START, steps).value.sups && s in Run(START, steps).value.shared
    requires Run(START, steps).value.sups[s].resumed && ChildAlive(Run(START, steps).value.sups[s])
    ensures Run(START, steps).value.sups[s].running == Run(START, steps).value.revision
  {
    RunKeeps(START, steps);
    assert SupFits(Run(START, steps).value, s);
  }

  /**
   However a supervisor leaves, on whatever error, it leaves no child and no lock behind, and takes the
   network for cleaned.
   */
  lemma ExitLeavesNothing(steps: seq<Step>, s: SupervisorId)
    requires Run(START, steps).Some? && At(Run(START, steps).value, s, Exited)
    ensures var w := Run(START, steps).value;
            !ChildAlive(w.sups[s]) && !w.sups[s].api && !w.sups[s].networkActive && s !in w.shared
  {
    RunKeeps(START, steps);
    assert SupFits(Run(START, steps).value, s);
  }

  /** At most one control request of a supervisor is in service. */
  lemma OneRequestInService(steps: seq<Step>, a: HandlerId, b: HandlerId)
    requires Run(START, steps).Some?
    requires var w := Run(START, steps).value;
             && a in w.handlers && b in w.handlers && w.handlers[a].sup == w.handlers[b].sup
             && Serves(w.handlers[a].phase) && Serves(w.handlers[b].phase)
    ensures a == b
  {
    RunKeeps(START, steps);
    var w := Run(START, steps).value;
    assert HandlerOk(w, a) && HandlerOk(w, b);
  }

  // ------------------------------------------------------------------
  // The revision of a first start
  // ------------------------------------------------------------------

  /** Until it has been through a yield, all a supervisor starts is what it read before it got the lock. */
  predicate OnFirstRevision(sup: Sup, now: nat, loaded: nat, revision: nat) {
    && !sup.phase.Fresh?
    && (!sup.resumed && !sup.phase.Killed? && (ChildAlive(sup) || UsesLoaded(sup.phase)) ==>
          now == revision && sup.loaded == loaded && (ChildAlive(sup) ==> sup.running == loaded))
  }

  lemma FirstStarts(sup: Sup, step: StartStep, free: bool, now: nat, loaded: nat, revision: nat)
    requires OnFirstRevision(sup, now, loaded, revision) && Startup(sup, step, free).Advanced?
    requires sup.phase.BrokerUp? ==> sup.running == sup.loaded
    ensures OnFirstRevision(Startup(sup, step, free).sup, now, loaded, revision)
  {
    match step {
      case AcquireShared(ok) =>
      case ReconcileNetwork(outcome, required, left) =>
      case StartBroker =>
      case StartOpenVPN =>
      case BrokerFails(cleanup, left) =>
      case OpenVPNFails(cleanup, left) =>
      case StartApi =>
    }
  }

  lemma FirstYields(sup: Sup, step: YieldStep, held: bool, free: bool, now: nat, loaded: nat, revision: nat)
    requires OnFirstRevision(sup, now, loaded, revision) && HoldsLock(sup, held) &&
             Yielding(sup, step, free, now).Advanced?
    ensures OnFirstRevision(Yielding(sup, step, free, now).sup, now, loaded, revision)
  {
    YieldingLeavesNoChild(sup, step, held, free, now);
  }

  /** A supervisor that starts nothing anew. */
  predicate Fades(sup: Sup, after: Sup) {
    && after.resumed == sup.resumed && after.loaded == sup.loaded && after.running == sup.running
    && (ChildAlive(after) ==> ChildAlive(sup)) && (UsesLoaded(after.phase) ==> UsesLoaded(sup.phase))
    && (sup.phase.Killed? ==> after.phase.Killed?) && (after.phase.Fresh? ==> sup.phase.Fresh?)
  }

  lemma FirstFades(sup: Sup, after: Sup, now: nat, loaded: nat, revision: nat)
    requires OnFirstRevision(sup, now, loaded, revision) && Fades(sup, after)
    ensures OnFirstRevision(after, now, loaded, revision)
  {
  }

  lemma LeavingFades(sup: Sup, step: LeaveStep)
    requires Leaving(sup, step).Advanced?
    ensures Fades(sup, Leaving(sup, step).sup)
  {
  }

  lemma DyingFades(sup: Sup, child: Child)
    ensures Fades(sup, Bereaved(sup, child)) && Fades(sup, sup)
  {
  }

  lemma BrokerRuns(sup: Sup, held: bool, revision: nat)
    requires SupOk(sup, held, revision)
    ensures HoldsLock(sup, held) && (sup.phase.BrokerUp? ==> sup.running == sup.loaded)
  {
  }

  lemma FirstElsewhere(w: World, step: Step, s: SupervisorId, after: Sup)
    requires s in w.sups && Becomes(w, step, s, after)
    ensures ((step.Starts? || step.Yields?) && step.s == s) || Fades(w.sups[s], after)
  {
    hide Startup, Yielding, Leaving, Bereaved;
    match step {
      case Leaves(o, leaving) =>
        if o == s { LeavingFades(w.sups[s], leaving); }
      case Dies(o, child) =>
        DyingFades(w.sups[s], child);
      case _ =>
    }
  }

  lemma FirstBecomes(w: World, step: Step, s: SupervisorId, after: Sup, loaded: nat, revision: nat)
    requires s in w.sups && SupFits(w, s) && Becomes(w, step, s, after)
    requires OnFirstRevision(w.sups[s], w.revision, loaded, revision)
    ensures OnFirstRevision(after, w.revision, loaded, revision)
  {
    hide Startup, Yielding, Leaving, Bereaved, SupOk, HoldsLock, OnFirstRevision, Fades;
    BrokerRuns(w.sups[s], s in w.shared, w.revision);
    FirstElsewhere(w, step, s, after);
    if Fades(w.sups[s], after) {
      FirstFades(w.sups[s], after, w.revision, loaded, revision);
    }
    match step {
      case Starts(o, start) =>
        if o == s { FirstStarts(w.sups[s], start, w.exclusive.None?, w.revision, loaded, revision); }
      case Yields(o, yielding) =>
        if o == s { FirstYields(w.sups[s], yielding, s in w.shared, w.exclusive.None?, w.revision, loaded, revision); }
      case _ =>
    }
  }

  /** Off the lock it runs nothing, whatever the revision. */
  lemma FirstOffTheLock(sup: Sup, held: bool, before: nat, now: nat, loaded: nat, revision: nat)
    requires SupOk(sup, held, before) && !held && OnFirstRevision(sup, before, loaded, revision)
    ensures OnFirstRevision(sup, now, loaded, revision)
  {
    hide RunsCurrent, AnswersTruly;
  }

  lemma FirstRevisionStays(w: World, step: Step, s: SupervisorId, loaded: nat, revision: nat)
    requires Inv(w) && Take(w, step).Some? && s in w.sups && OnFirstRevision(w.sups[s], w.revision, loaded, revision)
    ensures s in Take(w, step).value.sups
    ensures OnFirstRevision(Take(w, step).value.sups[s], Take(w, step).value.revision, loaded, revision)
  {
    hide Take, OnFirstRevision, Becomes, SupOk, HandlerOk;
    ChangeExcludes(w, step);
    StepOf(w, step, s);
    var w' := Take(w, step).value;
    assert SupFits(w, s);
    FirstBecomes(w, step, s, w'.sups[s], loaded, revision);
    if w'.revision != w.revision {
      ChangeLeavesSups(w, step);
      FirstOffTheLock(w.sups[s], false, w.revision, w'.revision, loaded, revision);
    }
  }

  lemma ChangeLeavesSups(w: World, step: Step)
    requires Take(w, step).Some? && Take(w, step).value.revision != w.revision
    ensures Take(w, step).value.sups == w.sups
  {
    hide Startup, Yielding, Leaving, Bereaved;
  }

  lemma GotLock(w: World, s: SupervisorId)
    requires Inv(w) && Take(w, Starts(s, AcquireShared(true))).Some?
    ensures var w' := Take(w, Starts(s, AcquireShared(true))).value;
            s in w.sups && s in w'.sups && OnFirstRevision(w'.sups[s], w'.revision, w.sups[s].loaded, w.revision)
  {
    assert SupFits(w, s);
  }

  lemma {:induction false} FirstRevisionHolds(steps: seq<Step>, n: nat, m: nat, s: SupervisorId)
    requires Run(START, steps).Some? && n < m <= |steps| && steps[n] == Starts(s, AcquireShared(true))
    ensures s in Before(steps, n).sups && s in Before(steps, m).sups
    ensures OnFirstRevision(Before(steps, m).sups[s], Before(steps, m).revision, Before(steps, n).sups[s].loaded,
            Before(steps, n).revision)
    decreases m
  {
    hide Before, Run, SupOk, HandlerOk, OnFirstRevision;
    StepAt(steps, n);
    if m == n + 1 {
      GotLock(Before(steps, n), s);
    } else {
      FirstRevisionHolds(steps, n, m - 1, s);
      StepAt(steps, m - 1);
      FirstRevisionStays(Before(steps, m - 1), steps[m - 1], s, Before(steps, n).sups[s].loaded,
        Before(steps, n).revision);
    }
  }

  /**
   The first start reads its revision before it holds the lock. It runs the current one exactly if
   what it had read was still current at the moment it got the lock.
   */
  lemma FirstStartCurrent(steps: seq<Step>, n: nat, s: SupervisorId)
    requires Run(START, steps).Some? && n < |steps| && steps[n] == Starts(s, AcquireShared(true))
    requires s in Run(START, steps).value.sups && s in Run(START, steps).value.shared
    requires !Run(START, steps).value.sups[s].resumed && ChildAlive(Run(START, steps).value.sups[s])
    ensures var w := Run(START, steps).value;
            && s in Before(steps, n).sups
            && (w.sups[s].running == w.revision <==> Before(steps, n).sups[s].loaded == Before(steps, n).revision)
  {
    FirstRevisionHolds(steps, n, |steps|, s);
    StepAt(steps, n);
    RunKeeps(START, steps);
    assert SupFits(Run(START, steps).value, s);
  }

  // ------------------------------------------------------------------
  // Rules that outlive the lock
  // ------------------------------------------------------------------

  /** A step that works on the rules of supervisor `s`. */
  predicate WorksOnRules(step: Step, s: SupervisorId) {
    match step
    case Load(o, _) => o == s
    case Starts(o, start) => o == s && (start.ReconcileNetwork? || start.BrokerFails? || start.OpenVPNFails?)
    case Yields(o, yielding) => o == s && yielding.CleanupNetwork?
    case Leaves(o, leaving) => o == s && leaving.CleanupOnExit?
    case _ => false
  }

  /**
   After which rules stand that no later step of `s` looks for: those of an earlier run, those a
   failed reconciliation leaves, and those a cleanup leaves whose error is ignored.
   */
  predicate AbandonsRules(step: Step, s: SupervisorId) {
    match step
    case Load(o, left) => o == s && left
    case Starts(o, start) =>
      && o == s
      && match start {
           case ReconcileNetwork(outcome, _, left) => outcome != Done && left
           case BrokerFails(_, left) => left
           case OpenVPNFails(_, left) => left
           case _ => false
         }
    case Leaves(o, leaving) => o == s && leaving.CleanupOnExit? && leaving.left
    case _ => false
  }

  /** The last work on the rules of `s` was such a step. */
  ghost predicate RulesAbandoned(steps: seq<Step>, s: SupervisorId) {
    exists n :: 0 <= n < |steps| && AbandonsRules(steps[n], s) && forall m ::
      n < m < |steps| ==> !WorksOnRules(steps[m], s)
  }

  lemma RulesStart(sup: Sup, step: StartStep, free: bool, s: SupervisorId)
    requires Startup(sup, step, free).Advanced? && (sup.phase.Locked? ==> !sup.networkActive)
    ensures var after := Startup(sup, step, free).sup;
            if WorksOnRules(Starts(s, step), s) then after.rules && !after.networkActive <==>
              AbandonsRules(Starts(s, step), s)
            else after.rules == sup.rules && after.networkActive == sup.networkActive
  {
  }

  lemma RulesCleanup(sup: Sup, outcome: Outcome, left: bool, free: bool, revision: nat)
    requires Yielding(sup, CleanupNetwork(outcome, left), free, revision).Advanced? && sup.networkActive
    ensures var after := Yielding(sup, CleanupNetwork(outcome, left), free, revision).sup;
            after.rules ==> after.networkActive
  {
  }

  lemma RulesYield(sup: Sup, step: YieldStep, free: bool, revision: nat)
    requires Yielding(sup, step, free, revision).Advanced?
    ensures var after := Yielding(sup, step, free, revision).sup;
            step.CleanupNetwork? || (after.rules == sup.rules && after.networkActive == sup.networkActive)
  {
    match step {
      case StopRuntime =>
      case CleanupNetwork(outcome, left) =>
      case ReleaseShared(ok, dropped) =>
      case ReceiveResume =>
      case ReacquireShared(ok) =>
      case Reload(ok) =>
    }
  }

  lemma RulesLeave(sup: Sup, step: LeaveStep, s: SupervisorId)
    requires Leaving(sup, step).Advanced?
    ensures var after := Leaving(sup, step).sup;
            if WorksOnRules(Leaves(s, step), s) then after.rules && !after.networkActive <==>
              AbandonsRules(Leaves(s, step), s)
            else after.rules == sup.rules && after.networkActive == sup.networkActive
  {
  }

  lemma CountsAsActive(sup: Sup, held: bool, revision: nat)
    requires SupOk(sup, held, revision)
    ensures (sup.phase.Locked? ==> !sup.networkActive) && (sup.phase.Stopped? ==> sup.networkActive)
  {
  }

  lemma StopsActive(sup: Sup, step: YieldStep, free: bool, revision: nat)
    requires Yielding(sup, step, free, revision).Advanced? && step.CleanupNetwork?
    ensures sup.phase.Stopped?
  {
  }

  lemma RulesBecome(w: World, step: Step, s: SupervisorId, after: Sup)
    requires s in w.sups && SupFits(w, s) && Becomes(w, step, s, after) && !step.Load?
    ensures if WorksOnRules(step, s) then after.rules && !after.networkActive <==> AbandonsRules(step, s)
            else after.rules == w.sups[s].rules && after.networkActive == w.sups[s].networkActive
  {
    hide Startup, Yielding, Leaving, SupOk;
    CountsAsActive(w.sups[s], s in w.shared, w.revision);
    match step {
      case Starts(o, start) =>
        if o == s { RulesStart(w.sups[s], start, w.exclusive.None?, s); }
      case Yields(o, yielding) =>
        if o == s && yielding.CleanupNetwork? {
          StopsActive(w.sups[s], yielding, w.exclusive.None?, w.revision);
          RulesCleanup(w.sups[s], yielding.outcome, yielding.left, w.exclusive.None?, w.revision);
        } else if o == s {
          RulesYield(w.sups[s], yielding, w.exclusive.None?, w.revision);
        }
      case Leaves(o, leaving) =>
        if o == s { RulesLeave(w.sups[s], leaving, s); }
      case _ =>
    }
  }

  lemma RulesAfter(w: World, step: Step, s: SupervisorId)
    requires Inv(w) && Take(w, step).Some? && s in Take(w, step).value.sups
    ensures var sup := Take(w, step).value.sups[s];
            if WorksOnRules(step, s) then sup.rules && !sup.networkActive <==> AbandonsRules(step, s)
            else s in w.sups && sup.rules == w.sups[s].rules && sup.networkActive == w.sups[s].networkActive
  {
    hide Take, Becomes, SupOk, HandlerOk;
    StepOf(w, step, s);
    if s in w.sups {
      assert SupFits(w, s);
      if step.Load? {
        LoadsOnce(w, step, s);
      } else {
        RulesBecome(w, step, s, Take(w, step).value.sups[s]);
      }
    }
  }

  lemma LoadsOnce(w: World, step: Step, s: SupervisorId)
    requires Take(w, step).Some? && s in w.sups && step.Load?
    ensures step.s != s && s in Take(w, step).value.sups && Take(w, step).value.sups[s] == w.sups[s]
  {
  }

  lemma {:induction false} RulesSince(steps: seq<Step>, s: SupervisorId)
    requires Run(START, steps).Some? && s in Run(START, steps).value.sups
    ensures var sup := Run(START, steps).value.sups[s]; sup.rules && !sup.networkActive <==> RulesAbandoned(steps, s)
    decreases |steps|
  {
    var last := |steps| - 1;
    StepAt(steps, last);
    RulesAfter(Before(steps, last), steps[last], s);
    if !WorksOnRules(steps[last], s) {
      RulesSince(steps[..last], s);
      if RulesAbandoned(steps[..last], s) {
        var n :| 0 <= n < last && AbandonsRules(steps[..last][n], s) && forall m ::
          n < m < last ==> !WorksOnRules(steps[..last][m], s);
        assert AbandonsRules(steps[n], s) && forall m :: n < m < |steps| ==> m == last || steps[m] == steps[..last][m];
      }
      if RulesAbandoned(steps, s) {
        var n :| 0 <= n <= last && AbandonsRules(steps[n], s) && forall m ::
          n < m <= last ==> !WorksOnRules(steps[m], s);
        assert n < last && AbandonsRules(steps[..last][n], s);
      }
    }
  }

  /**
   Rules stand without their supervisor's lock exactly if its last work on them abandoned them: a
   successful reconciliation is always followed by another attempt to clean up before the lock is let go.
   */
  lemma RulesWithoutLock(steps: seq<Step>, s: SupervisorId)
    requires Run(START, steps).Some? && s in Run(START, steps).value.sups
    requires s !in Run(START, steps).value.shared && !IsKilled(Run(START, steps).value, s)
    ensures Run(START, steps).value.sups[s].rules <==> RulesAbandoned(steps, s)
  {
    RulesSince(steps, s);
    RunKeeps(START, steps);
    assert SupFits(Run(START, steps).value, s);
  }

  // ------------------------------------------------------------------
  // The life of a child
  // ------------------------------------------------------------------

  predicate Alive(sup: Sup, child: Child) {
    match child
    case OpenVPN => sup.openvpn
    case Broker => sup.broker
    case Api => sup.api
  }

  predicate Begins(step: Step, s: SupervisorId, child: Child) {
    match child
    case OpenVPN => step == Starts(s, StartOpenVPN)
    case Broker => step == Starts(s, StartBroker)
    case Api => step == Starts(s, StartApi)
  }

  /** Its death, the kill on the way out, and for openvpn and the broker every stop of the runtime. */
  predicate Ends(step: Step, s: SupervisorId, child: Child) {
    || step == Dies(s, child)
    || step == Leaves(s, KillChildren)
    || (child != Api && (step == Yields(s, StopRuntime) || step == Leaves(s, NoticeExit)))
    || (child == Broker && step.Starts? && step.s == s && step.start.OpenVPNFails?)
  }

  /** It was started, and nothing has ended it since. */
  ghost predicate AliveSince(steps: seq<Step>, s: SupervisorId, child: Child) {
    exists n :: 0 <= n < |steps| && Begins(steps[n], s, child) && forall m ::
      n < m < |steps| ==> !Ends(steps[m], s, child)
  }

  lemma ChildLeaves(sup: Sup, step: LeaveStep, s: SupervisorId, child: Child)
    requires Leaving(sup, step).Advanced?
    ensures Alive(Leaving(sup, step).sup, child) <==> Alive(sup, child) && !Ends(Leaves(s, step), s, child)
  {
  }

  lemma ChildStarts(sup: Sup, step: StartStep, free: bool, s: SupervisorId, child: Child)
    requires Startup(sup, step, free).Advanced?
    ensures Alive(Startup(sup, step, free).sup, child) <==>
              Begins(Starts(s, step), s, child) || (Alive(sup, child) && !Ends(Starts(s, step), s, child))
  {
    match step {
      case AcquireShared(ok) =>
      case ReconcileNetwork(outcome, required, left) =>
      case StartBroker =>
      case StartOpenVPN =>
      case BrokerFails(cleanup, left) =>
      case OpenVPNFails(cleanup, left) =>
      case StartApi =>
    }
  }

  lemma ChildYields(sup: Sup, step: YieldStep, free: bool, revision: nat, s: SupervisorId, child: Child)
    requires Yielding(sup, step, free, revision).Advanced?
    ensures Alive(Yielding(sup, step, free, revision).sup, child) <==>
              Alive(sup, child) && !Ends(Yields(s, step), s, child)
  {
    hide Yielding;
    YieldsKeepApi(sup, step, free, revision);
    YieldsStopOpenVPN(sup, step, free, revision);
    YieldsStopBroker(sup, step, free, revision);
  }

  lemma YieldsKeepApi(sup: Sup, step: YieldStep, free: bool, revision: nat)
    requires Yielding(sup, step, free, revision).Advanced?
    ensures Yielding(sup, step, free, revision).sup.api == sup.api
  {
    hide Cleans;
    match step {
      case StopRuntime =>
      case CleanupNetwork(outcome, left) =>
      case ReleaseShared(ok, dropped) =>
      case ReceiveResume =>
      case ReacquireShared(ok) =>
      case Reload(ok) =>
    }
  }

  lemma YieldsStopOpenVPN(sup: Sup, step: YieldStep, free: bool, revision: nat)
    requires Yielding(sup, step, free, revision).Advanced?
    ensures Yielding(sup, step, free, revision).sup.openvpn == (sup.openvpn && !step.StopRuntime?)
  {
    hide Cleans;
    match step {
      case StopRuntime =>
      case CleanupNetwork(outcome, left) =>
      case ReleaseShared(ok, dropped) =>
      case ReceiveResume =>
      case ReacquireShared(ok) =>
      case Reload(ok) =>
    }
  }

  lemma YieldsStopBroker(sup: Sup, step: YieldStep, free: bool, revision: nat)
    requires Yielding(sup, step, free, revision).Advanced?
    ensures Yielding(sup, step, free, revision).sup.broker == (sup.broker && !step.StopRuntime?)
  {
    hide Cleans;
    match step {
      case StopRuntime =>
      case CleanupNetwork(outcome, left) =>
      case ReleaseShared(ok, dropped) =>
      case ReceiveResume =>
      case ReacquireShared(ok) =>
      case Reload(ok) =>
    }
  }

  lemma ChildBecomes(w: World, step: Step, s: SupervisorId, after: Sup, child: Child)
    requires s in w.sups && Becomes(w, step, s, after)
    ensures Alive(after, child) <==> Begins(step, s, child) || (Alive(w.sups[s], child) && !Ends(step, s, child))
  {
    hide Startup, Yielding, Leaving;
    match step {
      case Starts(o, start) =>
        if o == s { ChildStarts(w.sups[s], start, w.exclusive.None?, s, child); }
      case Yields(o, yielding) =>
        if o == s { ChildYields(w.sups[s], yielding, w.exclusive.None?, w.revision, s, child); }
      case Leaves(o, leaving) =>
        if o == s { ChildLeaves(w.sups[s], leaving, s, child); }
      case _ =>
    }
  }

  lemma ChildAfter(w: World, step: Step, s: SupervisorId, child: Child)
    requires Take(w, step).Some? && s in Take(w, step).value.sups
    ensures Alive(Take(w, step).value.sups[s], child) <==>
              Begins(step, s, child) || (s in w.sups && Alive(w.sups[s], child) && !Ends(step, s, child))
  {
    hide Take, Becomes;
    StepOf(w, step, s);
    if s in w.sups {
      ChildBecomes(w, step, s, Take(w, step).value.sups[s], child);
    }
  }

  /** A child is alive exactly if it has been started and no step has ended it since. */
  lemma {:induction false} ChildLives(steps: seq<Step>, s: SupervisorId, child: Child)
    requires Run(START, steps).Some?
    ensures var w := Run(START, steps).value; s in w.sups && Alive(w.sups[s], child) <==> AliveSince(steps, s, child)
    decreases |steps|
  {
    hide Alive, Begins, Ends, AliveSince;
    if steps != [] {
      var last := |steps| - 1;
      StepAt(steps, last);
      ChildLives(steps[..last], s, child);
      ChangeExcludes(Before(steps, last), steps[last]);
      if s in Run(START, steps).value.sups {
        ChildAfter(Before(steps, last), steps[last], s, child);
      } else {
        NobodyBegins(Before(steps, last), steps[last], s, child);
      }
      AliveSinceLast(steps, s, child);
    } else {
      NoneSince(s, child);
    }
  }

  lemma NoneSince(s: SupervisorId, child: Child)
    ensures !AliveSince([], s, child)
  {
  }

  lemma NobodyBegins(w: World, step: Step, s: SupervisorId, child: Child)
    requires Take(w, step).Some? && s !in w.sups
    ensures !Begins(step, s, child)
  {
  }

  lemma AliveSinceLast(steps: seq<Step>, s: SupervisorId, child: Child)
    requires steps != []
    ensures var last := |steps| - 1;
            AliveSince(steps, s, child) <==>
              Begins(steps[last], s, child) || (AliveSince(steps[..last], s, child) && !Ends(steps[last], s, child))
  {
    hide Begins, Ends;
    var last := |steps| - 1;
    if AliveSince(steps[..last], s, child) && !Ends(steps[last], s, child) {
      var n :| 0 <= n < last && Begins(steps[..last][n], s, child) && forall m ::
        n < m < last ==> !Ends(steps[..last][m], s, child);
      assert Begins(steps[n], s, child) && forall m :: n < m < |steps| ==> m == last || steps[m] == steps[..last][m];
    }
    if AliveSince(steps, s, child) && !Begins(steps[last], s, child) {
      var n :| 0 <= n <= last && Begins(steps[n], s, child) && forall m ::
        n < m <= last ==> !Ends(steps[m], s, child);
      assert n < last && Begins(steps[..last][n], s, child);
    }
  }

  /** The phases a supervisor reaches only with the child started. */
  predicate Past(phase: Phase, child: Child) {
    match child
    case OpenVPN => phase.Running?
    case Broker => phase.BrokerUp? || phase.Running?
    case Api => false
  }

  /** The child was started at step `n`, and nothing but its own death has ended it since. */
  ghost predicate StartedAt(steps: seq<Step>, s: SupervisorId, child: Child, n: nat) {
    && n < |steps| && Begins(steps[n], s, child)
    && forall m :: n < m < |steps| && Ends(steps[m], s, child) ==> steps[m] == Dies(s, child)
  }

  lemma StartsReach(sup: Sup, step: StartStep, free: bool)
    requires Startup(sup, step, free).Advanced?
    ensures var phase := Startup(sup, step, free).sup.phase;
            && (phase.Running? ==>
              (step.StartOpenVPN? && sup.phase.BrokerUp?) || (step.StartApi? && sup.phase.Running?))
            && (phase.BrokerUp? ==> step.StartBroker?)
  {
    hide Cleans;
    match step {
      case AcquireShared(ok) =>
      case ReconcileNetwork(outcome, required, left) =>
      case StartBroker =>
      case StartOpenVPN =>
      case BrokerFails(cleanup, left) =>
      case OpenVPNFails(cleanup, left) =>
      case StartApi =>
    }
  }

  lemma PastStarts(sup: Sup, step: StartStep, free: bool, s: SupervisorId, child: Child)
    requires Startup(sup, step, free).Advanced? && Past(Startup(sup, step, free).sup.phase, child)
    ensures Begins(Starts(s, step), s, child) || (Past(sup.phase, child) && !Ends(Starts(s, step), s, child))
  {
    hide Startup;
    StartsReach(sup, step, free);
  }

  lemma YieldsBeforeBroker(sup: Sup, step: YieldStep, free: bool, revision: nat)
    requires Yielding(sup, step, free, revision).Advanced?
    ensures !Yielding(sup, step, free, revision).sup.phase.BrokerUp?
  {
    hide Cleans;
    match step {
      case StopRuntime =>
      case CleanupNetwork(outcome, left) =>
      case ReleaseShared(ok, dropped) =>
      case ReceiveResume =>
      case ReacquireShared(ok) =>
      case Reload(ok) =>
    }
  }

  lemma YieldsBeforeRunning(sup: Sup, step: YieldStep, free: bool, revision: nat)
    requires Yielding(sup, step, free, revision).Advanced?
    ensures !Yielding(sup, step, free, revision).sup.phase.Running?
  {
    hide Cleans;
    match step {
      case StopRuntime =>
      case CleanupNetwork(outcome, left) =>
      case ReleaseShared(ok, dropped) =>
      case ReceiveResume =>
      case ReacquireShared(ok) =>
      case Reload(ok) =>
    }
  }

  lemma LeavesPast(sup: Sup, step: LeaveStep, child: Child)
    requires Leaving(sup, step).Advanced?
    ensures !Past(Leaving(sup, step).sup.phase, child)
  {
  }

  lemma PastBecomes(w: World, step: Step, s: SupervisorId, after: Sup, child: Child)
    requires s in w.sups && Becomes(w, step, s, after) && Past(after.phase, child)
    ensures Begins(step, s, child) ||
            (Past(w.sups[s].phase, child) && (Ends(step, s, child) ==> step == Dies(s, child)))
  {
    hide Startup, Yielding, Leaving;
    match step {
      case Starts(o, start) =>
        if o == s { PastStarts(w.sups[s], start, w.exclusive.None?, s, child); }
      case Yields(o, yielding) =>
        if o == s {
          YieldsBeforeBroker(w.sups[s], yielding, w.exclusive.None?, w.revision);
          YieldsBeforeRunning(w.sups[s], yielding, w.exclusive.None?, w.revision);
        }
      case Leaves(o, leaving) =>
        if o == s { LeavesPast(w.sups[s], leaving, child); }
      case _ =>
    }
  }

  lemma PastAfter(w: World, step: Step, s: SupervisorId, child: Child)
    requires Take(w, step).Some? && s in Take(w, step).value.sups && Past(Take(w, step).value.sups[s].phase, child)
    ensures Begins(step, s, child) ||
            (s in w.sups && Past(w.sups[s].phase, child) && (Ends(step, s, child) ==> step == Dies(s, child)))
  {
    hide Take, Becomes, Begins, Ends;
    StepOf(w, step, s);
    if s in w.sups {
      PastBecomes(w, step, s, Take(w, step).value.sups[s], child);
    }
  }

  /** A running supervisor has started its children, and has lost them at most to their own death. */
  lemma {:induction false} RunningStarted(steps: seq<Step>, s: SupervisorId, child: Child) returns (n: nat)
    requires Run(START, steps).Some? && s in Run(START, steps).value.sups
    requires Past(Run(START, steps).value.sups[s].phase, child)
    ensures StartedAt(steps, s, child, n)
    ensures Alive(Run(START, steps).value.sups[s], child) <==>
            forall m :: n < m < |steps| ==> steps[m] != Dies(s, child)
    decreases |steps|
  {
    hide Alive, Begins, Ends, Past;
    var last := |steps| - 1;
    StepAt(steps, last);
    PastAfter(Before(steps, last), steps[last], s, child);
    ChildAfter(Before(steps, last), steps[last], s, child);
    DeathEnds(s, child);
    if Begins(steps[last], s, child) {
      n := last;
    } else {
      n := RunningStarted(steps[..last], s, child);
      assert steps[n] == steps[..last][n];
      assert forall m :: n < m < |steps| ==> m == last || steps[m] == steps[..last][m];
    }
  }

  lemma DeathEnds(s: SupervisorId, child: Child)
    ensures Ends(Dies(s, child), s, child)
  {
  }

  /** Started at some step, and alive exactly if it has not died since. */
  ghost predicate UpUnlessDead(steps: seq<Step>, s: SupervisorId, child: Child, alive: bool) {
    exists n: nat ::
      StartedAt(steps, s, child, n) && (alive <==> forall m :: n < m < |steps| ==> steps[m] != Dies(s, child))
  }

  /**
   OK is answered only by a runtime that runs the current revision with both its children started, each of
   them alive unless it has died since, or by one that has begun to end.
   */
  lemma OkMeansCurrent(steps: seq<Step>, h: HandlerId)
    requires Run(START, steps).Some? && Take(Run(START, steps).value, Handles(h, WriteOk)).Some?
    ensures var w := Run(START, steps).value; var s := w.handlers[h].sup;
            && s in w.sups
            && (Ending(w.sups[s]) ||
                (&& At(w, s, Running) && w.sups[s].running == w.revision && s in w.shared && w.exclusive.None?
                 && UpUnlessDead(steps, s, OpenVPN, w.sups[s].openvpn)
                 && UpUnlessDead(steps, s, Broker, w.sups[s].broker)))
  {
    hide UpUnlessDead;
    RunKeeps(START, steps);
    var w := Run(START, steps).value;
    assert HandlerOk(w, h);
    var s := w.handlers[h].sup;
    assert SupFits(w, s);
    if !Ending(w.sups[s]) {
      RunningIsUp(steps, s, OpenVPN);
      RunningIsUp(steps, s, Broker);
    }
  }

  lemma RunningIsUp(steps: seq<Step>, s: SupervisorId, child: Child)
    requires Run(START, steps).Some? && At(Run(START, steps).value, s, Running) && child != Api
    ensures UpUnlessDead(steps, s, child, Alive(Run(START, steps).value.sups[s], child))
  {
    hide StartedAt, Run;
    var n := RunningStarted(steps, s, child);
    assert StartedAt(steps, s, child, n);
  }

  // ------------------------------------------------------------------
  // The management API
  // ------------------------------------------------------------------

  /** No step of a yield touches the management API: it ends only when it dies or is killed on the way out. */
  lemma ApiLives(steps: seq<Step>, s: SupervisorId)
    requires Run(START, steps).Some?
    ensures var w := Run(START, steps).value; s in w.sups && w.sups[s].api <==> ApiSince(steps, s)
  {
    hide Run;
    ChildLives(steps, s, Api);
    assert AliveSince(steps, s, Api) <==> ApiSince(steps, s) by {
      assert forall step :: Ends(step, s, Api) <==> EndsApi(step, s);
    }
  }

  predicate EndsApi(step: Step, s: SupervisorId) {
    step == Dies(s, Api) || step == Leaves(s, KillChildren)
  }

  ghost predicate ApiSince(steps: seq<Step>, s: SupervisorId) {
    exists n :: 0 <= n < |steps| && steps[n] == Starts(s, StartApi) && forall m ::
      n < m < |steps| ==> !EndsApi(steps[m], s)
  }

  /** Where a supervisor's API can be alive without its lock. */
  predicate OffTheLock(phase: Phase) {
    phase.Yielded? || phase.Relocking? || phase.ExitKill? || phase.Killed?
  }

  lemma ApiWithoutLock(steps: seq<Step>, s: SupervisorId)
    requires Run(START, steps).Some? && s in Run(START, steps).value.sups
    requires Run(START, steps).value.sups[s].api && s !in Run(START, steps).value.shared
    ensures OffTheLock(Run(START, steps).value.sups[s].phase)
  {
    RunKeeps(START, steps);
    assert SupFits(Run(START, steps).value, s);
  }

  /**
   While an applier holds its locks, the API of a supervisor is alive exactly if it was before it yielded and
   has not ended since.
   */
  lemma ApiUnderApplier(steps: seq<Step>, a: ApplierId, s: SupervisorId)
    requires Run(START, steps).Some? && s in Run(START, steps).value.sups
    requires a in Run(START, steps).value.appliers && Run(START, steps).value.appliers[a] != Idle
    ensures var w := Run(START, steps).value;
            && (w.sups[s].api <==> ApiSince(steps, s))
            && (w.sups[s].api ==> OffTheLock(w.sups[s].phase))
  {
    ApiLives(steps, s);
    ApplyExcludesRuntime(steps, a);
    if Run(START, steps).value.sups[s].api {
      ApiWithoutLock(steps, s);
    }
  }

  // ------------------------------------------------------------------
  // What it does not guarantee
  // ------------------------------------------------------------------

  /** Extends a run of the whole protocol by one step. */
  lemma Then(run: seq<Step>, w: World, step: Step) returns (longer: seq<Step>, next: World)
    requires Run(START, run) == Some(w) && Take(w, step).Some?
    ensures Run(START, longer) == Some(next) && Take(w, step) == Some(next)
  {
    longer, next := run + [step], Take(w, step).value;
    assert longer[..|run|] == run;
  }

  /** A supervisor that has read its revision, and an apply that then ran from start to end. */
  lemma LoadThenApply() returns (run: seq<Step>, w: World)
    ensures Run(START, run) == Some(w)
    ensures w == START.(revision := 2, sups := w.sups, appliers := w.appliers)
    ensures w.sups == map[0 := Loaded(1, false)]
  {
    run, w := [], START;
    assert Run(START, run) == Some(w);
    hide Run;
    run, w := Then(run, w, Load(0, false));
    run, w := Then(run, w, Applies(0, LockRuntime));
    run, w := Then(run, w, Applies(0, LockData));
    run, w := Then(run, w, Applies(0, ChangeConfig));
    run, w := Then(run, w, Applies(0, UnlockData));
    run, w := Then(run, w, Applies(0, UnlockRuntime));
  }

  /** An apply between reading the revision and getting the lock leaves the first start running the old one. */
  lemma FirstStartMayBeStale() returns (run: seq<Step>, w: World)
    ensures Run(START, run) == Some(w) && 0 in w.shared && 0 in w.sups && ChildAlive(w.sups[0])
    ensures w.sups[0].running < w.revision
  {
    hide Run;
    run, w := LoadThenApply();
    run, w := Then(run, w, Starts(0, AcquireShared(true)));
    run, w := Then(run, w, Starts(0, ReconcileNetwork(Done, true, true)));
    run, w := Then(run, w, Starts(0, StartBroker));
  }

  lemma ReconcileFails() returns (run: seq<Step>, w: World)
    ensures Run(START, run) == Some(w) && At(w, 0, ExitKill) && w.sups[0].rules && !w.sups[0].networkActive
    ensures w.shared == {0} && w.exclusive.None? && w.appliers == map[]
  {
    run, w := [], START;
    assert Run(START, run) == Some(w);
    hide Run;
    run, w := Then(run, w, Load(0, false));
    run, w := Then(run, w, Starts(0, AcquireShared(true)));
    run, w := Then(run, w, Starts(0, ReconcileNetwork(Failed, true, true)));
  }

  /** A reconciliation that fails and leaves rules: the supervisor exits, and an applier runs beside them. */
  lemma RulesOutliveLock() returns (run: seq<Step>, w: World)
    ensures Run(START, run) == Some(w) && At(w, 0, Exited) && w.sups[0].rules && w.exclusive == Some(0)
  {
    hide Run;
    run, w := ReconcileFails();
    run, w := Then(run, w, Leaves(0, KillChildren));
    run, w := Then(run, w, Leaves(0, NothingToClean));
    run, w := Then(run, w, Leaves(0, ReleaseOnExit));
    run, w := Then(run, w, Applies(0, LockRuntime));
  }

  /** A supervisor with its whole runtime and the management API up. */
  lemma AllUp() returns (run: seq<Step>, w: World)
    ensures Run(START, run) == Some(w) && w.handlers == map[] && w.busy == map[]
    ensures At(w, 0, Running) && w.sups[0].openvpn && w.sups[0].api && w.sups[0].networkActive
    ensures w.shared == {0} && w.exclusive.None? && w.appliers == map[] && w.revision == 1 && w.data.None?
  {
    run, w := [], START;
    assert Run(START, run) == Some(w);
    hide Run;
    run, w := Then(run, w, Load(0, false));
    run, w := Then(run, w, Starts(0, AcquireShared(true)));
    run, w := Then(run, w, Starts(0, ReconcileNetwork(Done, true, true)));
    run, w := Then(run, w, Starts(0, StartBroker));
    run, w := Then(run, w, Starts(0, StartOpenVPN));
    run, w := Then(run, w, Starts(0, StartApi));
  }

  /** It is about to be asked to yield. */
  lemma AskedToYield() returns (run: seq<Step>, w: World)
    ensures Run(START, run) == Some(w) && HandlerAt(w, 0, Offering) && w.handlers[0].sup == 0
    ensures At(w, 0, Running) && w.sups[0].api && w.sups[0].networkActive
    ensures w.shared == {0} && w.exclusive.None? && w.appliers == map[] && w.revision == 1 && w.data.None?
  {
    hide Run, Startup, Yielding, Leaving;
    run, w := AllUp();
    run, w := Then(run, w, Connect(0, 0));
    run, w := Then(run, w, Handles(0, TakeBusy));
    run, w := Then(run, w, Handles(0, Offer));
  }

  /** Yielded, with the API alive and an applier at work. */
  lemma YieldedWithApi() returns (run: seq<Step>, w: World)
    ensures Run(START, run) == Some(w) && At(w, 0, Yielded) && w.sups[0].api && w.sups[0].ready == Some(true)
    ensures HandlerAt(w, 0, AwaitReady) && w.handlers[0].sup == 0 && w.exclusive == Some(0)
    ensures w.sups[0].request == Some(0) && w.sups[0].resume.None? && w.sups[0].done.None?
    ensures w.shared == {} && w.appliers == map[0 := RuntimeLocked] && w.data.None? && w.revision == 1
  {
    hide Run;
    run, w := AskedToYield();
    run, w := Then(run, w, TakeRequest(0, 0));
    run, w := Then(run, w, Yields(0, StopRuntime));
    run, w := Then(run, w, Yields(0, CleanupNetwork(Done, false)));
    run, w := Then(run, w, Yields(0, ReleaseShared(true, false)));
    run, w := Then(run, w, Applies(0, LockRuntime));
  }

  /** The applier has changed the configuration and gone. */
  lemma AppliedWhileYielded() returns (run: seq<Step>, w: World)
    ensures Run(START, run) == Some(w) && At(w, 0, Yielded) && w.sups[0].request == Some(0)
    ensures w.sups[0].resume.None? && w.sups[0].done.None?
    ensures HandlerAt(w, 0, ReadySent) && w.handlers[0].sup == 0
    ensures w.shared == {} && w.exclusive.None? && w.revision == 2
  {
    hide Run;
    run, w := YieldedWithApi();
    run, w := Then(run, w, Handles(0, WriteReady));
    run, w := Then(run, w, Applies(0, LockData));
    run, w := Then(run, w, Applies(0, ChangeConfig));
    run, w := Then(run, w, Applies(0, UnlockData));
    run, w := Then(run, w, Applies(0, UnlockRuntime));
  }

  lemma ToldToResume() returns (run: seq<Step>, w: World)
    ensures Run(START, run) == Some(w) && At(w, 0, Relocking) && w.sups[0].done.None?
    ensures HandlerAt(w, 0, ResumeSent) && w.handlers[0].sup == 0
    ensures w.shared == {} && w.exclusive.None? && w.revision == 2
  {
    hide Run, Startup, Leaving, AppliesStep, Cleans;
    run, w := AppliedWhileYielded();
    run, w := Then(run, w, Handles(0, SendResume(true)));
    run, w := Then(run, w, Yields(0, ReceiveResume));
  }

  /** Told to resume, it has the lock again and has read the new configuration. */
  lemma Reloaded() returns (run: seq<Step>, w: World)
    ensures Run(START, run) == Some(w) && At(w, 0, Locked) && w.sups[0].loaded == w.revision == 2
    ensures w.sups[0].done.None? && 0 in w.shared
    ensures HandlerAt(w, 0, ResumeSent) && w.handlers[0].sup == 0
  {
    hide Run, Startup, Leaving, HandlesStep, AppliesStep, Cleans;
    run, w := ToldToResume();
    run, w := Then(run, w, Yields(0, ReacquireShared(true)));
    run, w := Then(run, w, Yields(0, Reload(true)));
  }

  lemma Restarting() returns (run: seq<Step>, w: World)
    ensures Run(START, run) == Some(w) && At(w, 0, BrokerUp) && w.sups[0].broker
    ensures w.sups[0].running == w.revision == 2 && 0 in w.shared
    ensures HandlerAt(w, 0, ResumeSent) && w.handlers[0].sup == 0
  {
    hide Run, Yielding, Leaving, HandlesStep, AppliesStep;
    run, w := Reloaded();
    run, w := Then(run, w, Starts(0, ReconcileNetwork(Done, true, true)));
    run, w := Then(run, w, Starts(0, StartBroker));
  }

  /** A whole apply: yielded, resumed, and OK is about to be answered by a runtime on the new revision. */
  lemma WholeApply() returns (run: seq<Step>, w: World)
    ensures Run(START, run) == Some(w) && Take(w, Handles(0, WriteOk)).Some? && w.handlers[0].sup == 0
    ensures At(w, 0, Running) && w.sups[0].openvpn && w.sups[0].broker
    ensures w.sups[0].running == w.revision == 2 && 0 in w.shared
  {
    hide Run, Yielding, Leaving;
    run, w := Restarting();
    run, w := Then(run, w, Starts(0, StartOpenVPN));
  }

  /** In each of those phases the API can live on beside an applier. */
  lemma ApiOutlivesYield(phase: Phase) returns (run: seq<Step>, w: World)
    requires OffTheLock(phase)
    ensures Run(START, run) == Some(w) && At(w, 0, phase) && w.sups[0].api && w.exclusive == Some(0)
  {
    hide Run;
    run, w := YieldedWithApi();
    if phase.Relocking? {
      run, w := Then(run, w, Handles(0, WriteReady));
      run, w := Then(run, w, Handles(0, SendResume(true)));
      run, w := Then(run, w, Yields(0, ReceiveResume));
    } else if phase.ExitKill? {
      run, w := Then(run, w, Leaves(0, Cancel));
    } else if phase.Killed? {
      run, w := Then(run, w, Leaves(0, Kill));
    }
  }

  /** A supervisor that is killed leaves its children running: an applier can then work beside them. */
  lemma ChildrenOutliveKill() returns (run: seq<Step>, w: World)
    ensures Run(START, run) == Some(w) && At(w, 0, Killed) && ChildAlive(w.sups[0]) && w.exclusive == Some(0)
  {
    hide Run, Startup, Yielding;
    run, w := AllUp();
    run, w := Then(run, w, Leaves(0, Kill));
    run, w := Then(run, w, Applies(0, LockRuntime));
  }
}
