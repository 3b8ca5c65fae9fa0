/**
 The management broker's single OpenVPN connection and its reload gate: requesters, the
 maintainer and the connection readers, interleaved at the granularity of the critical
 sections of `mu`. `commandMu` is held across an exchange, `mu` never is.
 */
module Broker {
  import opened Results

  /** A call of Request or EnsureConnected. It marks at most one reload and opens at most one connection. */
  type CallId = nat

  // ------------------------------------------------------------------
  // State
  // ------------------------------------------------------------------

  /** What an exchange sends: the log subscription of a new connection, or a client's command. */
  datatype What = Subscribe | Command

  /** A pending response; a call makes at most one of each kind. */
  datatype Exchange = Exchange(owner: CallId, what: What)

  /** A response line, by what its beginning makes of it. All but text close the response. */
  datatype Line = Success | Error | End | Text

  /**
   The fields of the backend, and the channels it has closed. The gate of a reload is named
   after the call that made it, a connection after the call that dialled it, and the channels
   that announce an initialization are numbered. `lines` and `errors` hold what each response has got.
   */
  datatype Backend = Backend(
    commandMu: Option<CallId>, conn: Option<CallId>, pending: Option<Exchange>, gate: Option<CallId>,
    generation: nat, init: nat, closed: bool,
    closedGates: set<CallId>, closedInits: set<nat>, done: set<Exchange>, failing: set<Exchange>,
    lines: map<Exchange, seq<Line>>, errors: set<Exchange>, readers: map<CallId, Option<Exchange>>)

  function LinesOf(b: Backend, x: Exchange): seq<Line> {
    if x in b.lines then b.lines[x] else []
  }

  /** The response begins with a line of success. */
  predicate BeginsWell(b: Backend, x: Exchange) {
    LinesOf(b, x) != [] && LinesOf(b, x)[0] == Success
  }

  datatype Kind = Client(reload: bool) | Maintainer

  /**
   Where a call is; `gen` is the generation it captured before it sent anything, `success` that its
   command was answered with success, and for a reload that an initialization followed.
   */
  datatype Pc =
    | ReadGate
    | AwaitGate(gate: CallId)
    | WantCommand
    | Checking
    | Dialing(gen: nat)
    | Ready(conn: CallId, what: What, gen: nat)
    | Sent(conn: CallId, what: What, gen: nat)
    | Returned(conn: CallId, what: What, gen: nat)
    | Answered(success: bool, gen: nat)
    | CheckInit(gen: nat)
    | AwaitInit(gen: nat, changed: nat)
    | Opening(success: bool)
    | NotConnected
    | Unlocking
    | Ended

  datatype Call = Call(kind: Kind, pc: Pc)

  datatype World = World(backend: Backend, calls: map<CallId, Call>)

  // ------------------------------------------------------------------
  // Steps
  // ------------------------------------------------------------------

  datatype Move =
    | PeekGate
    | GateOpened
    | GiveUp
    | LockCommand
    | Check
    | Connect(ok: bool)
    | Begin
    | WriteFails
    | ResponseDone
    | TimeOut
    | Finish
    | UnlockAnswered
    | LookAtInit
    | InitChanged
    | InitTimeOut
    | FinishReload
    | Unlock

  datatype Step =
    | Arrives(c: CallId, kind: Kind)
    | Moves(c: CallId, move: Move)
    | ReaderInit(conn: CallId)
    | ReaderSees(conn: CallId)
    | ReaderAdds(conn: CallId, line: Line)
    | ReaderStops(conn: CallId)
    | FailPending(x: Exchange)
    | Close
    | CloseDisconnects(conn: CallId)

  /** A step either cannot happen now, or panics by closing a closed channel, or leads on. */
  datatype After<T> = Blocked | Panic | To(value: T)

  /** disconnect: only the current connection is dropped, and its pending response will be failed. */
  function Disconnect(b: Backend, conn: CallId): Backend {
    if b.conn != Some(conn) then b
    else if b.pending.None? then b.(conn := None)
    else b.(conn := None, pending := None, failing := b.failing + {b.pending.value})
  }

  /** The same by the call that waits for the response, which fails it before it goes on. */
  function DropConnection(b: Backend, conn: CallId): Backend {
    if b.conn != Some(conn) then b
    else if b.pending.None? then b.(conn := None)
    else
      b.(conn := None, pending := None, errors := b.errors + {b.pending.value}, done := b.done + {b.pending.value})
  }

  datatype Local = Local(b: Backend, pc: Pc)

  /** A client past the gate check: marks its reload, then reuses or makes the connection. */
  function Engage(b: Backend, c: CallId, kind: Kind): Local {
    var marked := if kind.Client? && kind.reload then b.(gate := Some(c)) else b;
    match b.conn
    case None => Local(marked, Dialing(b.generation))
    case Some(conn) => Local(marked, Ready(conn, Command, b.generation))
  }

  function Checked(b: Backend, c: CallId, kind: Kind): Local {
    var unlocked := b.(commandMu := None);
    if kind.Client? && b.gate.Some? then Local(unlocked, ReadGate)
    else if b.closed then Local(unlocked, Ended)
    else if kind.Client? then Engage(b, c, kind)
    else if b.conn.Some? then Local(unlocked, Ended)
    else Local(b, Dialing(b.generation))
  }

  /** Up to the check under both mutexes. */
  function Entering(b: Backend, c: CallId, call: Call, move: Move): After<Local> {
    match move
    case PeekGate =>
      if !call.pc.ReadGate? then Blocked
      else if call.kind.Client? && b.gate.Some? then To(Local(b, AwaitGate(b.gate.value)))
      else To(Local(b, WantCommand))
    case GateOpened =>
      if call.pc.AwaitGate? && call.pc.gate in b.closedGates then To(Local(b, ReadGate)) else Blocked
    case GiveUp =>
      if call.pc.AwaitGate? then To(Local(b, Ended)) else Blocked
    case LockCommand =>
      if call.pc.WantCommand? && b.commandMu.None? then To(Local(b.(commandMu := Some(c)), Checking)) else Blocked
    case Check =>
      if call.pc.Checking? then To(Checked(b, c, call.kind)) else Blocked
    case _ => Blocked
  }

  /** Connecting and exchanging, with commandMu held. */
  function Exchanging(b: Backend, c: CallId, call: Call, move: Move): After<Local> {
    match move
    case Connect(ok) =>
      if !call.pc.Dialing? then Blocked
      else if !ok || b.closed then To(Local(b, NotConnected))
      else To(Local(b.(conn := Some(c), readers := b.readers[c := None]), Ready(c, Subscribe, call.pc.gen)))
    case Begin =>
      if !call.pc.Ready? then Blocked
      else if (b.conn != Some(call.pc.conn) || b.pending.Some?) && call.pc.what.Command?
      then To(Local(b, Answered(false, call.pc.gen)))
      else if b.conn != Some(call.pc.conn) || b.pending.Some?
      then To(Local(Disconnect(b, call.pc.conn), NotConnected))
      else
        To(Local(b.(pending := Some(Exchange(c, call.pc.what))), Sent(call.pc.conn, call.pc.what, call.pc.gen)))
    case WriteFails =>
      if call.pc.Sent? then To(Local(DropConnection(b, call.pc.conn), call.pc)) else Blocked
    case ResponseDone =>
      if !call.pc.Sent? || Exchange(c, call.pc.what) !in b.done then Blocked
      else To(Local(b, Returned(call.pc.conn, call.pc.what, call.pc.gen)))
    case TimeOut =>
      if call.pc.Sent?
      then To(Local(DropConnection(b, call.pc.conn), Returned(call.pc.conn, call.pc.what, call.pc.gen))) else Blocked
    case Finish =>
      if !call.pc.Returned? then Blocked
      else
        var success := Exchange(c, call.pc.what) !in b.errors && BeginsWell(b, Exchange(c, call.pc.what));
        var cleared := if b.pending == Some(Exchange(c, call.pc.what)) then b.(pending := None) else b;
        if call.pc.what.Command? then To(Local(cleared, Answered(success, call.pc.gen)))
        else if !success then To(Local(Disconnect(cleared, call.pc.conn), NotConnected))
        else if call.kind.Maintainer? then To(Local(cleared, Unlocking))
        else To(Local(cleared, Ready(call.pc.conn, Command, call.pc.gen)))
    case _ => Blocked
  }

  /** After the exchange: unlock, wait for an initialization after a successful reload, open the gate. */
  function Concluding(b: Backend, c: CallId, call: Call, move: Move): After<Local> {
    match move
    case UnlockAnswered =>
      if !call.pc.Answered? then Blocked
      else
        var waits := call.pc.success && call.kind.Client? && call.kind.reload;
        To(Local(b.(commandMu := None), if waits then CheckInit(call.pc.gen) else Opening(call.pc.success)))
    case LookAtInit =>
      if !call.pc.CheckInit? then Blocked
      else if b.generation > call.pc.gen then To(Local(b, Opening(true)))
      else To(Local(b, AwaitInit(call.pc.gen, b.init)))
    case InitChanged =>
      if call.pc.AwaitInit? && call.pc.changed in b.closedInits then To(Local(b, CheckInit(call.pc.gen))) else Blocked
    case InitTimeOut =>
      if call.pc.AwaitInit? then To(Local(b, Opening(false))) else Blocked
    case FinishReload =>
      if !call.pc.Opening? && !call.pc.NotConnected? then Blocked
      else
        var next := if call.pc.Opening? then Ended else Unlocking;
        if !(call.kind.Client? && call.kind.reload) || b.gate != Some(c) then To(Local(b, next))
        else if c in b.closedGates then Panic
        else To(Local(b.(gate := None, closedGates := b.closedGates + {c}), next))
    case Unlock =>
      if call.pc.Unlocking? then To(Local(b.(commandMu := None), Ended)) else Blocked
    case _ => Blocked
  }

  /** The step of one call. The three parts share no move that is not blocked in the others. */
  function CallStep(b: Backend, c: CallId, call: Call, move: Move): After<Local> {
    match move
    case PeekGate | GateOpened | GiveUp | LockCommand | Check => Entering(b, c, call, move)
    case Connect(_) | Begin | WriteFails | ResponseDone | TimeOut | Finish => Exchanging(b, c, call, move)
    case _ => Concluding(b, c, call, move)
  }

  /** Readers, detached failures and Close. A reader may outlive its connection. */
  function OtherStep(b: Backend, step: Step): After<Backend> {
    match step
    case ReaderInit(conn) =>
      if conn !in b.readers then Blocked
      else if b.init in b.closedInits then Panic
      else To(b.(generation := b.generation + 1, closedInits := b.closedInits + {b.init}, init := b.init + 1))
    case ReaderSees(conn) =>
      if conn !in b.readers then Blocked else To(b.(readers := b.readers[conn := b.pending]))
    case ReaderAdds(conn, line) =>
      if conn !in b.readers || b.readers[conn].None? then Blocked
      else
        var x := b.readers[conn].value;
        To(b.(lines := b.lines[x := LinesOf(b, x) + [line]],
              done := if line.Text? then b.done else b.done + {x},
              readers := b.readers[conn := None]))
    case ReaderStops(conn) =>
      if conn !in b.readers then Blocked else To(Disconnect(b, conn).(readers := b.readers - {conn}))
    case FailPending(x) =>
      if x !in b.failing then Blocked
        else To(b.(failing := b.failing - {x}, errors := b.errors + {x}, done := b.done + {x}))
    case Close => To(b.(closed := true))
    case CloseDisconnects(conn) => if b.closed then To(Disconnect(b, conn)) else Blocked
    case _ => Blocked
  }

  function Take(w: World, step: Step): After<World> {
    match step
    case Arrives(c, kind) =>
      if c in w.calls then Blocked else To(w.(calls := w.calls[c := Call(kind, ReadGate)]))
    case Moves(c, move) =>
      if c !in w.calls then Blocked
      else (
        match CallStep(w.backend, c, w.calls[c], move)
        case Blocked => Blocked
        case Panic => Panic
        case To(local) => To(World(local.b, w.calls[c := w.calls[c].(pc := local.pc)]))
      )
    case _ =>
      match OtherStep(w.backend, step)
      case Blocked => Blocked
      case Panic => Panic
      case To(b) => To(w.(backend := b))
  }

  const START := World(Backend(None, None, None, None, 0, 0, false, {}, {}, {}, {}, map[], {}, map[]), map[])

  /** The world after a whole interleaving. */
  function Run(steps: seq<Step>): After<World> {
    if steps == [] then To(START)
    else
      match Run(steps[..|steps| - 1])
      case Blocked => Blocked
      case Panic => Panic
      case To(w) => Take(w, steps[|steps| - 1])
  }

  // ------------------------------------------------------------------
  // Invariant
  // ------------------------------------------------------------------

  predicate Holds(pc: Pc) {
    match pc
    case Checking | Dialing(_) | Ready(_, _, _) | Sent(_, _, _) | Returned(_, _, _) | Answered(_, _) | NotConnected
      | Unlocking => true
    case _ => false
  }

  /** Past the check and not yet answered: the call owns the connection and the right to send. */
  predicate Engaged(pc: Pc) {
    pc.Dialing? || pc.Ready? || pc.Sent? || pc.Returned?
  }

  /** Between marking a reload and opening its gate. */
  predicate Marked(call: Call) {
    && call.kind.Client?
    && call.kind.reload
    && (Engaged(call.pc) || call.pc.Answered? || call.pc.CheckInit? || call.pc.AwaitInit? || call.pc.Opening? ||
      call.pc.NotConnected?)
  }

  /** The call's command has been answered, with success. */
  predicate WasAnsweredWell(pc: Pc) {
    (pc.Answered? && pc.success) || pc.CheckInit? || pc.AwaitInit? || (pc.Opening? && pc.success)
  }

  predicate CallOk(b: Backend, c: CallId, call: Call) {
    && (Holds(call.pc) <==> b.commandMu == Some(c))
    && (Marked(call) <==> b.gate == Some(c))
    && (!call.pc.Ended? && !call.pc.Unlocking? ==> c !in b.closedGates)
    && (call.pc.AwaitGate? ==> call.pc.gate in b.closedGates || b.gate == Some(call.pc.gate))
    && (call.pc.Dialing? ==> b.conn.None?)
    && (Engaged(call.pc) && call.kind.Client? ==> b.gate.None? || b.gate == Some(c))
    && (b.pending.Some? && b.pending.value.owner == c ==>
      (call.pc.Sent? || call.pc.Returned?) && call.pc.what == b.pending.value.what)
    && (call.kind.Maintainer? && (call.pc.Ready? || call.pc.Sent? || call.pc.Returned?) ==> call.pc.what.Subscribe?)
    && (call.pc.AwaitInit? ==> call.pc.changed <= call.pc.gen && call.pc.changed <= b.init)
    && (WasAnsweredWell(call.pc) ==> BeginsWell(b, Exchange(c, Command)))
    && (b.pending.Some? && b.pending.value.owner == c ==> b.conn == Some(call.pc.conn))
  }

  ghost predicate BackendOk(b: Backend) {
    && b.init == b.generation
    && (forall k :: k in b.closedInits <==> 0 <= k < b.init)
    && (b.pending.Some? ==> b.commandMu == Some(b.pending.value.owner) && b.conn.Some?)
  }

  ghost predicate Inv(w: World) {
    && BackendOk(w.backend)
    && (forall c :: c in w.calls ==> CallOk(w.backend, c, w.calls[c]))
    && (w.backend.commandMu.Some? ==> w.backend.commandMu.value in w.calls)
    && (w.backend.gate.Some? ==> w.backend.gate.value in w.calls)
    && (forall c :: c in w.backend.closedGates ==> c in w.calls)
  }

  // ------------------------------------------------------------------
  // What a step may do to the calls that do not take it
  // ------------------------------------------------------------------

  /** The effect of a step of call `c` as any other call may see it. */
  predicate Guarantees(b: Backend, b': Backend, c: CallId) {
    && (b'.commandMu == b.commandMu || (b.commandMu.None? && b'.commandMu == Some(c)) ||
      (b.commandMu == Some(c) && b'.commandMu.None?))
    && (|| (b'.gate == b.gate && b'.closedGates == b.closedGates)
        || (b.gate.None? && b'.gate == Some(c) && b.commandMu == Some(c) && b'.closedGates == b.closedGates)
        || (b.gate == Some(c) && b'.gate.None? && b'.closedGates == b.closedGates + {c}))
    && (b'.conn == b.conn || b'.conn.None? || b.commandMu == Some(c))
    && (b'.pending == b.pending || b'.pending.None? || (b'.pending.value.owner == c && b.commandMu == Some(c)))
    && (b'.conn == b.conn || b'.pending.None?)
    && b.init <= b'.init && b'.lines == b.lines
  }

  lemma Undisturbed(b: Backend, b': Backend, c: CallId, other: CallId, call: Call)
    requires CallOk(b, other, call) && Guarantees(b, b', c) && other != c
    ensures CallOk(b', other, call)
  {
  }

  lemma EnteringOk(b: Backend, c: CallId, call: Call, move: Move)
    requires CallOk(b, c, call) && BackendOk(b) && Entering(b, c, call, move) != Blocked
    ensures var after := Entering(b, c, call, move);
            after.To? && Guarantees(b, after.value.b, c) && BackendOk(after.value.b)
            && CallOk(after.value.b, c, call.(pc := after.value.pc))
  {
  }

  lemma ConnectOk(b: Backend, c: CallId, call: Call, ok: bool)
    requires CallOk(b, c, call) && BackendOk(b) && Exchanging(b, c, call, Connect(ok)) != Blocked
    ensures var after := Exchanging(b, c, call, Connect(ok));
            after.To? && Guarantees(b, after.value.b, c) && BackendOk(after.value.b)
            && CallOk(after.value.b, c, call.(pc := after.value.pc))
  {
  }

  lemma FinishOk(b: Backend, c: CallId, call: Call)
    requires CallOk(b, c, call) && BackendOk(b) && Exchanging(b, c, call, Finish) != Blocked
    ensures var after := Exchanging(b, c, call, Finish);
            after.To? && Guarantees(b, after.value.b, c) && BackendOk(after.value.b)
            && CallOk(after.value.b, c, call.(pc := after.value.pc))
  {
  }

  lemma ExchangingOk(b: Backend, c: CallId, call: Call, move: Move)
    requires CallOk(b, c, call) && BackendOk(b) && Exchanging(b, c, call, move) != Blocked
    ensures var after := Exchanging(b, c, call, move);
            after.To? && Guarantees(b, after.value.b, c) && BackendOk(after.value.b)
            && CallOk(after.value.b, c, call.(pc := after.value.pc))
  {
    hide BeginsWell;
    match move {
      case Connect(ok) => ConnectOk(b, c, call, ok);
      case Finish => FinishOk(b, c, call);
      case _ =>
    }
  }

  lemma ConcludingOk(b: Backend, c: CallId, call: Call, move: Move)
    requires CallOk(b, c, call) && BackendOk(b) && Concluding(b, c, call, move) != Blocked
    ensures var after := Concluding(b, c, call, move);
            after.To? && Guarantees(b, after.value.b, c) && BackendOk(after.value.b)
            && CallOk(after.value.b, c, call.(pc := after.value.pc))
  {
  }

  lemma CallStepOk(b: Backend, c: CallId, call: Call, move: Move)
    requires CallOk(b, c, call) && BackendOk(b) && CallStep(b, c, call, move) != Blocked
    ensures var after := CallStep(b, c, call, move);
            after.To? && Guarantees(b, after.value.b, c) && BackendOk(after.value.b)
            && CallOk(after.value.b, c, call.(pc := after.value.pc))
  {
    hide CallOk, BackendOk, Guarantees, Entering, Exchanging, Concluding;
    match move {
      case PeekGate | GateOpened | GiveUp | LockCommand | Check => EnteringOk(b, c, call, move);
      case Connect(_) | Begin | WriteFails | ResponseDone | TimeOut | Finish => ExchangingOk(b, c, call, move);
      case _ => ConcludingOk(b, c, call, move);
    }
  }

  /** Readers, failures and Close only ever take the connection and the pending response away. */
  lemma OtherStepOk(b: Backend, step: Step)
    requires BackendOk(b) && OtherStep(b, step) != Blocked
    ensures OtherStep(b, step).To? && BackendOk(OtherStep(b, step).value)
    ensures forall c, call {:trigger CallOk(b, c, call)} ::
            CallOk(b, c, call) ==> CallOk(OtherStep(b, step).value, c, call)
    ensures var b' := OtherStep(b, step).value;
            b'.commandMu == b.commandMu && b'.gate == b.gate && b'.closedGates == b.closedGates
  {
  }

  // ------------------------------------------------------------------
  // Every step keeps the invariant, and none panics
  // ------------------------------------------------------------------

  lemma MovesKeeps(w: World, c: CallId, move: Move)
    requires Inv(w) && Take(w, Moves(c, move)) != Blocked
    ensures Take(w, Moves(c, move)).To? && Inv(Take(w, Moves(c, move)).value)
  {
    hide CallOk, BackendOk, CallStep;
    CallStepOk(w.backend, c, w.calls[c], move);
    var w' := Take(w, Moves(c, move)).value;
    forall other | other in w'.calls ensures CallOk(w'.backend, other, w'.calls[other]) {
      if other != c {
        Undisturbed(w.backend, w'.backend, c, other, w.calls[other]);
      }
    }
  }

  lemma TakeKeeps(w: World, step: Step)
    requires Inv(w) && Take(w, step) != Blocked
    ensures Take(w, step).To? && Inv(Take(w, step).value)
  {
    hide CallOk, OtherStep, CallStep, BackendOk;
    match step {
      case Moves(c, move) => MovesKeeps(w, c, move);
      case Arrives(c, kind) => ArrivesKeeps(w, c, kind);
      case _ =>
        OtherStepOk(w.backend, step);
    }
  }

  lemma ArrivesKeeps(w: World, c: CallId, kind: Kind)
    requires Inv(w) && c !in w.calls
    ensures Inv(w.(calls := w.calls[c := Call(kind, ReadGate)]))
  {
    var w' := w.(calls := w.calls[c := Call(kind, ReadGate)]);
    assert CallOk(w'.backend, c, w'.calls[c]);
    hide CallOk;
  }

  lemma {:induction false} RunKeeps(steps: seq<Step>)
    requires Run(steps) != Blocked
    ensures Run(steps).To? && Inv(Run(steps).value)
    decreases |steps|
  {
    hide Take;
    if steps != [] {
      RunKeeps(steps[..|steps| - 1]);
      TakeKeeps(Run(steps[..|steps| - 1]).value, steps[|steps| - 1]);
    }
  }

  // ------------------------------------------------------------------
  // What every interleaving guarantees
  // ------------------------------------------------------------------

  /** No channel is closed twice, neither a reload gate nor an initialization channel. */
  lemma NoPanic(steps: seq<Step>)
    ensures Run(steps) != Panic
  {
    if Run(steps) != Blocked {
      RunKeeps(steps);
    }
  }

  /** The pending response, if any, belongs to the call that holds commandMu and that is exchanging it. */
  lemma OnePending(steps: seq<Step>)
    requires Run(steps).To? && Run(steps).value.backend.pending.Some?
    ensures var w := Run(steps).value; var x := w.backend.pending.value;
            && w.backend.commandMu == Some(x.owner) && x.owner in w.calls
            && (w.calls[x.owner].pc.Sent? || w.calls[x.owner].pc.Returned?)
            && w.calls[x.owner].pc.what == x.what
  {
    RunKeeps(steps);
  }

  /** An exchange never finds the connection busy, and connecting never overwrites a live connection. */
  lemma NeverBusy(steps: seq<Step>, c: CallId)
    requires Run(steps).To? && c in Run(steps).value.calls
    ensures var w := Run(steps).value;
            && (w.calls[c].pc.Ready? ==> w.backend.pending.None?)
            && (w.calls[c].pc.Dialing? ==> w.backend.conn.None?)
  {
    RunKeeps(steps);
    assert CallOk(Run(steps).value.backend, c, Run(steps).value.calls[c]);
  }

  // ------------------------------------------------------------------
  // The reload gate over a run
  // ------------------------------------------------------------------

  lemma {:induction false} PrefixRuns(steps: seq<Step>, n: nat)
    requires Run(steps).To? && n <= |steps|
    ensures Run(steps[..n]).To?
    decreases |steps|
  {
    if n < |steps| {
      PrefixRuns(steps[..|steps| - 1], n);
      assert steps[..|steps| - 1][..n] == steps[..n];
    } else {
      assert steps[..n] == steps;
    }
  }

  /** The world before step `n` of a run. */
  ghost function Before(steps: seq<Step>, n: nat): World
    requires Run(steps).To? && n <= |steps|
  {
    PrefixRuns(steps, n);
    Run(steps[..n]).value
  }

  lemma StepAt(steps: seq<Step>, n: nat)
    requires Run(steps).To? && n < |steps|
    ensures Take(Before(steps, n), steps[n]) == To(Before(steps, n + 1))
    ensures Inv(Before(steps, n))
  {
    PrefixRuns(steps, n);
    PrefixRuns(steps, n + 1);
    RunKeeps(steps[..n]);
    assert steps[..n + 1][..n] == steps[..n];
  }

  /** Step `n` of the run marks the reload of call `c`. */
  ghost predicate MarksReload(steps: seq<Step>, n: nat, c: CallId)
    requires Run(steps).To? && n < |steps|
  {
    Before(steps, n).backend.gate != Some(c) && Before(steps, n + 1).backend.gate == Some(c)
  }

  /** Step `n` of the run puts a client command on the connection, on behalf of call `d`. */
  ghost predicate SendsCommand(steps: seq<Step>, n: nat, d: CallId)
    requires Run(steps).To? && n < |steps|
  {
    && Before(steps, n).backend.pending != Some(Exchange(d, Command))
    && Before(steps, n + 1).backend.pending == Some(Exchange(d, Command))
  }

  /** Only the call that marked a reload opens its gate, and its finishReload always does. */
  lemma OnlyOwnerOpens(w: World, step: Step, c: CallId)
    requires Inv(w) && w.backend.gate == Some(c) && Take(w, step).To?
    ensures Take(w, step).value.backend.gate == (if step == Moves(c, FinishReload) then None else Some(c))
    ensures step == Moves(c, FinishReload) ==> c in Take(w, step).value.backend.closedGates
  {
    hide BackendOk;
    match step {
      case Moves(d, move) =>
        assert CallOk(w.backend, d, w.calls[d]);
        if d == c {
          OwnerOpens(w.backend, c, w.calls[c], move);
        } else {
          OthersDoNotOpen(w.backend, c, d, w.calls[d], move);
        }
      case Arrives(_, _) =>
      case _ =>
    }
  }

  lemma OwnerOpens(b: Backend, c: CallId, call: Call, move: Move)
    requires CallOk(b, c, call) && b.gate == Some(c) && CallStep(b, c, call, move).To?
    ensures CallStep(b, c, call, move).value.b.gate == (if move.FinishReload? then None else Some(c))
    ensures move.FinishReload? ==> c in CallStep(b, c, call, move).value.b.closedGates
  {
  }

  lemma OthersDoNotOpen(b: Backend, c: CallId, d: CallId, call: Call, move: Move)
    requires CallOk(b, d, call) && b.gate == Some(c) && d != c && CallStep(b, d, call, move).To?
    ensures CallStep(b, d, call, move).value.b.gate == Some(c)
  {
  }

  lemma {:induction false} GateStays(steps: seq<Step>, i: nat, j: nat, c: CallId)
    requires Run(steps).To? && i <= j <= |steps| && Before(steps, i).backend.gate == Some(c)
    requires forall k :: i <= k < j ==> steps[k] != Moves(c, FinishReload)
    ensures Before(steps, j).backend.gate == Some(c)
    decreases j
  {
    hide Take, Inv, Before;
    if i < j {
      GateStays(steps, i, j - 1, c);
      StepAt(steps, j - 1);
      OnlyOwnerOpens(Before(steps, j - 1), steps[j - 1], c);
    }
  }

  /** Sending a client command requires that no other call's reload is under way. */
  lemma SenderSeesNoGate(w: World, step: Step, d: CallId)
    requires Inv(w) && Take(w, step).To?
    requires w.backend.pending != Some(Exchange(d, Command)) &&
             Take(w, step).value.backend.pending == Some(Exchange(d, Command))
    ensures w.backend.gate.None? || w.backend.gate == Some(d)
  {
    hide BackendOk;
    match step {
      case Moves(c, move) =>
        assert CallOk(w.backend, c, w.calls[c]);
        ClientSends(w.backend, c, w.calls[c], move);
      case Arrives(_, _) =>
      case _ =>
    }
  }

  lemma ClientSends(b: Backend, c: CallId, call: Call, move: Move)
    requires CallOk(b, c, call) && CallStep(b, c, call, move).To?
    ensures var pending := CallStep(b, c, call, move).value.b.pending;
            pending == b.pending || pending.None? ||
              (pending.value.owner == c && (pending.value.what.Command? ==> b.gate.None? || b.gate == Some(c)))
  {
  }

  /**
   Between the step that marks a reload and the finishReload of the call that marked it, no
   other call exchanges a client command.
   */
  lemma ReloadIsExclusive(steps: seq<Step>, i: nat, j: nat, c: CallId, d: CallId)
    requires Run(steps).To? && i < j < |steps| && d != c
    requires MarksReload(steps, i, c) && SendsCommand(steps, j, d)
    ensures exists k :: i < k < j && steps[k] == Moves(c, FinishReload)
  {
    hide Take, Inv, Before;
    if forall k :: i < k < j ==> steps[k] != Moves(c, FinishReload) {
      assert Before(steps, i + 1).backend.gate == Some(c);
      GateStays(steps, i + 1, j, c);
      StepAt(steps, j);
      SenderSeesNoGate(Before(steps, j), steps[j], d);
    }
  }

  // ------------------------------------------------------------------
  // Waiters
  // ------------------------------------------------------------------

  /** A call that waits for a gate waits for an open one or for one whose owner is still to open it. */
  lemma GateWaiterWakes(steps: seq<Step>, c: CallId)
    requires Run(steps).To? && c in Run(steps).value.calls && Run(steps).value.calls[c].pc.AwaitGate?
    ensures var w := Run(steps).value; var owner := w.calls[c].pc.gate;
            || Take(w, Moves(c, GateOpened)).To?
            || (owner in w.calls && Marked(w.calls[owner]) && w.backend.gate == Some(owner))
  {
    RunKeeps(steps);
    var w := Run(steps).value;
    assert CallOk(w.backend, c, w.calls[c]);
    if w.calls[c].pc.gate !in w.backend.closedGates {
      assert CallOk(w.backend, w.calls[c].pc.gate, w.calls[w.calls[c].pc.gate]);
    }
  }

  /** A call that waits for an initialization cannot sleep through one newer than the generation it captured. */
  lemma InitWaiterWakes(steps: seq<Step>, c: CallId)
    requires Run(steps).To? && c in Run(steps).value.calls && Run(steps).value.calls[c].pc.AwaitInit?
    requires Run(steps).value.backend.generation > Run(steps).value.calls[c].pc.gen
    ensures var w := Run(steps).value;
            && Take(w, Moves(c, InitChanged)).To?
            && var awake := Take(w, Moves(c, InitChanged)).value;
            && Take(awake, Moves(c, LookAtInit)).To?
            && Take(awake, Moves(c, LookAtInit)).value.calls[c].pc == Opening(true)
  {
    RunKeeps(steps);
    var w := Run(steps).value;
    assert CallOk(w.backend, c, w.calls[c]);
  }

  predicate Captured(pc: Pc) {
    Engaged(pc) || pc.Answered? || pc.CheckInit? || pc.AwaitInit?
  }

  lemma GenIsCaptured(w: World, step: Step, c: CallId)
    requires Take(w, step).To? && c in Take(w, step).value.calls && Captured(Take(w, step).value.calls[c].pc)
    ensures c in w.calls
    ensures || (Captured(w.calls[c].pc) && Take(w, step).value.calls[c].pc.gen == w.calls[c].pc.gen)
            || (step == Moves(c, Check) && Take(w, step).value.calls[c].pc.gen == w.backend.generation)
  {
  }

  /** The generation a call works with is the one at its check, before it sends anything. */
  lemma {:induction false} CapturedAtCheck(steps: seq<Step>, n: nat, c: CallId) returns (i: nat)
    requires Run(steps).To? && n <= |steps| && c in Before(steps, n).calls && Captured(Before(steps, n).calls[c].pc)
    ensures i < n && steps[i] == Moves(c, Check)
    ensures Before(steps, i).backend.generation == Before(steps, n).calls[c].pc.gen
    decreases n
  {
    hide Take, Inv;
    assert steps[..0] == [];
    assert Before(steps, 0) == START;
    hide Before;
    StepAt(steps, n - 1);
    GenIsCaptured(Before(steps, n - 1), steps[n - 1], c);
    if Captured(Before(steps, n - 1).calls[c].pc) &&
      Before(steps, n).calls[c].pc.gen == Before(steps, n - 1).calls[c].pc.gen {
      i := CapturedAtCheck(steps, n - 1, c);
    } else {
      i := n - 1;
    }
  }

  lemma OnlyReadersInitialize(w: World, step: Step)
    requires Take(w, step).To? && !step.ReaderInit?
    ensures Take(w, step).value.backend.generation == w.backend.generation
  {
  }

  lemma {:induction false} InitializedBetween(steps: seq<Step>, i: nat, n: nat) returns (k: nat)
    requires Run(steps).To? && i <= n <= |steps|
    requires Before(steps, i).backend.generation < Before(steps, n).backend.generation
    ensures i <= k < n && steps[k].ReaderInit?
    decreases n
  {
    hide Take, Inv, Before;
    StepAt(steps, n - 1);
    if steps[n - 1].ReaderInit? {
      k := n - 1;
    } else {
      OnlyReadersInitialize(Before(steps, n - 1), steps[n - 1]);
      k := InitializedBetween(steps, i, n - 1);
    }
  }

  /** The call is a reload that is about to report success. */
  predicate ReportsReload(w: World, c: CallId) {
    c in w.calls && w.calls[c].kind == Client(true) && w.calls[c].pc == Opening(true)
  }

  lemma ReportNeedsInit(w: World, step: Step, c: CallId)
    requires Take(w, step).To? && ReportsReload(Take(w, step).value, c) && !ReportsReload(w, c)
    ensures step == Moves(c, LookAtInit) && c in w.calls && w.calls[c].pc.CheckInit? &&
            w.backend.generation > w.calls[c].pc.gen
  {
  }

  /** Only a reader adds a line, and only the first line makes a response begin well. */
  lemma FirstLineAdds(w: World, step: Step, x: Exchange)
    requires Take(w, step).To? && BeginsWell(Take(w, step).value.backend, x) && !BeginsWell(w.backend, x)
    ensures step.ReaderAdds? && step.line == Success && LinesOf(w.backend, x) == []
    ensures step.conn in w.backend.readers && w.backend.readers[step.conn] == Some(x)
  {
  }

  /** Step `j` of the run adds a line of success as the first to the response. */
  ghost predicate AnswersWell(steps: seq<Step>, j: nat, x: Exchange)
    requires Run(steps).To? && j < |steps|
  {
    var b := Before(steps, j).backend;
    && steps[j].ReaderAdds? && steps[j].line == Success && LinesOf(b, x) == []
    && steps[j].conn in b.readers && b.readers[steps[j].conn] == Some(x)
  }

  lemma {:induction false} FirstLine(steps: seq<Step>, n: nat, x: Exchange) returns (j: nat)
    requires Run(steps).To? && n <= |steps| && BeginsWell(Before(steps, n).backend, x)
    ensures j < n && AnswersWell(steps, j, x)
    decreases n
  {
    assert steps[..0] == [];
    assert Before(steps, 0) == START;
    hide Inv, Before, Take, BeginsWell;
    NoLinesYet(x);
    StepAt(steps, n - 1);
    if BeginsWell(Before(steps, n - 1).backend, x) {
      j := FirstLine(steps, n - 1, x);
    } else {
      FirstLineAdds(Before(steps, n - 1), steps[n - 1], x);
      j := n - 1;
    }
  }

  lemma NoLinesYet(x: Exchange)
    ensures !BeginsWell(START.backend, x)
  {
  }

  /** What an exchange comes to is told by its own response: no error, and success first. */
  lemma AnswerIsResponse(steps: seq<Step>, n: nat, c: CallId)
    requires Run(steps).To? && n < |steps| && steps[n] == Moves(c, Finish)
    requires c in Before(steps, n).calls && Before(steps, n).calls[c].pc.Returned?
    requires Before(steps, n).calls[c].pc.what == Command
    ensures c in Before(steps, n + 1).calls && Before(steps, n + 1).calls[c].pc.Answered?
    ensures var b := Before(steps, n).backend; var x := Exchange(c, Command);
            Before(steps, n + 1).calls[c].pc.success <==>
              x !in b.errors && x in b.lines && b.lines[x] != [] && b.lines[x][0] == Success
  {
    StepAt(steps, n);
    hide Before, Inv;
  }

  /**
   A reload is reported successful only if a reader has read success as the first line of the response to its
   own command, and OpenVPN has initialized after the reload passed its check.
   */
  lemma {:induction false} ReloadSawInit(steps: seq<Step>, n: nat, c: CallId) returns (i: nat, k: nat, j: nat)
    requires Run(steps).To? && n <= |steps| && ReportsReload(Before(steps, n), c)
    ensures i < k < n && steps[i] == Moves(c, Check) && steps[k].ReaderInit?
    ensures j < n && AnswersWell(steps, j, Exchange(c, Command))
    decreases n
  {
    assert steps[..0] == [];
    assert Before(steps, 0) == START;
    hide Inv, Before, Take, AnswersWell;
    StepAt(steps, n - 1);
    if ReportsReload(Before(steps, n - 1), c) {
      i, k, j := ReloadSawInit(steps, n - 1, c);
    } else {
      ReportNeedsInit(Before(steps, n - 1), steps[n - 1], c);
      i := CapturedAtCheck(steps, n - 1, c);
      k := InitializedBetween(steps, i, n - 1);
      WaitsAnswered(Before(steps, n - 1), c);
      j := FirstLine(steps, n - 1, Exchange(c, Command));
    }
  }

  lemma WaitsAnswered(w: World, c: CallId)
    requires Inv(w) && c in w.calls && w.calls[c].pc.CheckInit?
    ensures BeginsWell(w.backend, Exchange(c, Command))
  {
    assert CallOk(w.backend, c, w.calls[c]);
  }

  // ------------------------------------------------------------------
  // Readers of dropped connections
  // ------------------------------------------------------------------

  /**
   A reader adds its line to whatever response is pending. That is a response to what was sent on its own
   connection exactly if that connection is still the current one.
   */
  lemma ReaderServesOwn(steps: seq<Step>, conn: CallId)
    requires Run(steps).To? && Run(steps).value.backend.pending.Some?
    ensures var w := Run(steps).value; var owner := w.backend.pending.value.owner;
            && owner in w.calls && (w.calls[owner].pc.Sent? || w.calls[owner].pc.Returned?)
            && (w.calls[owner].pc.conn == conn <==> w.backend.conn == Some(conn))
  {
    RunKeeps(steps);
    var w := Run(steps).value;
    assert CallOk(w.backend, w.backend.pending.value.owner, w.calls[w.backend.pending.value.owner]);
  }

  lemma Then(run: seq<Step>, w: World, step: Step) returns (longer: seq<Step>, next: World)
    requires Run(run) == To(w) && Take(w, step).To?
    ensures Run(longer) == To(next) && Take(w, step) == To(next)
  {
    longer, next := run + [step], Take(w, step).value;
    RunAppend(run, w, step);
  }

  /** A reload has the connection and has passed its check. */
  lemma Connected() returns (run: seq<Step>, w: World)
    ensures Run(run) == To(w) && w.calls == map[0 := Call(Client(true), Sent(0, Subscribe, 0))]
    ensures w.backend == START.backend.(commandMu := Some(0), conn := Some(0), gate := Some(0),
      pending := Some(Exchange(0, Subscribe)), readers := map[0 := None])
  {
    run, w := [], START;
    assert Run(run) == To(w);
    hide Run;
    run, w := Then(run, w, Arrives(0, Client(true)));
    run, w := Then(run, w, Moves(0, PeekGate));
    run, w := Then(run, w, Moves(0, LockCommand));
    run, w := Then(run, w, Moves(0, Check));
    run, w := Then(run, w, Moves(0, Connect(true)));
    run, w := Then(run, w, Moves(0, Begin));
  }

  /** Its log subscription is accepted and its command sent. */
  lemma CommandSent() returns (run: seq<Step>, w: World)
    ensures Run(run) == To(w) && w.calls == map[0 := Call(Client(true), Sent(0, Command, 0))]
    ensures w.backend.pending == Some(Exchange(0, Command)) && Exchange(0, Command) !in w.backend.errors
    ensures LinesOf(w.backend, Exchange(0, Command)) == [] && LinesOf(w.backend, Exchange(1, Subscribe)) == []
    ensures w.backend.readers == map[0 := None]
    ensures w.backend.init == w.backend.generation == 0 && w.backend.closedInits == {} && !w.backend.closed
    ensures w.backend.commandMu == w.backend.conn == w.backend.gate == Some(0) && w.backend.closedGates == {}
  {
    hide Run;
    run, w := Connected();
    run, w := Then(run, w, ReaderSees(0));
    run, w := Then(run, w, ReaderAdds(0, Success));
    run, w := Then(run, w, Moves(0, ResponseDone));
    run, w := Then(run, w, Moves(0, Finish));
    run, w := Then(run, w, Moves(0, Begin));
  }

  /** It is answered well, and OpenVPN initializes. */
  lemma CommandAnswered() returns (run: seq<Step>, w: World)
    ensures Run(run) == To(w) && w.calls == map[0 := Call(Client(true), Sent(0, Command, 0))]
    ensures Exchange(0, Command) in w.backend.done && Exchange(0, Command) !in w.backend.errors
    ensures BeginsWell(w.backend, Exchange(0, Command)) && w.backend.generation == 1
  {
    hide Run, CallStep;
    run, w := CommandSent();
    run, w := Then(run, w, ReaderSees(0));
    run, w := Then(run, w, ReaderAdds(0, Success));
    run, w := Then(run, w, ReaderInit(0));
  }

  /** A reload can be reported successful. */
  lemma ReloadSucceeds() returns (run: seq<Step>, w: World)
    ensures Run(run) == To(w) && ReportsReload(w, 0)
  {
    hide Run, OtherStep, BeginsWell;
    run, w := CommandAnswered();
    run, w := Then(run, w, Moves(0, ResponseDone));
    run, w := Then(run, w, Moves(0, Finish));
    run, w := Then(run, w, Moves(0, UnlockAnswered));
    run, w := Then(run, w, Moves(0, LookAtInit));
  }

  /** A reload whose command timed out: its connection is dropped, but the reader of that lives on. */
  lemma TimedOut() returns (run: seq<Step>, w: World)
    ensures Run(run) == To(w) && w.calls.Keys == {0}
    ensures var b := w.backend;
            && b.commandMu.None? && b.conn.None? && b.pending.None? && b.gate.None? && !b.closed
            && b.readers == map[0 := None] && LinesOf(b, Exchange(1, Subscribe)) == []
  {
    hide Run, OtherStep;
    run, w := CommandSent();
    run, w := Then(run, w, Moves(0, TimeOut));
    run, w := Then(run, w, Moves(0, Finish));
    run, w := Then(run, w, Moves(0, UnlockAnswered));
    run, w := Then(run, w, Moves(0, FinishReload));
  }

  /** The next call connects anew and subscribes. */
  lemma ConnectedAnew() returns (run: seq<Step>, w: World)
    ensures Run(run) == To(w) && 1 in w.calls && w.calls[1].pc.Sent? && w.calls[1].pc.conn == 1
    ensures w.backend.conn == Some(1) && w.backend.pending == Some(Exchange(1, Subscribe)) && 0 in w.backend.readers
    ensures LinesOf(w.backend, Exchange(1, Subscribe)) == []
  {
    hide Run, OtherStep, Concluding;
    run, w := TimedOut();
    run, w := Then(run, w, Arrives(1, Client(false)));
    run, w := Then(run, w, Moves(1, PeekGate));
    run, w := Then(run, w, Moves(1, LockCommand));
    run, w := Then(run, w, Moves(1, Check));
    run, w := Then(run, w, Moves(1, Connect(true)));
    run, w := Then(run, w, Moves(1, Begin));
  }

  /** A line left over on a dropped connection can answer what was sent on the next one. */
  lemma StaleReaderAnswers() returns (run: seq<Step>, w: World)
    ensures Run(run) == To(w) && 1 in w.calls && w.calls[1].pc.Sent? && w.calls[1].pc.conn == 1
    ensures run != [] && run[|run| - 1] == ReaderAdds(0, Success)
    ensures AnswersWell(run, |run| - 1, Exchange(1, Subscribe))
  {
    hide Run, CallStep;
    run, w := ConnectedAnew();
    run, w := Then(run, w, ReaderSees(0));
    var longer := run + [ReaderAdds(0, Success)];
    assert longer[..|run|] == run;
    assert Run(longer) == Take(w, ReaderAdds(0, Success)) by {
      RunAppend(run, w, ReaderAdds(0, Success));
    }
    run, w := longer, Run(longer).value;
  }

  lemma RunAppend(run: seq<Step>, w: World, step: Step)
    requires Run(run) == To(w)
    ensures Run(run + [step]) == Take(w, step)
  {
    assert (run + [step])[..|run|] == run;
  }
}
