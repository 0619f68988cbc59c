/** The deferred signal queue as a machine of small steps (ext/posix/signal.c).

    One step is one C statement of sig_postpone, sig_handle or signal(), or an event from outside:
    a signal is generated, the kernel delivers one, Lua code calls signal() or returns from a
    handler, the debug hook fires. Delivery is possible between any two statements and is governed
    only by the process signal mask; that the C functions run undisturbed is proved, not assumed. */
module SignalMachine {

  const QUEUE_MAX: nat := 25
  const NSIG: nat := 64

  /** A Lua function, by identity. */
  type Fn = nat

  /** A key of the handler table. Lua identifies 15 and 15.0; a numeric string, or a float that C would
      truncate, is a key of its own. */
  datatype LuaKey = IntKey(n: int) | OtherKey(id: nat)

  /** The first argument of signal(): the Lua value, and the int that checkint makes of it. */
  datatype SigArg = SigArg(key: LuaKey, sig: int)

  /** A Lua value as far as indexing it with a signal number is concerned: a table, by what its fields
      give; a string, whose fields are those of the string library, none of them numbered; a number;
      or a value whose indexing raises an error: nil, a boolean, a function. */
  datatype Value = Table(entries: map<LuaKey, Fn>) | Text | Number | Unindexable

  /** What the error message leaves of an error value: lua_tostring converts a number where it is. For
      anything but a string or a number it gives a null pointer, which the message prints with %s. */
  function LeftOnStack(error: Value): Value { if error.Number? then Text else error }

  datatype Top = HandlerTable | Error(value: Value)

  datatype Indexed = Found(fn: Fn) | Missing | Raises

  datatype Handler = Default | Ignore | Postpone | Foreign(id: nat)

  /** What sigaction() installed. */
  datatype Action = Action(handler: Handler, mask: set<int>, nodefer: bool, resethand: bool)

  /** The second argument of signal(), once checked. */
  datatype Request = ToDefault | ToIgnore | ToLua(fn: Fn)

  datatype PostponePc = PTestDefer | PTestFull | PDefer | PStore | PCount | PHook | PUndefer | PReraise
  datatype HandlePc = HBlock | HUnhook | HLoop | HCall | HRunning | HReset | HUnblock | HReturn
  datatype SignalPc = GAction | GRegister | GResult

  /** What runs: the innermost frame first, down to the Lua main program.
      `top` is what is on top of the Lua stack when a handler is looked up: the handler table, until an error
      covers it. `batch`, `before` and `done` record what a drain started with: the queue,
      the signals dispatched until then, and those it has dispatched since. */
  datatype Control =
    | Main
    | Handling(hpc: HandlePc, oldMask: set<int>, top: Top, batch: seq<int>, before: seq<int>, done: seq<int>,
               below: Control)
    | Signalling(gpc: SignalPc, arg: SigArg, request: Request, nodefer: bool, resethand: bool, below: Control)
    | Postponing(ppc: PostponePc, arrival: int, savedMask: set<int>, below: Control)

  datatype State = State(
    control: Control,
    mask: set<int>,
    actions: map<int, Action>,
    generated: set<int>,          // generated and not yet delivered
    signals: seq<int>,            // the static array
    count: int,
    defer: int,
    pending: int,
    hook: bool,
    registry: map<LuaKey, Fn>,
    // history
    ownMask: set<int>,            // the mask the host program last chose
    arrived: seq<int>,            // every entry to sig_postpone
    dropped: seq<int>,            // every return because the queue is full
    dispatched: seq<int>,         // every signal that a drain has looked up
    calls: seq<(int, Fn)>,        // every handler call
    missed: seq<int>,             // signals for which a drain found no function
    lost: seq<int>,               // signals whose lookup raised an error, which escaped from the hook
    escaped: bool,                // whether an error ever did
    installs: seq<(int, Fn)>      // every sigaction() that made sig_postpone the action for a Lua function
  )

  datatype Label =
    | Execute                     // the innermost C frame runs its next statement
    | Generate(sig: int)
    | Deliver(sig: int)
    | CallSignal(arg: SigArg, request: Request, nodefer: bool, resethand: bool)
    | FireHook
    | HandlerReturns
    | HandlerRaises(error: Value)
    | SetMask(mask: set<int>)     // C code of the host program, outside any handler

  /** Disabled: the step is not possible now. Undefined: the C code would read or write outside the array. */
  datatype Outcome = Next(state: State) | Disabled | Undefined

  predicate IsSignal(sig: int) { 1 <= sig <= NSIG }

  function AllSignals(): set<int> { set sig: int | 1 <= sig <= NSIG && IsSignal(sig) }

  function HandlerOf(request: Request): Handler {
    match request
    case ToDefault => Default
    case ToIgnore => Ignore
    case ToLua(_) => Postpone
  }

  /** sigaction() refuses numbers out of range, and SIGKILL and SIGSTOP. */
  predicate Refused(sig: int) { sig < 1 || sig > NSIG || sig == 9 || sig == 19 }

  function Queued(s: State): seq<int> {
    if 0 <= s.count <= |s.signals| then s.signals[..s.count] else []
  }

  // ---------------------------------------------------------------------------
  // The statements
  // ---------------------------------------------------------------------------

  /** sig_postpone; returning restores the mask that delivery saved. */
  function ExecutePostpone(s: State): Outcome
    requires s.control.Postponing?
  {
    var c := s.control;
    var returned := s.(control := c.below, mask := c.savedMask);
    match c.ppc
    case PTestDefer => Next(if s.defer != 0 then returned.(pending := c.arrival)
                            else s.(control := c.(ppc := PTestFull)))
    case PTestFull => Next(if s.count == QUEUE_MAX then returned.(dropped := s.dropped + [c.arrival])
                           else s.(control := c.(ppc := PDefer)))
    case PDefer => Next(s.(defer := s.defer + 1, control := c.(ppc := PStore)))
    case PStore => if 0 <= s.count < |s.signals|
                   then Next(s.(signals := s.signals[s.count := c.arrival], control := c.(ppc := PCount)))
                   else Undefined
    case PCount => Next(s.(count := s.count + 1, control := c.(ppc := PHook)))
    case PHook => Next(s.(hook := true, control := c.(ppc := PUndefer)))
    case PUndefer => Next(s.(defer := s.defer - 1, control := c.(ppc := PReraise)))
    case PReraise => Next(if s.defer == 0 && s.pending != 0 then returned.(generated := s.generated + {s.pending})
                          else returned)
  }

  /** lua_gettable with a signal number. */
  function FindHandler(top: Top, registry: map<LuaKey, Fn>, sig: int): Indexed {
    match top
    case HandlerTable => if IntKey(sig) in registry then Found(registry[IntKey(sig)]) else Missing
    case Error(Table(m)) => if IntKey(sig) in m then Found(m[IntKey(sig)]) else Missing
    case Error(Text) => Missing
    case Error(_) => Raises
  }

  /** Where the lookup gives nil, the call fails, and its message stays on the stack for the next lookup. An
      error of the lookup itself leaves sig_handle, and the mask and the counter as they are. */
  function CallHandler(s: State, c: Control, sig: int): State
    requires c.Handling?
  {
    match FindHandler(c.top, s.registry, sig)
    case Found(fn) => s.(dispatched := s.dispatched + [sig], calls := s.calls + [(sig, fn)],
                         control := c.(hpc := HRunning, done := c.done + [sig]))
    case Missing => s.(dispatched := s.dispatched + [sig], missed := s.missed + [sig],
                       control := c.(hpc := HLoop, top := Error(Text), done := c.done + [sig]))
    case Raises => s.(lost := s.lost + [sig], escaped := true, control := c.below)
  }

  /** sig_handle; `while (signal_count--)` tests and decrements in one statement. */
  function ExecuteHandle(s: State): Outcome
    requires s.control.Handling?
  {
    var c := s.control;
    match c.hpc
    case HBlock => Next(s.(mask := AllSignals(), control := c.(hpc := HUnhook, oldMask := s.mask, top := HandlerTable,
                           batch := Queued(s), before := s.dispatched, done := [])))
    case HUnhook => Next(s.(hook := false, control := c.(hpc := HLoop)))
    case HLoop => Next(s.(count := s.count - 1, control := c.(hpc := if s.count != 0 then HCall else HReset)))
    case HCall => if 0 <= s.count < |s.signals| then Next(CallHandler(s, c, s.signals[s.count])) else Undefined
    case HRunning => Disabled
    case HReset => Next(s.(count := 0, control := c.(hpc := HUnblock)))
    case HUnblock => Next(s.(mask := c.oldMask, control := c.(hpc := HReturn)))
    case HReturn => Next(s.(control := c.below))
  }

  /** The part of signal() after its arguments are checked. */
  function ExecuteSignal(s: State): Outcome
    requires s.control.Signalling?
  {
    var c := s.control;
    match c.gpc
    case GAction =>
      if Refused(c.arg.sig) then Next(s.(control := c.below))
      else Next(s.(actions := s.actions[c.arg.sig :=
                     Action(HandlerOf(c.request), AllSignals(), c.nodefer, c.resethand)],
                   generated := if c.request.ToIgnore? then s.generated - {c.arg.sig} else s.generated,
                   installs := if c.request.ToLua? then s.installs + [(c.arg.sig, c.request.fn)] else s.installs,
                   control := c.(gpc := if c.request.ToLua? then GRegister else GResult)))
    case GRegister =>
      if c.request.ToLua?
      then Next(s.(registry := s.registry[c.arg.key := c.request.fn], control := c.(gpc := GResult)))
      else Undefined
    case GResult => Next(s.(control := c.below))
  }

  /** Delivery of a generated signal, by the rules of sigaction() in IEEE Std 1003.1-2008: while the
      handler runs, its sa_mask and, without SA_NODEFER, the signal itself are blocked. The default
      action and handlers of the host program do nothing to this module's state. */
  function DeliverSignal(s: State, sig: int): Outcome {
    if sig !in s.generated || sig in s.mask || sig !in s.actions then Disabled
    else
      var a := s.actions[sig];
      var t := s.(generated := s.generated - {sig});
      if !a.handler.Postpone? then Next(t)
      else Next(t.(mask := s.mask + a.mask + (if a.nodefer then {} else {sig}),
                   actions := if a.resethand then s.actions[sig := a.(handler := Default)] else s.actions,
                   arrived := s.arrived + [sig],
                   control := Postponing(PTestDefer, sig, s.mask, s.control)))
  }

  predicate LuaRuns(c: Control) { c.Main? || (c.Handling? && c.hpc.HRunning?) }

  function Step(s: State, l: Label): Outcome {
    match l
    case Execute =>
      (match s.control
       case Main => Disabled
       case Postponing(_, _, _, _) => ExecutePostpone(s)
       case Handling(_, _, _, _, _, _, _) => ExecuteHandle(s)
       case Signalling(_, _, _, _, _, _) => ExecuteSignal(s))
    case Generate(sig) => if 1 <= sig <= NSIG then Next(s.(generated := s.generated + {sig})) else Disabled
    case Deliver(sig) => DeliverSignal(s, sig)
    case CallSignal(arg, request, nodefer, resethand) =>
      if LuaRuns(s.control)
      then Next(s.(control := Signalling(GAction, arg, request, nodefer, resethand, s.control)))
      else Disabled
    case FireHook =>
      if LuaRuns(s.control) && s.hook
      then Next(s.(control := Handling(HBlock, {}, HandlerTable, [], [], [], s.control)))
      else Disabled
    case HandlerReturns =>
      if s.control.Handling? && s.control.hpc.HRunning? then Next(s.(control := s.control.(hpc := HLoop))) else Disabled
    case HandlerRaises(error) =>
      if s.control.Handling? && s.control.hpc.HRunning?
      then Next(s.(control := s.control.(hpc := HLoop, top := Error(LeftOnStack(error))))) else Disabled
    case SetMask(mask) => if s.control.Main? then Next(s.(mask := mask, ownMask := mask)) else Disabled
  }

  /** A run: the labels in order, skipping those that are not possible when their turn comes. */
  function Run(s: State, ls: seq<Label>): Outcome
    decreases |ls|
  {
    if ls == [] then Next(s)
    else match Step(s, ls[0])
      case Next(t) => Run(t, ls[1..])
      case Disabled => Run(s, ls[1..])
      case Undefined => Undefined
  }

  /** When the module is loaded: nothing of it is installed, whatever the host program has done. */
  ghost predicate Initial(s: State) {
    && s.control == Main && s.mask == s.ownMask && s.actions.Keys == AllSignals()
    && (forall k :: k in s.actions ==> !s.actions[k].handler.Postpone?)
    && |s.signals| == QUEUE_MAX && s.count == 0 && s.defer == 0 && s.pending == 0 && !s.hook
    && s.registry == map[] && s.arrived == [] && s.dropped == [] && s.dispatched == [] && s.calls == []
    && s.missed == [] && s.lost == [] && !s.escaped
    && s.installs == []
  }

  // ---------------------------------------------------------------------------
  // The invariant
  // ---------------------------------------------------------------------------

  function Reverse(q: seq<int>): seq<int> {
    if q == [] then [] else Reverse(q[1..]) + [q[0]]
  }

  /** Every signal has an action, and every action of ours blocks everything. */
  ghost predicate Masked(actions: map<int, Action>) {
    && actions.Keys == AllSignals()
    && forall k :: k in actions && actions[k].handler.Postpone? ==> AllSignals() <= actions[k].mask
  }

  /** The hook is there only when something is queued, and always then, unless an error has escaped. */
  predicate HookKept(s: State) { (s.hook ==> s.count > 0) && (!s.escaped ==> s.count > 0 ==> s.hook) }

  predicate MaskKept(s: State, mask: set<int>) { !s.escaped ==> mask == s.ownMask }

  /** No C frame of ours is active. */
  predicate Quiet(s: State) {
    && MaskKept(s, s.mask) && s.defer == 0 && s.pending == 0
    && |s.signals| == QUEUE_MAX && 0 <= s.count <= QUEUE_MAX && HookKept(s)
  }

  /** A drain between blocking and unblocking. */
  predicate Draining(s: State, c: Control)
    requires c.Handling?
  {
    && s.defer == 0 && s.pending == 0 && |s.signals| == QUEUE_MAX && AllSignals() <= s.mask
    && MaskKept(s, c.oldMask) && c.below == Main
    && s.dispatched == c.before + c.done && |c.batch| <= QUEUE_MAX
    && match c.hpc
       case HBlock => false
       case HUnhook => s.count == |c.batch| && c.batch == s.signals[..s.count] && c.done == []
       case HLoop => !s.hook && 0 <= s.count <= |c.batch| && Left(s, c, s.count)
       case HCall => !s.hook && 0 <= s.count < |c.batch| && Left(s, c, s.count + 1)
       case HRunning => !s.hook && 0 <= s.count <= |c.batch| && Left(s, c, s.count)
       case HReset => !s.hook && s.count == -1 && c.done == Reverse(c.batch)
       case HUnblock => !s.hook && s.count == 0 && c.done == Reverse(c.batch)
       case HReturn => false
  }

  /** The first n entries of the batch are still in the array, the others are done, last first. */
  predicate Left(s: State, c: Control, n: nat)
    requires c.Handling? && n <= |c.batch|
  {
    n <= |s.signals| && c.batch[..n] == s.signals[..n] && c.done == Reverse(c.batch[n..])
  }

  /** What may be interrupted by a delivery. */
  predicate Interruptible(c: Control) {
    || c.Main?
    || (c.Signalling? && c.below.Main?)
    || (c.Handling? && (c.hpc.HBlock? || c.hpc.HReturn?) && c.below.Main?)
  }

  ghost predicate Shape(s: State) {
    match s.control
    case Main => Quiet(s)
    case Signalling(pc, arg, request, _, _, below) =>
      && (pc.GRegister? ==> request.ToLua?) && (!pc.GAction? ==> !Refused(arg.sig))
      && (if below.Main? then Quiet(s) else below.Handling? && below.hpc.HRunning? && Draining(s, below))
    case Handling(pc, _, _, _, _, _, below) =>
      if pc.HBlock? || pc.HReturn? then below.Main? && Quiet(s) else Draining(s, s.control)
    case Postponing(pc, arrival, saved, below) =>
      && AllSignals() <= s.mask && MaskKept(s, saved) && Interruptible(below) && 1 <= arrival <= NSIG
      && (below.Signalling? ==>
            (below.gpc.GRegister? ==> below.request.ToLua?) && (!below.gpc.GAction? ==> !Refused(below.arg.sig)))
      && s.pending == 0 && |s.signals| == QUEUE_MAX && |s.arrived| > 0 && s.arrived[|s.arrived| - 1] == arrival
      && s.defer == (if pc.PStore? || pc.PCount? || pc.PHook? || pc.PUndefer? then 1 else 0)
      && (match pc
          case PTestDefer | PTestFull => 0 <= s.count <= QUEUE_MAX && HookKept(s)
          case PDefer | PStore => 0 <= s.count < QUEUE_MAX && HookKept(s)
          case PCount => 0 <= s.count < QUEUE_MAX && HookKept(s) && s.signals[s.count] == arrival
          case PHook => 0 < s.count <= QUEUE_MAX
          case PUndefer | PReraise => 0 < s.count <= QUEUE_MAX && s.hook)
  }

  ghost predicate Inv(s: State) { Masked(s.actions) && Shape(s) }

  lemma InitialInv(s: State)
    requires Initial(s)
    ensures Inv(s)
  {
  }

  lemma EntryInv(s: State)
    requires Inv(s) && s.control.Postponing? && (s.control.ppc.PTestDefer?)
    ensures ExecutePostpone(s).Next? && Inv(ExecutePostpone(s).state)
  {
  }

  lemma FullInv(s: State)
    requires Inv(s) && s.control.Postponing? && (s.control.ppc.PTestFull?)
    ensures ExecutePostpone(s).Next? && Inv(ExecutePostpone(s).state)
  {
  }

  lemma StoreInv(s: State)
    requires Inv(s) && s.control.Postponing? && (s.control.ppc.PDefer? || s.control.ppc.PStore?)
    ensures ExecutePostpone(s).Next? && Inv(ExecutePostpone(s).state)
  {
  }

  lemma CountInv(s: State)
    requires Inv(s) && s.control.Postponing? && (s.control.ppc.PCount?)
    ensures ExecutePostpone(s).Next? && Inv(ExecutePostpone(s).state)
  {
  }

  lemma HookInv(s: State)
    requires Inv(s) && s.control.Postponing? && (s.control.ppc.PHook? || s.control.ppc.PUndefer?)
    ensures ExecutePostpone(s).Next? && Inv(ExecutePostpone(s).state)
  {
  }

  lemma ReraiseInv(s: State)
    requires Inv(s) && s.control.Postponing? && (s.control.ppc.PReraise?)
    ensures ExecutePostpone(s).Next? && Inv(ExecutePostpone(s).state)
  {
  }

  lemma HBlockInv(s: State)
    requires Inv(s) && s.control.Handling? && s.control.hpc.HBlock?
    ensures ExecuteHandle(s).Next? && Inv(ExecuteHandle(s).state)
  {
  }

  lemma HUnhookInv(s: State)
    requires Inv(s) && s.control.Handling? && s.control.hpc.HUnhook?
    ensures ExecuteHandle(s).Next? && Inv(ExecuteHandle(s).state)
  {
  }

  lemma HLoopInv(s: State)
    requires Inv(s) && s.control.Handling? && s.control.hpc.HLoop?
    ensures ExecuteHandle(s).Next? && Inv(ExecuteHandle(s).state)
  {
  }

  lemma HCallInv(s: State)
    requires Inv(s) && s.control.Handling? && s.control.hpc.HCall?
    ensures ExecuteHandle(s).Next? && Inv(ExecuteHandle(s).state)
  {
    TakesNext(s.control.batch, s.signals, s.control.done, s.count);
    match FindHandler(s.control.top, s.registry, s.signals[s.count])
    case Found(_) => HFoundInv(s);
    case Missing => HMissingInv(s);
    case Raises =>
  }

  /** The next signal of a batch is done. */
  lemma TakesNext(batch: seq<int>, signals: seq<int>, done: seq<int>, n: nat)
    requires n < |batch| && n + 1 <= |signals| && batch[..n + 1] == signals[..n + 1] && done == Reverse(batch[n + 1..])
    ensures batch[n] == signals[n] && batch[..n] == signals[..n] && done + [signals[n]] == Reverse(batch[n..])
  {
    assert batch[..n + 1][n] == signals[..n + 1][n];
    assert batch[n..][1..] == batch[n + 1..];
    assert batch[..n] == batch[..n + 1][..n] == signals[..n + 1][..n] == signals[..n];
  }

  lemma HFoundInv(s: State)
    requires Inv(s) && s.control.Handling? && s.control.hpc.HCall?
    requires FindHandler(s.control.top, s.registry, s.signals[s.count]).Found?
    ensures Inv(ExecuteHandle(s).state)
  {
    TakesNext(s.control.batch, s.signals, s.control.done, s.count);
  }

  lemma HMissingInv(s: State)
    requires Inv(s) && s.control.Handling? && s.control.hpc.HCall?
    requires FindHandler(s.control.top, s.registry, s.signals[s.count]).Missing?
    ensures Inv(ExecuteHandle(s).state)
  {
    TakesNext(s.control.batch, s.signals, s.control.done, s.count);
  }

  lemma HResetInv(s: State)
    requires Inv(s) && s.control.Handling? && s.control.hpc.HReset?
    ensures ExecuteHandle(s).Next? && Inv(ExecuteHandle(s).state)
  {
  }

  lemma HUnblockInv(s: State)
    requires Inv(s) && s.control.Handling? && s.control.hpc.HUnblock?
    ensures ExecuteHandle(s).Next? && Inv(ExecuteHandle(s).state)
  {
  }

  lemma HReturnInv(s: State)
    requires Inv(s) && s.control.Handling? && s.control.hpc.HReturn?
    ensures ExecuteHandle(s).Next? && Inv(ExecuteHandle(s).state)
  {
  }

  lemma GActionInv(s: State)
    requires Inv(s) && s.control.Signalling? && s.control.gpc.GAction?
    ensures ExecuteSignal(s).Next? && Inv(ExecuteSignal(s).state)
  {
    if !Refused(s.control.arg.sig) {
      GActedShape(s);
    }
  }

  lemma GActedShape(s: State)
    requires Inv(s) && s.control.Signalling? && s.control.gpc.GAction? && !Refused(s.control.arg.sig)
    ensures ExecuteSignal(s).Next? && Shape(ExecuteSignal(s).state)
  {
  }

  lemma GRegisterInv(s: State)
    requires Inv(s) && s.control.Signalling? && s.control.gpc.GRegister?
    ensures ExecuteSignal(s).Next? && Inv(ExecuteSignal(s).state)
  {
  }

  lemma GResultInv(s: State)
    requires Inv(s) && s.control.Signalling? && s.control.gpc.GResult?
    ensures ExecuteSignal(s).Next? && Inv(ExecuteSignal(s).state)
  {
  }

  lemma DeliverInv(s: State, sig: int)
    requires Inv(s) && DeliverSignal(s, sig).Next?
    ensures Inv(DeliverSignal(s, sig).state)
  {
  }

  lemma CallInv(s: State, arg: SigArg, request: Request, nodefer: bool, resethand: bool)
    requires Inv(s) && LuaRuns(s.control)
    ensures Inv(s.(control := Signalling(GAction, arg, request, nodefer, resethand, s.control)))
  {
  }

  lemma FireInv(s: State)
    requires Inv(s) && LuaRuns(s.control) && s.hook
    ensures Inv(s.(control := Handling(HBlock, {}, HandlerTable, [], [], [], s.control)))
  {
  }

  lemma HandlerReturnsInv(s: State)
    requires Inv(s) && s.control.Handling? && s.control.hpc.HRunning?
    ensures Inv(s.(control := s.control.(hpc := HLoop)))
  {
  }

  lemma HandlerRaisesInv(s: State, error: Value)
    requires Inv(s) && s.control.Handling? && s.control.hpc.HRunning?
    ensures Inv(s.(control := s.control.(hpc := HLoop, top := Error(LeftOnStack(error)))))
  {
  }

  lemma GenerateInv(s: State, generated: set<int>)
    requires Inv(s)
    ensures Inv(s.(generated := generated))
  {
  }

  lemma SetMaskInv(s: State, mask: set<int>)
    requires Inv(s) && s.control.Main?
    ensures Inv(s.(mask := mask, ownMask := mask))
  {
  }

  /** No step leaves the invariant, and none is undefined. */
  lemma StepInv(s: State, l: Label)
    requires Inv(s)
    ensures !Step(s, l).Undefined?
    ensures Step(s, l).Next? ==> Inv(Step(s, l).state)
  {
    match l
    case Execute =>
      match s.control {
        case Main =>
        case Postponing(pc, _, _, _) => ExecutePostponeInv(s);
        case Handling(pc, _, _, _, _, _, _) => ExecuteHandleInv(s);
        case Signalling(pc, _, _, _, _, _) => ExecuteSignalInv(s);
      }
    case Deliver(sig) => if Step(s, l).Next? { DeliverInv(s, sig); }
    case Generate(sig) => GenerateInv(s, s.generated + {sig});
    case CallSignal(arg, request, nodefer, resethand) =>
      if Step(s, l).Next? { CallInv(s, arg, request, nodefer, resethand); }
    case FireHook => if Step(s, l).Next? { FireInv(s); }
    case HandlerReturns => if Step(s, l).Next? { HandlerReturnsInv(s); }
    case HandlerRaises(error) => if Step(s, l).Next? { HandlerRaisesInv(s, error); }
    case SetMask(mask) => if Step(s, l).Next? { SetMaskInv(s, mask); }
  }

  lemma ExecutePostponeInv(s: State)
    requires Inv(s) && s.control.Postponing?
    ensures ExecutePostpone(s).Next? && Inv(ExecutePostpone(s).state)
  {
    match s.control.ppc
    case PTestDefer => EntryInv(s);
    case PTestFull => FullInv(s);
    case PDefer | PStore => StoreInv(s);
    case PCount => CountInv(s);
    case PHook | PUndefer => HookInv(s);
    case PReraise => ReraiseInv(s);
  }

  lemma ExecuteHandleInv(s: State)
    requires Inv(s) && s.control.Handling?
    ensures s.control.hpc.HRunning? <==> ExecuteHandle(s).Disabled?
    ensures !s.control.hpc.HRunning? ==> ExecuteHandle(s).Next? && Inv(ExecuteHandle(s).state)
  {
    match s.control.hpc
    case HBlock => HBlockInv(s);
    case HUnhook => HUnhookInv(s);
    case HLoop => HLoopInv(s);
    case HCall => HCallInv(s);
    case HRunning =>
    case HReset => HResetInv(s);
    case HUnblock => HUnblockInv(s);
    case HReturn => HReturnInv(s);
  }

  lemma ExecuteSignalInv(s: State)
    requires Inv(s) && s.control.Signalling?
    ensures ExecuteSignal(s).Next? && Inv(ExecuteSignal(s).state)
  {
    match s.control.gpc
    case GAction => GActionInv(s);
    case GRegister => GRegisterInv(s);
    case GResult => GResultInv(s);
  }

  // ---------------------------------------------------------------------------
  // The atomic queue that the machine refines
  // ---------------------------------------------------------------------------

  /** A queue whose operations happen in one piece. */
  datatype Atomic = Atomic(queue: seq<int>, received: seq<int>, dropped: seq<int>, dispatched: seq<int>, lost: seq<int>)

  /** An escape ends a drain when `left` signals are left, and loses the one that was next. */
  datatype Event = Arrive(sig: int) | Drain | Escape(left: nat)

  function Apply(a: Atomic, e: Event): Atomic {
    match e
    case Arrive(sig) =>
      if |a.queue| == QUEUE_MAX
      then a.(received := a.received + [sig], dropped := a.dropped + [sig])
      else a.(received := a.received + [sig], queue := a.queue + [sig])
    case Drain =>
      a.(queue := [], dispatched := a.dispatched + Reverse(a.queue))
    case Escape(left) =>
      if left >= |a.queue| then a
      else a.(queue := a.queue[..left], lost := a.lost + [a.queue[left]],
              dispatched := a.dispatched + Reverse(a.queue[left + 1..]))
  }

  function ApplyAll(a: Atomic, es: seq<Event>): Atomic {
    if es == [] then a else Apply(ApplyAll(a, es[..|es| - 1]), es[|es| - 1])
  }

  lemma ApplyOne(a: Atomic, e: Event)
    ensures ApplyAll(a, [e]) == Apply(a, e)
  {
    assert [e][..0] == [];
  }

  /** A drain takes effect when it has emptied the array, an arrival when it is counted or dropped. */
  predicate InDrain(c: Control) {
    c.Handling? && (c.hpc.HUnhook? || c.hpc.HLoop? || c.hpc.HCall? || c.hpc.HRunning? || c.hpc.HReset?)
  }

  function DrainOf(c: Control): Control { if c.Signalling? then c.below else c }

  predicate NotCounted(c: Control) {
    c.Postponing? && (c.ppc.PTestDefer? || c.ppc.PTestFull? || c.ppc.PDefer? || c.ppc.PStore? || c.ppc.PCount?)
  }

  function Abstract(s: State): Atomic {
    var d := DrainOf(s.control);
    Atomic(if InDrain(d) then d.batch else Queued(s),
           if NotCounted(s.control) && s.arrived != [] then s.arrived[..|s.arrived| - 1] else s.arrived,
           s.dropped,
           if InDrain(d) then d.before else s.dispatched,
           s.lost)
  }

  /** What a step is for the atomic queue: nothing, or one whole operation. */
  function EventsOf(s: State, l: Label): seq<Event> {
    if !l.Execute? then []
    else match s.control
      case Postponing(pc, arrival, _, _) =>
        if pc.PCount? || (pc.PTestFull? && s.count == QUEUE_MAX) then [Arrive(arrival)] else []
      case Handling(pc, _, top, _, _, _, _) =>
        if pc.HReset? then [Drain]
        else if pc.HCall? && 0 <= s.count < |s.signals| && FindHandler(top, s.registry, s.signals[s.count]).Raises?
        then [Escape(s.count)]
        else []
      case _ => []
  }

  lemma EntryRefines(s: State)
    requires Inv(s) && s.control.Postponing? && (s.control.ppc.PTestDefer? || s.control.ppc.PReraise?)
    ensures ExecutePostpone(s).Next?
    ensures Abstract(ExecutePostpone(s).state) == ApplyAll(Abstract(s), EventsOf(s, Execute))
  {
  }

  lemma FullRefines(s: State)
    requires Inv(s) && s.control.Postponing? && s.control.ppc.PTestFull?
    ensures ExecutePostpone(s).Next?
    ensures Abstract(ExecutePostpone(s).state) == ApplyAll(Abstract(s), EventsOf(s, Execute))
  {
    OneMore(s.arrived, |s.arrived| - 1);
    if s.count == QUEUE_MAX {
      DropApplies(Abstract(s), s.control.arrival);
    }
  }

  lemma StoreRefines(s: State)
    requires Inv(s) && s.control.Postponing?
    requires s.control.ppc.PDefer? || s.control.ppc.PStore? || s.control.ppc.PHook? || s.control.ppc.PUndefer?
    ensures ExecutePostpone(s).Next?
    ensures Abstract(ExecutePostpone(s).state) == ApplyAll(Abstract(s), EventsOf(s, Execute))
  {
  }

  lemma DropApplies(a: Atomic, sig: int)
    requires |a.queue| == QUEUE_MAX
    ensures ApplyAll(a, [Arrive(sig)])
         == Atomic(a.queue, a.received + [sig], a.dropped + [sig], a.dispatched, a.lost)
  {
    ApplyOne(a, Arrive(sig));
  }

  lemma ArriveApplies(a: Atomic, sig: int)
    requires |a.queue| < QUEUE_MAX
    ensures ApplyAll(a, [Arrive(sig)])
         == Atomic(a.queue + [sig], a.received + [sig], a.dropped, a.dispatched, a.lost)
  {
    ApplyOne(a, Arrive(sig));
  }

  lemma OneMore(q: seq<int>, n: nat)
    requires n < |q|
    ensures q[..n + 1] == q[..n] + [q[n]] && (n + 1 == |q| ==> q == q[..n] + [q[n]])
  {
  }

  lemma CountRefines(s: State)
    requires Inv(s) && s.control.Postponing? && s.control.ppc.PCount?
    ensures Abstract(ExecutePostpone(s).state) == ApplyAll(Abstract(s), EventsOf(s, Execute))
  {
    PostponeFrame(s);
    OneMore(s.arrived, |s.arrived| - 1);
    OneMore(s.signals, s.count);
    ArriveApplies(Abstract(s), s.control.arrival);
  }

  /** What sig_postpone leaves alone. */
  predicate PostponeLeaves(s: State, t: State)
    requires s.control.Postponing?
  {
    && t.escaped == s.escaped && t.lost == s.lost && t.missed == s.missed && t.dispatched == s.dispatched
    && t.actions == s.actions && t.registry == s.registry && t.installs == s.installs
    && (t.control == s.control.below ||
        (t.control.Postponing? && t.control.below == s.control.below && t.control.arrival == s.control.arrival))
  }

  lemma PostponeFrame(s: State)
    requires s.control.Postponing? && ExecutePostpone(s).Next?
    ensures PostponeLeaves(s, ExecutePostpone(s).state)
  {
    match s.control.ppc
    case PTestDefer | PTestFull => TestFrame(s);
    case PDefer | PStore | PCount => StoreFrame(s);
    case PHook | PUndefer | PReraise => HookFrame(s);
  }

  lemma TestFrame(s: State)
    requires s.control.Postponing? && (s.control.ppc.PTestDefer? || s.control.ppc.PTestFull?)
    ensures PostponeLeaves(s, ExecutePostpone(s).state)
  {
  }

  lemma StoreFrame(s: State)
    requires s.control.Postponing? && (s.control.ppc.PDefer? || s.control.ppc.PStore? || s.control.ppc.PCount?)
    requires ExecutePostpone(s).Next?
    ensures PostponeLeaves(s, ExecutePostpone(s).state)
  {
  }

  lemma HookFrame(s: State)
    requires s.control.Postponing? && (s.control.ppc.PHook? || s.control.ppc.PUndefer? || s.control.ppc.PReraise?)
    ensures PostponeLeaves(s, ExecutePostpone(s).state)
  {
  }

  lemma BlockRefines(s: State)
    requires Inv(s) && s.control.Handling?
        && (s.control.hpc.HBlock? || s.control.hpc.HUnblock? || s.control.hpc.HReturn?)
    ensures ExecuteHandle(s).Next?
    ensures Abstract(ExecuteHandle(s).state) == ApplyAll(Abstract(s), EventsOf(s, Execute))
  {
  }

  lemma DrainRefines(s: State)
    requires Inv(s) && s.control.Handling? && (s.control.hpc.HUnhook? || s.control.hpc.HLoop?)
    ensures ExecuteHandle(s).Next?
    ensures Abstract(ExecuteHandle(s).state) == ApplyAll(Abstract(s), EventsOf(s, Execute))
  {
  }

  lemma CallRefines(s: State)
    requires Inv(s) && s.control.Handling? && s.control.hpc.HCall?
    ensures ExecuteHandle(s).Next?
    ensures Abstract(ExecuteHandle(s).state) == ApplyAll(Abstract(s), EventsOf(s, Execute))
  {
    if FindHandler(s.control.top, s.registry, s.signals[s.count]).Raises? {
      EscapeRefines(s);
    }
  }

  lemma EscapeRefines(s: State)
    requires Inv(s) && s.control.Handling? && s.control.hpc.HCall?
    requires FindHandler(s.control.top, s.registry, s.signals[s.count]).Raises?
    ensures Abstract(ExecuteHandle(s).state) == ApplyAll(Abstract(s), [Escape(s.count)])
  {
    ApplyOne(Abstract(s), Escape(s.count));
    TakesNext(s.control.batch, s.signals, s.control.done, s.count);
  }

  lemma ResetRefines(s: State)
    requires Inv(s) && s.control.Handling? && s.control.hpc.HReset?
    ensures ExecuteHandle(s).Next?
    ensures Abstract(ExecuteHandle(s).state) == ApplyAll(Abstract(s), EventsOf(s, Execute))
  {
    ApplyOne(Abstract(s), Drain);
    assert Queued(ExecuteHandle(s).state) == [];
  }

  lemma SignalRefines(s: State)
    requires Inv(s) && s.control.Signalling?
    ensures Abstract(ExecuteSignal(s).state) == ApplyAll(Abstract(s), EventsOf(s, Execute))
  {
    assert EventsOf(s, Execute) == [];
    if s.control.gpc.GAction? {
      ActionSame(s);
    } else {
      RegisterSame(s);
    }
  }

  lemma ActionSame(s: State)
    requires Inv(s) && s.control.Signalling? && s.control.gpc.GAction?
    ensures Abstract(ExecuteSignal(s).state) == Abstract(s)
  {
  }

  lemma RegisterSame(s: State)
    requires Inv(s) && s.control.Signalling? && !s.control.gpc.GAction?
    ensures Abstract(ExecuteSignal(s).state) == Abstract(s)
  {
  }

  lemma DeliverRefines(s: State, sig: int)
    requires Inv(s) && DeliverSignal(s, sig).Next?
    ensures Abstract(DeliverSignal(s, sig).state) == Abstract(s)
  {
  }

  lemma EventRefines(s: State, l: Label)
    requires Inv(s) && !l.Execute? && !l.Deliver? && Step(s, l).Next?
    ensures Abstract(Step(s, l).state) == Abstract(s)
  {
  }

  /** Every step is nothing, or one whole operation, of the atomic queue. */
  lemma StepRefines(s: State, l: Label)
    requires Inv(s) && Step(s, l).Next?
    ensures Abstract(Step(s, l).state) == ApplyAll(Abstract(s), EventsOf(s, l))
  {
    match l
    case Execute =>
      match s.control {
        case Main =>
        case Postponing(pc, _, _, _) =>
          match pc {
            case PTestDefer | PReraise => EntryRefines(s);
            case PTestFull => FullRefines(s);
            case PCount => CountRefines(s);
            case PDefer | PStore | PHook | PUndefer => StoreRefines(s);
          }
        case Handling(pc, _, _, _, _, _, _) =>
          match pc {
            case HBlock | HUnblock | HReturn => BlockRefines(s);
            case HUnhook | HLoop => DrainRefines(s);
            case HCall => CallRefines(s);
            case HRunning =>
            case HReset => ResetRefines(s);
          }
        case Signalling(_, _, _, _, _, _) => SignalRefines(s);
      }
    case Deliver(sig) => DeliverRefines(s, sig);
    case _ => EventRefines(s, l);
  }

  lemma {:induction false} ApplyAllAppend(a: Atomic, es: seq<Event>, fs: seq<Event>)
    ensures ApplyAll(a, es + fs) == ApplyAll(ApplyAll(a, es), fs)
    decreases |fs|
  {
    if fs == [] {
      assert es + fs == es;
    } else {
      assert (es + fs)[..|es + fs| - 1] == es + fs[..|fs| - 1];
      ApplyAllAppend(a, es, fs[..|fs| - 1]);
    }
  }

  /** Every run keeps the invariant, is never undefined, and is a run of the atomic queue. */
  lemma {:induction false} RunRefines(s: State, ls: seq<Label>) returns (es: seq<Event>)
    requires Inv(s)
    ensures Run(s, ls).Next? && Inv(Run(s, ls).state)
    ensures Abstract(Run(s, ls).state) == ApplyAll(Abstract(s), es)
    decreases |ls|
  {
    if ls == [] {
      es := [];
    } else {
      StepInv(s, ls[0]);
      match Step(s, ls[0])
      case Disabled => es := RunRefines(s, ls[1..]);
      case Next(t) =>
        StepRefines(s, ls[0]);
        var fs := RunRefines(t, ls[1..]);
        es := EventsOf(s, ls[0]) + fs;
        ApplyAllAppend(Abstract(s), EventsOf(s, ls[0]), fs);
    }
  }

  // ---------------------------------------------------------------------------
  // What every run guarantees
  // ---------------------------------------------------------------------------

  lemma {:induction false} ReverseKeeps(q: seq<int>)
    ensures multiset(Reverse(q)) == multiset(q)
  {
    if q != [] {
      ReverseKeeps(q[1..]);
      assert q == [q[0]] + q[1..];
    }
  }

  /** What an operation adds to what has been received it adds to what has become of it. */
  lemma ApplyConserves(a: Atomic, e: Event)
    requires multiset(a.received) == multiset(a.dispatched) + multiset(a.queue) + multiset(a.dropped) + multiset(a.lost)
    ensures var b := Apply(a, e);
            multiset(b.received) == multiset(b.dispatched) + multiset(b.queue) + multiset(b.dropped) + multiset(b.lost)
  {
    match e
    case Arrive(sig) => ArriveConserves(a, sig);
    case Drain => ReverseKeeps(a.queue);
    case Escape(left) => EscapeConserves(a, left);
  }

  lemma ArriveConserves(a: Atomic, sig: int)
    requires multiset(a.received) == multiset(a.dispatched) + multiset(a.queue) + multiset(a.dropped) + multiset(a.lost)
    ensures var b := Apply(a, Arrive(sig));
            multiset(b.received) == multiset(b.dispatched) + multiset(b.queue) + multiset(b.dropped) + multiset(b.lost)
  {
  }

  lemma EscapeConserves(a: Atomic, left: nat)
    requires multiset(a.received) == multiset(a.dispatched) + multiset(a.queue) + multiset(a.dropped) + multiset(a.lost)
    ensures var b := Apply(a, Escape(left));
            multiset(b.received) == multiset(b.dispatched) + multiset(b.queue) + multiset(b.dropped) + multiset(b.lost)
  {
    if left < |a.queue| {
      SplitQueue(a.queue, left);
    }
  }

  lemma SplitQueue(q: seq<int>, n: nat)
    requires n < |q|
    ensures multiset(q) == multiset(q[..n]) + multiset([q[n]]) + multiset(Reverse(q[n + 1..]))
  {
    ReverseKeeps(q[n + 1..]);
    assert q == q[..n] + ([q[n]] + q[n + 1..]);
  }

  /** Nothing is lost but at an escape, and a signal is dropped only when the queue is full. */
  lemma {:induction false} Conserved(a: Atomic, es: seq<Event>)
    requires a.queue == a.received == a.dropped == a.dispatched == a.lost == []
    ensures var b := ApplyAll(a, es);
            && multiset(b.received)
               == multiset(b.dispatched) + multiset(b.queue) + multiset(b.dropped) + multiset(b.lost)
            && |b.queue| <= QUEUE_MAX
    decreases |es|
  {
    if es != [] {
      Conserved(a, es[..|es| - 1]);
      ApplyConserves(ApplyAll(a, es[..|es| - 1]), es[|es| - 1]);
    }
  }

  /** Signals in sig_postpone that are not counted yet. */
  function InFlight(s: State): multiset<int> {
    if NotCounted(s.control) then multiset{s.control.arrival} else multiset{}
  }

  /** Signals that are still to be dispatched. */
  function Waiting(s: State): seq<int> {
    var d := DrainOf(s.control);
    if InDrain(d) && |d.done| <= |d.batch| then d.batch[..|d.batch| - |d.done|] else Queued(s)
  }

  lemma {:induction false} ReverseLength(q: seq<int>)
    ensures |Reverse(q)| == |q|
  {
    if q != [] {
      ReverseLength(q[1..]);
    }
  }

  /** A batch is what is left of it and what is done, when those are done last first. */
  lemma BatchSplits(batch: seq<int>, done: seq<int>, n: nat)
    requires n <= |batch| && done == Reverse(batch[n..])
    ensures |done| == |batch| - n
    ensures multiset(batch[..n]) + multiset(done) == multiset(batch)
  {
    ReverseLength(batch[n..]);
    ReverseKeeps(batch[n..]);
    assert batch == batch[..n] + batch[n..];
  }

  /** How many signals of the batch a drain has still to dispatch. */
  function LeftOf(s: State, d: Control): int
    requires d.Handling?
  {
    match d.hpc
    case HUnhook => |d.batch|
    case HLoop | HRunning => s.count
    case HCall => s.count + 1
    case _ => 0
  }

  lemma LeftOfBatch(s: State, d: Control)
    requires d.Handling? && Draining(s, d)
    ensures 0 <= LeftOf(s, d) <= |d.batch| && d.done == Reverse(d.batch[LeftOf(s, d)..])
  {
    match d.hpc
    case HUnhook => assert d.batch[|d.batch|..] == [];
    case HLoop | HRunning => assert Left(s, d, s.count);
    case HCall => assert Left(s, d, s.count + 1);
    case HReset | HUnblock => assert d.batch[0..] == d.batch;
    case _ =>
  }

  /** Within a drain, what is done is the end of the batch, last first. */
  lemma DrainProgress(s: State, d: Control)
    requires d.Handling? && Draining(s, d)
    ensures |d.done| <= |d.batch| && d.done == Reverse(d.batch[|d.batch| - |d.done|..])
    ensures multiset(d.batch[..|d.batch| - |d.done|]) + multiset(d.done) == multiset(d.batch)
  {
    LeftOfBatch(s, d);
    BatchSplits(d.batch, d.done, LeftOf(s, d));
  }

  lemma SumOfDrain(before: seq<int>, done: seq<int>, left: seq<int>, batch: seq<int>)
    requires multiset(left) + multiset(done) == multiset(batch)
    ensures multiset(before) + multiset(batch) == multiset(before + done) + multiset(left)
  {
  }

  /** Within a drain: the batch is partly done and partly waiting. */
  lemma DrainConserves(t: State, d: Control)
    requires d == DrainOf(t.control) && InDrain(d) && Draining(t, d)
    ensures multiset(d.before) + multiset(d.batch) == multiset(t.dispatched) + multiset(Waiting(t))
  {
    DrainProgress(t, d);
    SumOfDrain(d.before, d.done, d.batch[..|d.batch| - |d.done|], d.batch);
  }

  lemma StateConserves(t: State)
    requires Inv(t)
    requires var a := Abstract(t);
             multiset(a.received) == multiset(a.dispatched) + multiset(a.queue) + multiset(a.dropped) + multiset(a.lost)
    ensures multiset(t.arrived)
         == multiset(t.dispatched) + multiset(Waiting(t)) + multiset(t.dropped) + multiset(t.lost) + InFlight(t)
  {
    var d := DrainOf(t.control);
    if InDrain(d) {
      DrainConserves(t, d);
      assert !NotCounted(t.control);
    } else if NotCounted(t.control) {
      assert t.arrived == t.arrived[..|t.arrived| - 1] + [t.control.arrival];
    }
  }

  /** Conservation, in every reachable state: every signal that entered sig_postpone has been
      dispatched, is waiting, was dropped or lost, or is being stored at this moment. */
  lemma Conservation(s: State, ls: seq<Label>)
    requires Initial(s)
    ensures Run(s, ls).Next?
    ensures var t := Run(s, ls).state;
            && multiset(t.arrived)
               == multiset(t.dispatched) + multiset(Waiting(t)) + multiset(t.dropped) + multiset(t.lost) + InFlight(t)
  {
    InitialInv(s);
    var es := RunRefines(s, ls);
    Conserved(Abstract(s), es);
    StateConserves(Run(s, ls).state);
  }

  /** In every reachable state: deferral never happens and the C functions are not interrupted; and unless
      an error has escaped, nothing queued is stranded, and the host program's mask is back after a drain. */
  lemma Guarantees(s: State, ls: seq<Label>)
    requires Initial(s)
    ensures Run(s, ls).Next?
    ensures var t := Run(s, ls).state;
            && t.pending == 0
            && (t.control.Postponing? && t.control.ppc.PTestDefer? ==> t.defer == 0)
            && (t.control.Postponing? || InDrain(DrainOf(t.control)) ==> forall sig :: DeliverSignal(t, sig).Disabled?)
            && (t.control.Main? ==> 0 <= t.count <= QUEUE_MAX && (t.hook ==> t.count > 0))
            && (t.control.Main? && !t.escaped ==> t.hook == (t.count > 0) && t.mask == t.ownMask)
  {
    InitialInv(s);
    var es := RunRefines(s, ls);
  }

  // ---------------------------------------------------------------------------
  // A drain that is left alone
  // ---------------------------------------------------------------------------

  /** The steps of sig_handle's loop over n signals whose handlers just return. */
  function LoopLabels(n: nat): seq<Label> {
    if n == 0 then [Execute, Execute, Execute, Execute] else [Execute, Execute, HandlerReturns] + LoopLabels(n - 1)
  }

  lemma RunStep(s: State, ls: seq<Label>)
    requires ls != [] && Step(s, ls[0]).Next?
    ensures Run(s, ls) == Run(Step(s, ls[0]).state, ls[1..])
  {
  }

  lemma RunSkip(s: State, ls: seq<Label>)
    requires ls != [] && Step(s, ls[0]).Disabled?
    ensures Run(s, ls) == Run(s, ls[1..])
  {
  }

  lemma RunTwo(s: State, s1: State, t: State, rest: seq<Label>)
    requires Step(s, Execute) == Next(s1) && Step(s1, Execute) == Next(t)
    ensures Run(s, [Execute, Execute] + rest) == Run(t, rest)
  {
    var ls := [Execute, Execute] + rest;
    assert ls[1..] == [Execute] + rest;
    assert ls[1..][1..] == rest;
    RunStep(s, ls);
    RunStep(s1, ls[1..]);
  }

  /** A test of the loop, a call, and the return of the handler, if one was called. */
  lemma RunThree(s: State, s1: State, s2: State, t: State, rest: seq<Label>)
    requires Step(s, Execute) == Next(s1) && Step(s1, Execute) == Next(s2)
    requires Step(s2, HandlerReturns) == Next(t) || (Step(s2, HandlerReturns).Disabled? && t == s2)
    ensures Run(s, [Execute, Execute, HandlerReturns] + rest) == Run(t, rest)
  {
    var last := [HandlerReturns] + rest;
    assert [Execute, Execute, HandlerReturns] + rest == [Execute, Execute] + last && last[1..] == rest;
    RunTwo(s, s1, s2, last);
    if Step(s2, HandlerReturns).Next? {
      RunStep(s2, last);
    } else {
      RunSkip(s2, last);
    }
  }

  /** Looking a handler up there raises no error. */
  predicate CanIndex(top: Top) { top.HandlerTable? || top.value.Table? || top.value.Text? }

  /** One turn of the loop, with a handler that just returns, or none. */
  lemma LoopTurn(s: State, rest: seq<Label>) returns (t: State)
    requires Inv(s) && s.control.Handling? && s.control.hpc.HLoop? && s.count != 0 && CanIndex(s.control.top)
    ensures Inv(t) && t.control.Handling? && t.control.hpc.HLoop? && 0 <= t.count == s.count - 1
    ensures CanIndex(t.control.top)
    ensures t.control.before == s.control.before && t.control.batch == s.control.batch
    ensures Run(s, [Execute, Execute, HandlerReturns] + rest) == Run(t, rest)
  {
    HLoopInv(s);
    var s1 := ExecuteHandle(s).state;
    var s2 := CallTurn(s1);
    t := if s2.control.hpc.HRunning? then s2.(control := s2.control.(hpc := HLoop)) else s2;
    if s2.control.hpc.HRunning? {
      HandlerReturnsInv(s2);
    }
    RunThree(s, s1, s2, t, rest);
  }

  lemma CallTurn(s: State) returns (t: State)
    requires Inv(s) && s.control.Handling? && s.control.hpc.HCall? && CanIndex(s.control.top)
    ensures ExecuteHandle(s) == Next(t) && Inv(t) && t.control.Handling? && t.count == s.count
    ensures (t.control.hpc.HRunning? || t.control.hpc.HLoop?) && CanIndex(t.control.top)
    ensures t.control.before == s.control.before && t.control.batch == s.control.batch
  {
    HCallInv(s);
    t := ExecuteHandle(s).state;
  }

  /** The last test of the loop, and what follows it. */
  lemma LoopExit(s: State)
    requires Inv(s) && s.control.Handling? && s.control.hpc.HLoop? && s.count == 0
    ensures var r := Run(s, [Execute, Execute, Execute, Execute]);
            && r.Next? && r.state.control.Main? && r.state.count == 0
            && r.state.dispatched == s.control.before + Reverse(s.control.batch)
  {
    var ls := [Execute, Execute, Execute, Execute];
    HLoopInv(s);
    var s1 := ExecuteHandle(s).state;
    HResetInv(s1);
    var s2 := ExecuteHandle(s1).state;
    HUnblockInv(s2);
    var s3 := ExecuteHandle(s2).state;
    assert ls[1..] == [Execute, Execute, Execute] && ls[1..][1..] == [Execute, Execute]
        && ls[1..][1..][1..] == [Execute];
    RunStep(s, ls);
    RunStep(s1, ls[1..]);
    RunStep(s2, ls[1..][1..]);
    RunStep(s3, ls[1..][1..][1..]);
  }

  lemma {:induction false} LoopDrains(s: State)
    requires Inv(s) && s.control.Handling? && s.control.hpc.HLoop? && s.count >= 0 && CanIndex(s.control.top)
    ensures var r := Run(s, LoopLabels(s.count));
            && r.Next? && r.state.control.Main? && r.state.count == 0
            && r.state.dispatched == s.control.before + Reverse(s.control.batch)
    decreases s.count
  {
    if s.count == 0 {
      LoopExit(s);
    } else {
      var t := LoopTurn(s, LoopLabels(s.count - 1));
      LoopDrains(t);
    }
  }

  /** Once the hook fires, the whole queue is dispatched, last arrival first, and is empty. */
  lemma HookDrains(s: State)
    requires Inv(s) && s.control.Main? && s.hook
    ensures var r := Run(s, [FireHook, Execute, Execute] + LoopLabels(s.count));
            && r.Next? && r.state.control.Main? && r.state.count == 0
            && r.state.dispatched == s.dispatched + Reverse(Queued(s))
  {
    var rest := LoopLabels(s.count);
    FireInv(s);
    var s1 := Step(s, FireHook).state;
    HBlockInv(s1);
    var s2 := ExecuteHandle(s1).state;
    HUnhookInv(s2);
    var s3 := ExecuteHandle(s2).state;
    assert [FireHook, Execute, Execute] + rest == [FireHook] + ([Execute, Execute] + rest);
    RunFirst(s, FireHook, s1, [Execute, Execute] + rest);
    RunTwo(s1, s2, s3, rest);
    LoopDrains(s3);
  }

  // ---------------------------------------------------------------------------
  // Which function a signal goes to
  // ---------------------------------------------------------------------------

  /** The last function installed for a signal. */
  function Last(installs: seq<(int, Fn)>, sig: int): (r: seq<Fn>)
  {
    if installs == [] then []
    else if installs[|installs| - 1].0 == sig then [installs[|installs| - 1].1]
    else Last(installs[..|installs| - 1], sig)
  }

  /** signal() is called with a number that is its own key, when there is a function to register. */
  predicate PlainLabel(l: Label) { l.CallSignal? && l.request.ToLua? ==> l.arg.key == IntKey(l.arg.sig) }

  ghost predicate AllPlain(ls: seq<Label>) { forall i :: 0 <= i < |ls| ==> PlainLabel(ls[i]) }

  predicate PlainFrames(c: Control) {
    match c
    case Main => true
    case Handling(_, _, _, _, _, _, below) => PlainFrames(below)
    case Postponing(_, _, _, below) => PlainFrames(below)
    case Signalling(_, arg, request, _, _, below) =>
      (request.ToLua? ==> arg.key == IntKey(arg.sig)) && PlainFrames(below)
  }

  /** The registry entries still to be written: at most that of a signal() which is between its
      sigaction() and its table write. */
  function Owed(c: Control): map<LuaKey, Fn> {
    match c
    case Main => map[]
    case Handling(_, _, _, _, _, _, below) => Owed(below)
    case Postponing(_, _, _, below) => Owed(below)
    case Signalling(pc, arg, request, _, _, below) =>
      if pc.GRegister? && request.ToLua? then Owed(below)[arg.key := request.fn] else Owed(below)
  }

  /** The registry once signal() has returned. */
  function Handlers(s: State): map<LuaKey, Fn> { s.registry + Owed(s.control) }

  /** Every signal that can arrive, or is queued, has the function last installed for it. */
  ghost predicate HandlersKnown(actions: map<int, Action>, queue: seq<int>, handlers: map<LuaKey, Fn>,
                                installs: seq<(int, Fn)>) {
    && (forall k :: k in actions && actions[k].handler.Postpone? ==> IntKey(k) in handlers)
    && (forall k :: k in queue ==> IntKey(k) in handlers)
    && (forall k :: IntKey(k) in handlers ==> Last(installs, k) == [handlers[IntKey(k)]])
  }

  ghost predicate BatchKnown(c: Control, registry: map<LuaKey, Fn>) {
    c.Handling? && !c.hpc.HBlock? && !c.hpc.HReturn? ==>
      forall i :: 0 <= i < |c.batch| ==> IntKey(c.batch[i]) in registry
  }

  ghost predicate Known(s: State) {
    && PlainFrames(s.control)
    && HandlersKnown(s.actions, Queued(s), Handlers(s), s.installs)
    && (s.control.Postponing? ==> IntKey(s.control.arrival) in Handlers(s))
    && BatchKnown(DrainOf(s.control), s.registry)
  }

  lemma InitialKnown(s: State)
    requires Initial(s)
    ensures Known(s)
  {
  }

  /** A step that leaves the handlers and the queue alone. */
  lemma SameKnown(s: State, t: State)
    requires Known(s) && PlainFrames(t.control)
    requires t.actions == s.actions && Queued(t) == Queued(s) && Handlers(t) == Handlers(s) && t.installs == s.installs
    requires t.control.Postponing? ==> IntKey(t.control.arrival) in Handlers(s)
    requires BatchKnown(DrainOf(t.control), t.registry)
    ensures Known(t)
  {
  }

  lemma PostponeKnown(s: State)
    requires Inv(s) && Known(s) && s.control.Postponing? && !s.control.ppc.PCount?
    ensures ExecutePostpone(s).Next? && Known(ExecutePostpone(s).state)
  {
    var t := PostponeSame(s);
    SameKnown(s, t);
  }

  lemma PostponeSame(s: State) returns (t: State)
    requires Inv(s) && PlainFrames(s.control) && s.control.Postponing? && !s.control.ppc.PCount?
    ensures ExecutePostpone(s) == Next(t)
    ensures PlainFrames(t.control) && t.missed == s.missed && t.registry == s.registry
    ensures t.actions == s.actions && Queued(t) == Queued(s) && Handlers(t) == Handlers(s) && t.installs == s.installs
    ensures t.control.Postponing? ==> t.control.arrival == s.control.arrival
    ensures BatchKnown(DrainOf(t.control), t.registry)
  {
    PostponeFrame(s);
    BelowKnown(s);
    PostponeQueue(s);
    t := ExecutePostpone(s).state;
    assert Owed(s.control) == Owed(s.control.below)
        && (t.control.Postponing? ==> Owed(t.control) == Owed(s.control.below));
  }

  lemma PostponeQueue(s: State)
    requires Inv(s) && s.control.Postponing? && !s.control.ppc.PCount?
    ensures ExecutePostpone(s).Next? && Queued(ExecutePostpone(s).state) == Queued(s)
  {
  }

  /** What a delivery interrupts has no batch. */
  lemma BelowKnown(s: State)
    requires Inv(s) && s.control.Postponing?
    ensures !s.control.below.Postponing? && BatchKnown(DrainOf(s.control.below), s.registry)
  {
  }

  lemma CountKnown(s: State)
    requires Inv(s) && Known(s) && s.control.Postponing? && s.control.ppc.PCount?
    ensures ExecutePostpone(s).Next? && Known(ExecutePostpone(s).state)
  {
    assert s.signals[..s.count + 1] == s.signals[..s.count] + [s.signals[s.count]];
  }

  lemma BlockKnown(s: State)
    requires Inv(s) && Known(s) && s.control.Handling? && s.control.hpc.HBlock?
    ensures ExecuteHandle(s).Next? && Known(ExecuteHandle(s).state)
  {
    assert Owed(s.control) == Owed(s.control.below) == map[];
    assert Handlers(s) == s.registry;
    forall i | 0 <= i < s.count
      ensures IntKey(Queued(s)[i]) in s.registry
    {
      assert Queued(s)[i] in Queued(s);
    }
  }

  /** The signal about to be dispatched has a function, the one last installed for it. */
  lemma CallKnown(s: State)
    requires Inv(s) && Known(s) && s.control.Handling? && s.control.hpc.HCall?
    ensures 0 <= s.count < |s.signals| && IntKey(s.signals[s.count]) in s.registry
    ensures Last(s.installs, s.signals[s.count]) == [s.registry[IntKey(s.signals[s.count])]]
  {
    var sig := s.signals[s.count];
    assert s.control.batch[..s.count + 1][s.count] == s.signals[..s.count + 1][s.count];
    assert Owed(s.control) == Owed(s.control.below) == map[];
    assert IntKey(sig) in Handlers(s) && Handlers(s)[IntKey(sig)] == s.registry[IntKey(sig)];
  }

  lemma HandleKnown(s: State)
    requires Inv(s) && Known(s) && s.control.Handling? && !s.control.hpc.HBlock? && ExecuteHandle(s).Next?
    ensures Known(ExecuteHandle(s).state)
  {
    if s.control.hpc.HCall? {
      CalledKnown(s);
    } else {
      HandledKnown(s);
    }
  }

  lemma HandledKnown(s: State)
    requires Inv(s) && Known(s) && s.control.Handling? && !s.control.hpc.HBlock? && !s.control.hpc.HCall?
    requires ExecuteHandle(s).Next?
    ensures Known(ExecuteHandle(s).state)
  {
    var t := ExecuteHandle(s).state;
    if s.control.hpc.HUnhook? || s.control.hpc.HLoop? {
      EnteredKnown(s);
    } else {
      LeftKnown(s);
    }
  }

  lemma EnteredKnown(s: State)
    requires Inv(s) && Known(s) && s.control.Handling? && (s.control.hpc.HUnhook? || s.control.hpc.HLoop?)
    ensures Known(ExecuteHandle(s).state)
  {
    var t := ExecuteHandle(s).state;
    assert Owed(t.control) == Owed(s.control.below) == Owed(s.control);
    FewerKnown(s.actions, Queued(s), Queued(t), Handlers(s), s.installs);
  }

  lemma LeftKnown(s: State)
    requires Inv(s) && Known(s) && s.control.Handling?
    requires s.control.hpc.HReset? || s.control.hpc.HUnblock? || s.control.hpc.HReturn?
    ensures Known(ExecuteHandle(s).state)
  {
    var t := ExecuteHandle(s).state;
    assert Owed(s.control) == Owed(s.control.below)
        && (t.control.Handling? ==> Owed(t.control) == Owed(s.control.below));
    FewerKnown(s.actions, Queued(s), Queued(t), Handlers(s), s.installs);
  }

  lemma CalledKnown(s: State)
    requires Inv(s) && Known(s) && s.control.Handling? && s.control.hpc.HCall?
    ensures Known(ExecuteHandle(s).state)
  {
    CallKnown(s);
    CalledFrame(s);
    var t := ExecuteHandle(s).state;
    assert Owed(s.control) == Owed(s.control.below)
        && (t.control.Handling? ==> Owed(t.control) == Owed(s.control.below));
    SameKnown(s, t);
  }

  /** What the call of a handler leaves alone. */
  lemma CalledFrame(s: State)
    requires s.control.Handling? && s.control.hpc.HCall? && ExecuteHandle(s).Next?
    ensures var t := ExecuteHandle(s).state;
            && t.actions == s.actions && t.registry == s.registry && t.installs == s.installs
            && t.signals == s.signals && t.count == s.count
            && (t.control == s.control.below ||
                (t.control.Handling? && t.control.below == s.control.below && t.control.batch == s.control.batch))
  {
  }

  lemma FewerKnown(actions: map<int, Action>, queue: seq<int>, queue': seq<int>, handlers: map<LuaKey, Fn>,
                   installs: seq<(int, Fn)>)
    requires HandlersKnown(actions, queue, handlers, installs) && queue' <= queue
    ensures HandlersKnown(actions, queue', handlers, installs)
  {
  }

  lemma LastAfter(installs: seq<(int, Fn)>, sig: int, fn: Fn)
    ensures forall k :: Last(installs + [(sig, fn)], k) == if k == sig then [fn] else Last(installs, k)
  {
    assert (installs + [(sig, fn)])[..|installs|] == installs;
  }

  lemma OtherActionKnown(actions: map<int, Action>, queue: seq<int>, handlers: map<LuaKey, Fn>,
                         installs: seq<(int, Fn)>, sig: int, a: Action)
    requires HandlersKnown(actions, queue, handlers, installs) && !a.handler.Postpone?
    ensures HandlersKnown(actions[sig := a], queue, handlers, installs)
  {
  }

  lemma InstallKnown(actions: map<int, Action>, queue: seq<int>, handlers: map<LuaKey, Fn>, installs: seq<(int, Fn)>,
                     sig: int, a: Action, fn: Fn)
    requires HandlersKnown(actions, queue, handlers, installs)
    ensures HandlersKnown(actions[sig := a], queue, handlers[IntKey(sig) := fn], installs + [(sig, fn)])
  {
    LastAfter(installs, sig, fn);
  }

  lemma ActionKnown(s: State)
    requires Inv(s) && Known(s) && s.control.Signalling? && s.control.gpc.GAction?
    ensures Known(ExecuteSignal(s).state)
  {
    if Refused(s.control.arg.sig) {
      assert Handlers(ExecuteSignal(s).state) == Handlers(s);
    } else {
      ActedKnown(s);
    }
  }

  lemma ActedKnown(s: State)
    requires Inv(s) && Known(s) && s.control.Signalling? && s.control.gpc.GAction? && !Refused(s.control.arg.sig)
    ensures Known(ExecuteSignal(s).state)
  {
    var c, t := s.control, ExecuteSignal(s).state;
    if c.request.ToLua? {
      assert Handlers(t) == Handlers(s)[c.arg.key := c.request.fn];
      InstallKnown(s.actions, Queued(s), Handlers(s), s.installs, c.arg.sig, t.actions[c.arg.sig], c.request.fn);
    } else {
      assert Handlers(t) == Handlers(s);
      OtherActionKnown(s.actions, Queued(s), Handlers(s), s.installs, c.arg.sig, t.actions[c.arg.sig]);
    }
  }

  lemma RegisterKnown(s: State)
    requires Inv(s) && Known(s) && s.control.Signalling? && s.control.gpc.GRegister?
    ensures ExecuteSignal(s).Next? && Known(ExecuteSignal(s).state)
  {
    var c, t := s.control, ExecuteSignal(s).state;
    assert Owed(c.below) == map[] by {
      assert c.below.Handling? ==> Owed(c.below) == Owed(c.below.below);
    }
    assert Handlers(t) == Handlers(s);
    BatchStays(c.below, s.registry, t.registry);
    SameKnown(s, t);
  }

  lemma BatchStays(c: Control, registry: map<LuaKey, Fn>, registry': map<LuaKey, Fn>)
    requires BatchKnown(c, registry) && registry.Keys <= registry'.Keys
    ensures BatchKnown(c, registry')
  {
  }

  lemma ResultKnown(s: State)
    requires Inv(s) && Known(s) && s.control.Signalling? && s.control.gpc.GResult?
    ensures Known(ExecuteSignal(s).state)
  {
    assert Owed(s.control) == Owed(s.control.below);
    SameKnown(s, ExecuteSignal(s).state);
  }

  lemma DeliverKnown(s: State, sig: int)
    requires Inv(s) && Known(s) && DeliverSignal(s, sig).Next?
    ensures Known(DeliverSignal(s, sig).state)
  {
    var t := DeliverSignal(s, sig).state;
    DeliverFrame(s, sig);
    if s.actions[sig].handler.Postpone? && s.actions[sig].resethand {
      OtherActionKnown(s.actions, Queued(s), Handlers(s), s.installs, sig, t.actions[sig]);
    }
    assert BatchKnown(DrainOf(t.control), t.registry);
  }

  lemma DeliverFrame(s: State, sig: int)
    requires DeliverSignal(s, sig).Next?
    ensures var t := DeliverSignal(s, sig).state;
            && Handlers(t) == Handlers(s) && Queued(t) == Queued(s) && t.installs == s.installs
            && t.registry == s.registry && t.missed == s.missed
            && if !s.actions[sig].handler.Postpone? then t.control == s.control && t.actions == s.actions
               else t.control == Postponing(PTestDefer, sig, s.mask, s.control) &&
                    t.actions == if s.actions[sig].resethand then s.actions[sig := s.actions[sig].(handler := Default)]
                                 else s.actions
  {
  }

  lemma EventKnown(s: State, l: Label)
    requires Inv(s) && Known(s) && PlainLabel(l) && !l.Execute? && !l.Deliver? && Step(s, l).Next?
    ensures Known(Step(s, l).state)
  {
    var t := Step(s, l).state;
    assert Handlers(t) == Handlers(s) && Queued(t) == Queued(s);
  }

  lemma StepKnown(s: State, l: Label)
    requires Inv(s) && Known(s) && PlainLabel(l) && Step(s, l).Next?
    ensures Known(Step(s, l).state)
  {
    if l.Deliver? {
      DeliverKnown(s, l.sig);
    } else if !l.Execute? {
      EventKnown(s, l);
    } else if s.control.Postponing? {
      if s.control.ppc.PCount? { CountKnown(s); } else { PostponeKnown(s); }
    } else if s.control.Handling? {
      if s.control.hpc.HBlock? { BlockKnown(s); } else { HandleKnown(s); }
    } else if s.control.gpc.GAction? {
      ActionKnown(s);
    } else if s.control.gpc.GRegister? {
      RegisterKnown(s);
    } else {
      ResultKnown(s);
    }
  }

  lemma {:induction false} RunKnown(s: State, ls: seq<Label>)
    requires Inv(s) && Known(s) && AllPlain(ls)
    ensures Run(s, ls).Next? && Inv(Run(s, ls).state) && Known(Run(s, ls).state)
    decreases |ls|
  {
    if ls != [] {
      assert PlainLabel(ls[0]) && AllPlain(ls[1..]);
      StepInv(s, ls[0]);
      match Step(s, ls[0])
      case Disabled => RunKnown(s, ls[1..]);
      case Next(t) =>
        StepKnown(s, ls[0]);
        RunKnown(t, ls[1..]);
    }
  }

  /** A signal() is between its sigaction() and its table write. */
  predicate Registering(c: Control) {
    match c
    case Main => false
    case Handling(_, _, _, _, _, _, below) => Registering(below)
    case Postponing(_, _, _, below) => Registering(below)
    case Signalling(pc, _, request, _, _, below) => (pc.GRegister? && request.ToLua?) || Registering(below)
  }

  lemma {:induction false} NothingOwed(c: Control)
    requires !Registering(c)
    ensures Owed(c) == map[]
  {
    if !c.Main? {
      NothingOwed(c.below);
    }
  }

  /** The table has the function last installed for the signal. */
  predicate HasLast(s: State, sig: int) {
    IntKey(sig) in s.registry && Last(s.installs, sig) == [s.registry[IntKey(sig)]]
  }

  /** Every signal whose action is ours, and every one that has arrived and is still to be dispatched. */
  ghost predicate Expected(s: State, sig: int) {
    || (sig in s.actions && s.actions[sig].handler.Postpone?)
    || sig in Waiting(s)
    || (s.control.Postponing? && sig == s.control.arrival)
  }

  lemma KnownHasLast(s: State, sig: int)
    requires Inv(s) && Known(s) && !Registering(s.control) && Expected(s, sig)
    ensures HasLast(s, sig)
  {
    NothingOwed(s.control);
    assert Handlers(s) == s.registry;
    if sig in Waiting(s) {
      WaitingKnown(s, sig);
    }
  }

  lemma WaitingKnown(s: State, sig: int)
    requires Inv(s) && Known(s) && Handlers(s) == s.registry && sig in Waiting(s)
    ensures IntKey(sig) in s.registry
  {
    var d := DrainOf(s.control);
    if InDrain(d) && |d.done| <= |d.batch| {
      var i :| 0 <= i < |Waiting(s)| && Waiting(s)[i] == sig;
      assert d.batch[i] == sig;
    } else {
      assert sig in Queued(s);
    }
  }

  /** When signal() is called with numbers that are their own keys, whatever errors handlers raise: in every
      reachable state, but within signal() itself, the table has the function last installed for every signal
      that can arrive or waits to be dispatched. */
  lemma TableHasLast(s: State, ls: seq<Label>)
    requires Initial(s) && AllPlain(ls)
    ensures Run(s, ls).Next?
    ensures var t := Run(s, ls).state;
            !Registering(t.control) ==> forall sig :: Expected(t, sig) ==> HasLast(t, sig)
  {
    InitialInv(s);
    InitialKnown(s);
    RunKnown(s, ls);
    var t := Run(s, ls).state;
    if !Registering(t.control) {
      forall sig | Expected(t, sig) ensures HasLast(t, sig) {
        KnownHasLast(t, sig);
      }
    }
  }

  /** In every drain the handler table is still on top of the stack. */
  predicate TableOnTop(c: Control) {
    match c
    case Main => true
    case Handling(_, _, top, _, _, _, below) => top.HandlerTable? && TableOnTop(below)
    case Postponing(_, _, _, below) => TableOnTop(below)
    case Signalling(_, _, _, _, _, below) => TableOnTop(below)
  }

  ghost predicate AllReturn(ls: seq<Label>) { forall i :: 0 <= i < |ls| ==> !ls[i].HandlerRaises? }

  lemma UndisturbedStep(s: State, l: Label)
    requires Inv(s) && Known(s) && TableOnTop(s.control) && !l.HandlerRaises? && Step(s, l).Next?
    ensures TableOnTop(Step(s, l).state.control) && Step(s, l).state.missed == s.missed
  {
    if !l.Execute? {
      UndisturbedEvent(s, l);
    } else if s.control.Postponing? {
      PostponeFrame(s);
    } else if s.control.Handling? {
      UndisturbedHandle(s);
    }
  }

  lemma UndisturbedEvent(s: State, l: Label)
    requires TableOnTop(s.control) && !l.Execute? && !l.HandlerRaises? && Step(s, l).Next?
    ensures TableOnTop(Step(s, l).state.control) && Step(s, l).state.missed == s.missed
  {
  }

  lemma UndisturbedHandle(s: State)
    requires Inv(s) && Known(s) && TableOnTop(s.control) && s.control.Handling? && ExecuteHandle(s).Next?
    ensures TableOnTop(ExecuteHandle(s).state.control) && ExecuteHandle(s).state.missed == s.missed
  {
    if s.control.hpc.HCall? {
      CallKnown(s);
    }
  }

  /** When, besides, handlers return, no drain ever misses a handler. */
  lemma {:induction false} RunUndisturbed(s: State, ls: seq<Label>)
    requires Inv(s) && Known(s) && TableOnTop(s.control) && AllPlain(ls) && AllReturn(ls)
    ensures Run(s, ls).Next? && TableOnTop(Run(s, ls).state.control) && Run(s, ls).state.missed == s.missed
    decreases |ls|
  {
    if ls != [] {
      assert PlainLabel(ls[0]) && AllPlain(ls[1..]) && !ls[0].HandlerRaises? && AllReturn(ls[1..]);
      StepInv(s, ls[0]);
      match Step(s, ls[0])
      case Disabled => RunUndisturbed(s, ls[1..]);
      case Next(t) =>
        StepKnown(s, ls[0]);
        UndisturbedStep(s, ls[0]);
        RunUndisturbed(t, ls[1..]);
    }
  }

  /** Then a signal that is dispatched goes to the function last installed for it. */
  lemma CallsLast(s: State, ls: seq<Label>)
    requires Initial(s) && AllPlain(ls) && AllReturn(ls)
    ensures Run(s, ls).Next?
    ensures var t := Run(s, ls).state;
            && t.missed == []
            && (t.control.Handling? && t.control.hpc.HCall? ==>
                  && 0 <= t.count < |t.signals| && HasLast(t, t.signals[t.count])
                  && FindHandler(t.control.top, t.registry, t.signals[t.count])
                     == Found(t.registry[IntKey(t.signals[t.count])]))
  {
    InitialInv(s);
    InitialKnown(s);
    RunKnown(s, ls);
    RunUndisturbed(s, ls);
    var t := Run(s, ls).state;
    if t.control.Handling? && t.control.hpc.HCall? {
      CallKnown(t);
    }
  }

  lemma {:induction false} LoopPlain(n: nat)
    ensures AllPlain(LoopLabels(n)) && AllReturn(LoopLabels(n))
  {
    if n > 0 {
      LoopPlain(n - 1);
    }
  }

  /** A hook that fires then not only empties the queue: it calls a function for every signal, whatever has
      happened before. */
  lemma HookCalls(s: State)
    requires Inv(s) && Known(s) && s.control.Main? && s.hook
    ensures var r := Run(s, [FireHook, Execute, Execute] + LoopLabels(s.count));
            && r.Next? && r.state.missed == s.missed
            && r.state.dispatched == s.dispatched + Reverse(Queued(s))
  {
    var ls := [FireHook, Execute, Execute] + LoopLabels(s.count);
    HookDrains(s);
    LoopPlain(s.count);
    RunUndisturbed(s, ls);
  }

  // ---------------------------------------------------------------------------
  // From signal() to the handler
  // ---------------------------------------------------------------------------

  function Executes(n: nat): seq<Label> { if n == 0 then [] else [Execute] + Executes(n - 1) }

  /** The function is installed, the signal arrives, the hook fires, and the drain is about to call. */
  function Route(arg: SigArg, fn: Fn, nodefer: bool, resethand: bool): seq<Label> {
    ([CallSignal(arg, ToLua(fn), nodefer, resethand)] + Executes(3)) +
    (([Generate(arg.sig), Deliver(arg.sig)] + Executes(8)) + ([FireHook] + Executes(3)))
  }

  lemma {:induction false} RunAppend(s: State, ls: seq<Label>, ms: seq<Label>)
    requires Run(s, ls).Next?
    ensures Run(s, ls + ms) == Run(Run(s, ls).state, ms)
    decreases |ls|
  {
    if ls == [] {
      assert ls + ms == ms;
    } else {
      assert (ls + ms)[1..] == ls[1..] + ms;
      match Step(s, ls[0])
      case Next(t) => RunAppend(t, ls[1..], ms);
      case Disabled => RunAppend(s, ls[1..], ms);
    }
  }

  lemma RunFirst(s: State, l: Label, t: State, ls: seq<Label>)
    requires Step(s, l) == Next(t)
    ensures Run(s, [l] + ls) == Run(t, ls)
  {
    assert ([l] + ls)[1..] == ls;
  }

  lemma InstallRun(s: State, arg: SigArg, fn: Fn, nodefer: bool, resethand: bool)
    requires s.control.Main? && !Refused(arg.sig)
    ensures Run(s, [CallSignal(arg, ToLua(fn), nodefer, resethand)] + Executes(3))
         == Next(s.(actions := s.actions[arg.sig := Action(Postpone, AllSignals(), nodefer, resethand)],
                    registry := s.registry[arg.key := fn], installs := s.installs + [(arg.sig, fn)]))
  {
    var s1 := s.(control := Signalling(GAction, arg, ToLua(fn), nodefer, resethand, Main));
    var s2 := ExecuteSignal(s1).state;
    var s3 := ExecuteSignal(s2).state;
    var s4 := ExecuteSignal(s3).state;
    RunFirst(s, CallSignal(arg, ToLua(fn), nodefer, resethand), s1, Executes(3));
    RunFirst(s1, Execute, s2, Executes(2));
    RunFirst(s2, Execute, s3, Executes(1));
    RunFirst(s3, Execute, s4, Executes(0));
  }

  lemma EnterRun(s: State)
    requires s.control.Postponing? && s.control.ppc.PTestDefer? && s.defer == 0 && s.count < QUEUE_MAX
    requires 0 <= s.count < |s.signals|
    ensures Run(s, Executes(4)) == Next(s.(control := s.control.(ppc := PCount), defer := 1,
                                           signals := s.signals[s.count := s.control.arrival]))
  {
    var s1 := ExecutePostpone(s).state;
    var s2 := ExecutePostpone(s1).state;
    var s3 := ExecutePostpone(s2).state;
    var s4 := ExecutePostpone(s3).state;
    RunFirst(s, Execute, s1, Executes(3));
    RunFirst(s1, Execute, s2, Executes(2));
    RunFirst(s2, Execute, s3, Executes(1));
    RunFirst(s3, Execute, s4, Executes(0));
  }

  lemma LeaveRun(s: State)
    requires s.control.Postponing? && s.control.ppc.PCount? && s.defer == 1 && s.pending == 0
    ensures Run(s, Executes(4)) == Next(s.(control := s.control.below, mask := s.control.savedMask, defer := 0,
                                           count := s.count + 1, hook := true))
  {
    var s1 := ExecutePostpone(s).state;
    var s2 := ExecutePostpone(s1).state;
    var s3 := ExecutePostpone(s2).state;
    var s4 := ExecutePostpone(s3).state;
    RunFirst(s, Execute, s1, Executes(3));
    RunFirst(s1, Execute, s2, Executes(2));
    RunFirst(s2, Execute, s3, Executes(1));
    RunFirst(s3, Execute, s4, Executes(0));
  }

  lemma ArriveRun(s: State, sig: int) returns (t: State)
    requires Inv(s) && s.control.Main? && s.count < QUEUE_MAX && sig !in s.mask && IsSignal(sig)
    requires sig in s.actions && s.actions[sig].handler.Postpone?
    ensures Run(s, [Generate(sig), Deliver(sig)] + Executes(8)) == Next(t)
    ensures t.control.Main? && t.hook && t.count == s.count + 1 && t.signals == s.signals[s.count := sig]
    ensures t.registry == s.registry && t.installs == s.installs && t.missed == s.missed
  {
    var s2 := DeliverRun(s, sig);
    EnterRun(s2);
    var s3 := Run(s2, Executes(4)).state;
    LeaveRun(s3);
    t := Run(s3, Executes(4)).state;
    assert Executes(8) == Executes(4) + Executes(4);
    RunAppend(s2, Executes(4), Executes(4));
    RunAppend(s, [Generate(sig), Deliver(sig)], Executes(8));
  }

  lemma DeliverRun(s: State, sig: int) returns (t: State)
    requires Inv(s) && s.control.Main? && sig !in s.mask && IsSignal(sig)
    requires sig in s.actions && s.actions[sig].handler.Postpone?
    ensures Run(s, [Generate(sig), Deliver(sig)]) == Next(t)
    ensures t.control == Postponing(PTestDefer, sig, s.mask, Main) && t.defer == 0 && t.pending == 0
    ensures t.count == s.count && t.signals == s.signals && 0 <= t.count <= |t.signals| == QUEUE_MAX
    ensures t.registry == s.registry && t.installs == s.installs && t.missed == s.missed
  {
    var s1 := s.(generated := s.generated + {sig});
    t := DeliverSignal(s1, sig).state;
    assert [Generate(sig), Deliver(sig)] == [Generate(sig)] + ([Deliver(sig)] + []);
    RunFirst(s, Generate(sig), s1, [Deliver(sig)] + []);
    RunFirst(s1, Deliver(sig), t, []);
  }

  lemma FireRun(s: State) returns (t: State)
    requires s.control.Main? && s.hook && s.count > 0
    ensures Run(s, [FireHook] + Executes(3)) == Next(t)
    ensures t.control.Handling? && t.control.hpc.HCall? && t.control.top.HandlerTable? && t.count == s.count - 1
    ensures t.signals == s.signals && t.registry == s.registry && t.installs == s.installs && t.missed == s.missed
  {
    var s1 := s.(control := Handling(HBlock, {}, HandlerTable, [], [], [], Main));
    var s2 := ExecuteHandle(s1).state;
    var s3 := ExecuteHandle(s2).state;
    t := ExecuteHandle(s3).state;
    RunFirst(s, FireHook, s1, Executes(3));
    RunFirst(s1, Execute, s2, Executes(2));
    RunFirst(s2, Execute, s3, Executes(1));
    RunFirst(s3, Execute, t, Executes(0));
  }

  /** The signal reaches the function just installed for it exactly when the first argument of signal()
      was its own key, or that function was there before: from every state in which the main program
      runs and the signal can arrive. */
  lemma ReachesHandlerIff(s: State, arg: SigArg, fn: Fn, nodefer: bool, resethand: bool)
    requires Inv(s) && s.control.Main? && s.count < QUEUE_MAX && arg.sig !in s.mask && !Refused(arg.sig)
    ensures var r := Run(s, Route(arg, fn, nodefer, resethand));
            && r.Next? && r.state.control.Handling? && r.state.control.hpc.HCall?
            && r.state.control.top.HandlerTable?
            && 0 <= r.state.count < |r.state.signals| && r.state.signals[r.state.count] == arg.sig
            && Last(r.state.installs, arg.sig) == [fn] && r.state.missed == s.missed
            && ((IntKey(arg.sig) in r.state.registry && r.state.registry[IntKey(arg.sig)] == fn) <==>
                arg.key == IntKey(arg.sig) || (IntKey(arg.sig) in s.registry && s.registry[IntKey(arg.sig)] == fn))
            && (IntKey(arg.sig) in r.state.registry <==> arg.key == IntKey(arg.sig) || IntKey(arg.sig) in s.registry)
  {
    var install := [CallSignal(arg, ToLua(fn), nodefer, resethand)] + Executes(3);
    var arrive, fire := [Generate(arg.sig), Deliver(arg.sig)] + Executes(8), [FireHook] + Executes(3);
    InstallRun(s, arg, fn, nodefer, resethand);
    var s1 := Run(s, install).state;
    RunAppend(s, install, arrive + fire);
    var s2 := ArriveRun(s1, arg.sig);
    RunAppend(s1, arrive, fire);
    var t := FireRun(s2);
    LastAfter(s.installs, arg.sig, fn);
  }

  /** For example signal("15", f), when nothing has been installed yet: the string is accepted as 15, but
      the function is registered under the string, and the signal misses it. */
  lemma NumericStringMisses(s: State, text: nat, fn: Fn)
    requires Initial(s) && 15 !in s.mask
    ensures var r := Run(s, Route(SigArg(OtherKey(text), 15), fn, false, false) + [Execute]);
            r.Next? && r.state.missed == [15]
  {
    InitialInv(s);
    ReachesHandlerIff(s, SigArg(OtherKey(text), 15), fn, false, false);
    var route := Route(SigArg(OtherKey(text), 15), fn, false, false);
    RunAppend(s, route, [Execute]);
  }

  // ---------------------------------------------------------------------------
  // Errors that escape from the hook
  // ---------------------------------------------------------------------------

  /** Every signal is blocked, nothing of ours runs but signal(), and there is no hook. */
  predicate Deaf(s: State) {
    AllSignals() <= s.mask && !s.hook && (s.control.Main? || (s.control.Signalling? && s.control.below.Main?))
  }

  /** When the lookup raises an error it leaves the hook: the signal is lost, those before it stay in the
      queue, and everything stays blocked. */
  lemma EscapeIsDeaf(s: State)
    requires Inv(s) && s.control.Handling? && s.control.hpc.HCall?
    requires FindHandler(s.control.top, s.registry, s.signals[s.count]).Raises?
    ensures var t := ExecuteHandle(s).state;
            && Inv(t) && Deaf(t) && t.control.Main? && t.escaped && t.lost == s.lost + [s.signals[s.count]]
            && Queued(t) == s.control.batch[..s.count] && t.dispatched == s.dispatched
  {
    HCallInv(s);
    TakesNext(s.control.batch, s.signals, s.control.done, s.count);
  }

  lemma DeafStep(s: State, l: Label)
    requires Inv(s) && Deaf(s) && !l.SetMask? && Step(s, l).Next?
    ensures var t := Step(s, l).state;
            && Deaf(t) && t.signals == s.signals && t.count == s.count
            && t.arrived == s.arrived && t.dispatched == s.dispatched
  {
  }

  /** After that no signal arrives and none is dispatched, whatever is generated and whatever Lua code runs,
      until the host program sets the mask itself. */
  lemma {:induction false} DeafStays(s: State, ls: seq<Label>)
    requires Inv(s) && Deaf(s) && forall l :: l in ls ==> !l.SetMask?
    ensures Run(s, ls).Next?
    ensures var t := Run(s, ls).state;
            && Deaf(t) && Queued(t) == Queued(s) && t.arrived == s.arrived && t.dispatched == s.dispatched
    decreases |ls|
  {
    if ls != [] {
      StepInv(s, ls[0]);
      match Step(s, ls[0])
      case Disabled => DeafStays(s, ls[1..]);
      case Next(t) =>
        DeafStep(s, ls[0]);
        DeafStays(t, ls[1..]);
    }
  }

  /** A handler that raises an error while signals are left makes the next lookup fail exactly when the error
      is a value that cannot be indexed. */
  lemma RaisingEscapesIff(s: State, error: Value)
    requires Inv(s) && s.control.Handling? && s.control.hpc.HRunning? && s.count > 0
    ensures var r := Run(s, [HandlerRaises(error), Execute, Execute]);
            r.Next? && (r.state.lost == s.lost + [s.signals[s.count - 1]] <==> error.Unindexable?)
  {
    var s2 := RaisedTurn(s, error);
    var s1 := s.(control := s.control.(hpc := HLoop, top := Error(LeftOnStack(error))));
    RunOfThree(s, HandlerRaises(error), s1, s2, ExecuteHandle(s2).state);
    LosesIff(s2);
  }

  lemma RunOfThree(s: State, l: Label, s1: State, s2: State, t: State)
    requires Step(s, l) == Next(s1) && Step(s1, Execute) == Next(s2) && Step(s2, Execute) == Next(t)
    ensures Run(s, [l, Execute, Execute]) == Next(t)
  {
    assert [l, Execute, Execute] == [l] + Executes(2);
    RunFirst(s, l, s1, Executes(2));
    RunFirst(s1, Execute, s2, Executes(1));
    RunFirst(s2, Execute, t, Executes(0));
  }

  lemma RaisedTurn(s: State, error: Value) returns (t: State)
    requires Inv(s) && s.control.Handling? && s.control.hpc.HRunning? && s.count > 0
    ensures ExecuteHandle(s.(control := s.control.(hpc := HLoop, top := Error(LeftOnStack(error))))) == Next(t)
    ensures t.control.Handling? && t.control.hpc.HCall? && ExecuteHandle(t).Next? && t.lost == s.lost
    ensures t.control.top == Error(LeftOnStack(error)) && t.signals == s.signals && t.count == s.count - 1
    ensures 0 <= t.count < |t.signals|
  {
    HandlerRaisesInv(s, error);
    var s1 := s.(control := s.control.(hpc := HLoop, top := Error(LeftOnStack(error))));
    HLoopInv(s1);
    t := ExecuteHandle(s1).state;
    HCallInv(t);
  }

  lemma LosesIff(s: State)
    requires s.control.Handling? && s.control.hpc.HCall? && 0 <= s.count < |s.signals|
    ensures ExecuteHandle(s).state.lost == s.lost + [s.signals[s.count]] <==>
            FindHandler(s.control.top, s.registry, s.signals[s.count]).Raises?
  {
    assert |s.lost + [s.signals[s.count]]| == |s.lost| + 1;
  }

  predicate IndexableFrames(c: Control) {
    match c
    case Main => true
    case Handling(_, _, top, _, _, _, below) => CanIndex(top) && IndexableFrames(below)
    case Postponing(_, _, _, below) => IndexableFrames(below)
    case Signalling(_, _, _, _, _, below) => IndexableFrames(below)
  }

  lemma IndexableStep(s: State, l: Label)
    requires Inv(s) && IndexableFrames(s.control) && Step(s, l).Next?
    requires l.HandlerRaises? ==> !l.error.Unindexable?
    ensures var t := Step(s, l).state; IndexableFrames(t.control) && t.escaped == s.escaped && t.lost == s.lost
  {
    if !l.Execute? {
      IndexableEvent(s, l);
    } else if s.control.Handling? {
      IndexableHandle(s);
    } else if s.control.Postponing? {
      IndexablePostpone(s);
    }
  }

  lemma IndexableEvent(s: State, l: Label)
    requires IndexableFrames(s.control) && !l.Execute? && Step(s, l).Next?
    requires l.HandlerRaises? ==> !l.error.Unindexable?
    ensures var t := Step(s, l).state; IndexableFrames(t.control) && t.escaped == s.escaped && t.lost == s.lost
  {
  }

  lemma IndexableHandle(s: State)
    requires s.control.Handling? && IndexableFrames(s.control) && ExecuteHandle(s).Next?
    ensures var t := ExecuteHandle(s).state; IndexableFrames(t.control) && t.escaped == s.escaped && t.lost == s.lost
  {
    HandleFrame(s);
  }

  lemma HandleFrame(s: State)
    requires s.control.Handling? && CanIndex(s.control.top) && ExecuteHandle(s).Next?
    ensures HandleKeepsIndex(s, ExecuteHandle(s).state)
  {
    if s.control.hpc.HCall? {
      CallFrame(s);
    } else if s.control.hpc.HBlock? || s.control.hpc.HUnhook? || s.control.hpc.HLoop? {
      EnterFrame(s);
    } else {
      LeaveFrame(s);
    }
  }

  predicate HandleKeepsIndex(s: State, t: State)
    requires s.control.Handling?
  {
    && t.escaped == s.escaped && t.lost == s.lost
    && (t.control == s.control.below ||
        (t.control.Handling? && t.control.below == s.control.below && CanIndex(t.control.top)))
  }

  lemma CallFrame(s: State)
    requires s.control.Handling? && CanIndex(s.control.top) && s.control.hpc.HCall? && ExecuteHandle(s).Next?
    ensures HandleKeepsIndex(s, ExecuteHandle(s).state)
  {
  }

  lemma EnterFrame(s: State)
    requires s.control.Handling? && CanIndex(s.control.top)
    requires s.control.hpc.HBlock? || s.control.hpc.HUnhook? || s.control.hpc.HLoop?
    ensures HandleKeepsIndex(s, ExecuteHandle(s).state)
  {
  }

  lemma LeaveFrame(s: State)
    requires s.control.Handling? && CanIndex(s.control.top)
    requires s.control.hpc.HReset? || s.control.hpc.HUnblock? || s.control.hpc.HReturn?
    ensures HandleKeepsIndex(s, ExecuteHandle(s).state)
  {
  }

  lemma IndexablePostpone(s: State)
    requires s.control.Postponing? && IndexableFrames(s.control) && ExecutePostpone(s).Next?
    ensures var t := ExecutePostpone(s).state;
            IndexableFrames(t.control) && t.escaped == s.escaped && t.lost == s.lost
  {
    PostponeFrame(s);
  }

  /** As long as errors can be indexed, which messages and numbers can, none escapes and nothing is lost. */
  lemma {:induction false} NoneEscapes(s: State, ls: seq<Label>)
    requires Inv(s) && IndexableFrames(s.control)
    requires forall l :: l in ls ==> l.HandlerRaises? ==> !l.error.Unindexable?
    ensures Run(s, ls).Next? && Run(s, ls).state.escaped == s.escaped && Run(s, ls).state.lost == s.lost
    decreases |ls|
  {
    if ls != [] {
      StepInv(s, ls[0]);
      match Step(s, ls[0])
      case Disabled => NoneEscapes(s, ls[1..]);
      case Next(t) =>
        assert ls[0] in ls;
        IndexableStep(s, ls[0]);
        NoneEscapes(t, ls[1..]);
    }
  }
}
