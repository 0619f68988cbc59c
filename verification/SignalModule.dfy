/** The static variables of ext/posix/signal.c and the C functions that update them, each in one
    piece; that the first two do run in one piece is the subject of SignalMachine. Here handlers may
    raise errors, and signal() returns its result. */
module SignalModule {
  import opened Options
  import opened SignalMachine

  /** How a handler ends. */
  datatype HandlerEnd = Returned | Raised(error: Value)

  /** How the call of handler `fn` for `sig` ends when n signals, this one included, were left. */
  type Ends = (int, Fn, nat) -> HandlerEnd

  // ---------------------------------------------------------------------------
  // A drain with handlers that may raise
  // ---------------------------------------------------------------------------

  /** The handler calls, the signals without one, and what the counter is left at when an error escapes from
      the hook. */
  datatype Drained = Drained(calls: seq<(int, Fn)>, missed: seq<int>, escaped: bool, left: nat)

  /** What is on the stack after a handler that was found there. */
  function AfterEnd(top: Value, end: HandlerEnd): Value { if end.Raised? then LeftOnStack(end.error) else top }

  function Misses(sig: int, d: Drained): Drained { d.(missed := [sig] + d.missed) }

  /** The value on top of the Lua stack is looked up instead of the handler table: an error value
      that a handler leaves there stays for the rest of the drain. */
  function DrainFrom(top: Value, rest: seq<int>, ends: Ends): Drained
    decreases |rest|
  {
    if rest == [] then Drained([], [], false, 0)
    else match top
      case Unindexable | Number => Drained([], [], true, |rest| - 1)
      case Text => Misses(rest[0], DrainFrom(Text, rest[1..], ends))
      case Table(m) =>
        if IntKey(rest[0]) in m then
          var fn := m[IntKey(rest[0])];
          var end := ends(rest[0], fn, |rest|);
          var d := DrainFrom(AfterEnd(top, end), rest[1..], ends);
          d.(calls := [(rest[0], fn)] + d.calls)
        else
          Misses(rest[0], DrainFrom(Text, rest[1..], ends))
  }

  predicate AllKnown(m: map<LuaKey, Fn>, rest: seq<int>) {
    forall i :: 0 <= i < |rest| ==> IntKey(rest[i]) in m
  }

  /** Every signal goes to its handler. */
  function AllCalls(m: map<LuaKey, Fn>, rest: seq<int>): seq<(int, Fn)>
    requires AllKnown(m, rest)
  {
    if rest == [] then [] else [(rest[0], m[IntKey(rest[0])])] + AllCalls(m, rest[1..])
  }

  /** How the j-th handler called ends. */
  function EndOf(m: map<LuaKey, Fn>, rest: seq<int>, ends: Ends, j: nat): HandlerEnd
    requires AllKnown(m, rest) && j < |rest|
  {
    ends(rest[j], m[IntKey(rest[j])], |rest| - j)
  }

  /** Every handler but that of the last signal to be dispatched returns. */
  ghost predicate OnlyLastMayRaise(m: map<LuaKey, Fn>, rest: seq<int>, ends: Ends)
    requires AllKnown(m, rest)
  {
    forall j: nat :: j < |rest| - 1 ==> EndOf(m, rest, ends, j).Returned?
  }

  /** The first handler to raise is the j-th, others are left, and what its error leaves on the stack
      cannot be indexed. */
  ghost predicate EscapesAt(m: map<LuaKey, Fn>, rest: seq<int>, ends: Ends, j: nat)
    requires AllKnown(m, rest)
  {
    && j < |rest| - 1 && EndOf(m, rest, ends, j) == Raised(Unindexable)
    && forall i: nat :: i < j ==> EndOf(m, rest, ends, i).Returned?
  }

  /** No field of the value is a function for one of these signals. */
  predicate HasNone(top: Value, rest: seq<int>) {
    top.Table? ==> forall i :: 0 <= i < |rest| ==> IntKey(rest[i]) !in top.entries
  }

  /** An error that is a table has no functions under the numbers of the signals still queued: it is not
      taken for the table of handlers. */
  ghost predicate HarmlessTables(m: map<LuaKey, Fn>, rest: seq<int>, ends: Ends)
    requires AllKnown(m, rest)
  {
    forall j: nat :: j < |rest| ==> HarmlessAt(m, rest, ends, j)
  }

  predicate HarmlessAt(m: map<LuaKey, Fn>, rest: seq<int>, ends: Ends, j: nat)
    requires AllKnown(m, rest) && j < |rest|
  {
    EndOf(m, rest, ends, j).Raised? ==> HasNone(EndOf(m, rest, ends, j).error, rest[j + 1..])
  }

  /** After such an error value on the stack, nothing more is called. */
  lemma {:induction false} NothingAfterError(top: Value, rest: seq<int>, ends: Ends)
    requires HasNone(top, rest)
    ensures DrainFrom(top, rest, ends).calls == []
    ensures DrainFrom(top, rest, ends).escaped <==> (top.Unindexable? || top.Number?) && rest != []
    decreases |rest|
  {
    if rest != [] && (top.Text? || top.Table?) {
      NothingAfterError(Text, rest[1..], ends);
    }
  }

  lemma {:induction false} AllCallsLength(m: map<LuaKey, Fn>, rest: seq<int>)
    requires AllKnown(m, rest)
    ensures |AllCalls(m, rest)| == |rest|
  {
    if rest != [] {
      AllCallsLength(m, rest[1..]);
    }
  }

  lemma EndOfTail(m: map<LuaKey, Fn>, rest: seq<int>, ends: Ends)
    requires AllKnown(m, rest) && rest != []
    ensures forall j: nat {:trigger EndOf(m, rest[1..], ends, j)} {:trigger EndOf(m, rest, ends, j + 1)} ::
              j < |rest| - 1 ==> EndOf(m, rest[1..], ends, j) == EndOf(m, rest, ends, j + 1)
  {
  }

  lemma HarmlessTail(m: map<LuaKey, Fn>, rest: seq<int>, ends: Ends)
    requires AllKnown(m, rest) && rest != [] && HarmlessTables(m, rest, ends)
    ensures HarmlessTables(m, rest[1..], ends)
  {
    EndOfTail(m, rest, ends);
    forall j: nat | j < |rest| - 1 ensures HarmlessAt(m, rest[1..], ends, j) {
      assert HarmlessAt(m, rest, ends, j + 1) && rest[1..][j + 1..] == rest[j + 2..];
    }
  }

  /** A drain reaches every handler exactly when none but the last raises. */
  lemma {:induction false} DrainCompleteIff(m: map<LuaKey, Fn>, rest: seq<int>, ends: Ends)
    requires AllKnown(m, rest) && HarmlessTables(m, rest, ends)
    ensures var d := DrainFrom(Table(m), rest, ends);
            !d.escaped && d.calls == AllCalls(m, rest) <==> OnlyLastMayRaise(m, rest, ends)
    decreases |rest|
  {
    if rest != [] {
      var end := EndOf(m, rest, ends, 0);
      if end.Raised? {
        assert HarmlessAt(m, rest, ends, 0);
        NothingAfterError(LeftOnStack(end.error), rest[1..], ends);
        AllCallsLength(m, rest[1..]);
      } else {
        EndOfTail(m, rest, ends);
        HarmlessTail(m, rest, ends);
        DrainCompleteIff(m, rest[1..], ends);
        assert DrainFrom(Table(m), rest, ends).calls[1..] == DrainFrom(Table(m), rest[1..], ends).calls;
        assert AllCalls(m, rest)[1..] == AllCalls(m, rest[1..]);
        assert OnlyLastMayRaise(m, rest[1..], ends) <==> OnlyLastMayRaise(m, rest, ends) by {
          forall j: nat | j < |rest| - 1 && OnlyLastMayRaise(m, rest[1..], ends)
            ensures EndOf(m, rest, ends, j).Returned?
          {
            assert j > 0 ==> EndOf(m, rest, ends, j) == EndOf(m, rest[1..], ends, j - 1);
          }
        }
      }
    }
  }

  /** What is looked up for the i-th signal, when the calls before it went to the right functions. */
  function TopAt(top: Value, m: map<LuaKey, Fn>, rest: seq<int>, ends: Ends, i: nat): Value
    requires AllKnown(m, rest) && i <= |rest|
  {
    if i == 0 then top
    else match EndOf(m, rest, ends, i - 1)
      case Raised(error) => LeftOnStack(error)
      case Returned => TopAt(top, m, rest, ends, i - 1)
  }

  predicate FindsAt(top: Value, m: map<LuaKey, Fn>, rest: seq<int>, ends: Ends, i: nat)
    requires AllKnown(m, rest) && i < |rest|
  {
    var t := TopAt(top, m, rest, ends, i);
    t.Table? && IntKey(rest[i]) in t.entries && t.entries[IntKey(rest[i])] == m[IntKey(rest[i])]
  }

  lemma {:induction false} TopAtTail(top: Value, m: map<LuaKey, Fn>, rest: seq<int>, ends: Ends, i: nat)
    requires AllKnown(m, rest) && i < |rest|
    ensures TopAt(TopAt(top, m, rest, ends, 1), m, rest[1..], ends, i) == TopAt(top, m, rest, ends, i + 1)
  {
    if i > 0 {
      TopAtTail(top, m, rest, ends, i - 1);
    }
  }

  /** Whatever is raised, tables included: a drain reaches every handler exactly when every signal finds
      its own function in what the last error before it, if any, has left on the stack. */
  lemma {:induction false} DrainFindsIff(top: Value, m: map<LuaKey, Fn>, rest: seq<int>, ends: Ends)
    requires AllKnown(m, rest)
    ensures var d := DrainFrom(top, rest, ends);
            !d.escaped && d.calls == AllCalls(m, rest)
            <==> forall i: nat :: i < |rest| ==> FindsAt(top, m, rest, ends, i)
    decreases |rest|
  {
    if rest != [] {
      if !FindsAt(top, m, rest, ends, 0) {
        var d := DrainFrom(top, rest, ends);
        AllCallsLength(m, rest);
        NothingAfterError(Text, rest[1..], ends);
        assert AllCalls(m, rest)[0] == (rest[0], m[IntKey(rest[0])]);
        if top.Table? && IntKey(rest[0]) in top.entries {
          assert d.calls[0] == (rest[0], top.entries[IntKey(rest[0])]);
        } else {
          assert d.escaped || d.calls == [];
        }
      } else {
        var next := TopAt(top, m, rest, ends, 1);
        DrainFindsIff(next, m, rest[1..], ends);
        assert DrainFrom(top, rest, ends).calls[1..] == DrainFrom(next, rest[1..], ends).calls;
        assert AllCalls(m, rest)[1..] == AllCalls(m, rest[1..]);
        forall i: nat | i < |rest| - 1
          ensures FindsAt(next, m, rest[1..], ends, i) <==> FindsAt(top, m, rest, ends, i + 1)
        {
          TopAtTail(top, m, rest, ends, i);
        }
        assert (forall i: nat :: i < |rest| ==> FindsAt(top, m, rest, ends, i)) <==>
               (forall i: nat :: i < |rest| - 1 ==> FindsAt(next, m, rest[1..], ends, i)) by {
          FindsTail(top, next, m, rest, ends);
        }
      }
    }
  }

  lemma FindsTail(top: Value, next: Value, m: map<LuaKey, Fn>, rest: seq<int>, ends: Ends)
    requires AllKnown(m, rest) && rest != [] && FindsAt(top, m, rest, ends, 0)
    requires forall i: nat :: i < |rest| - 1 ==>
               (FindsAt(next, m, rest[1..], ends, i) <==> FindsAt(top, m, rest, ends, i + 1))
    ensures (forall i: nat :: i < |rest| ==> FindsAt(top, m, rest, ends, i)) <==>
            (forall i: nat :: i < |rest| - 1 ==> FindsAt(next, m, rest[1..], ends, i))
  {
    if forall i: nat :: i < |rest| - 1 ==> FindsAt(next, m, rest[1..], ends, i) {
      forall i: nat | i < |rest| ensures FindsAt(top, m, rest, ends, i) {
        assert i > 0 ==> FindsAt(next, m, rest[1..], ends, i - 1);
      }
    }
  }

  /** Handlers are called for the first signals of a drain, without gaps, and whatever they raise: an error
      escapes from the hook, with everything blocked, exactly when the last one called raises a value that
      cannot be indexed and signals are left; the next of these is then lost. */
  lemma {:induction false} DrainEscapesIff(m: map<LuaKey, Fn>, rest: seq<int>, ends: Ends)
    ensures var d := DrainFrom(Table(m), rest, ends);
            && |d.calls| <= |rest| && (forall i :: 0 <= i < |d.calls| ==> d.calls[i].0 == rest[i])
            && (d.escaped <==> 0 < |d.calls| < |rest| && LastEnd(d.calls, |rest|, ends) == Raised(Unindexable))
            && (d.escaped ==> d.left == |rest| - |d.calls| - 1 && d.missed == [])
            && (!d.escaped ==> d.missed == rest[|d.calls|..])
    decreases |rest|
  {
    if rest != [] && IntKey(rest[0]) in m {
      var fn := m[IntKey(rest[0])];
      var end := ends(rest[0], fn, |rest|);
      var next := AfterEnd(Table(m), end);
      var d, e := DrainFrom(Table(m), rest, ends), DrainFrom(next, rest[1..], ends);
      assert d == e.(calls := [(rest[0], fn)] + e.calls);
      if next.Table? {
        DrainEscapesIff(next.entries, rest[1..], ends);
        CallsShift((rest[0], fn), e.calls, rest, ends);
      } else {
        NothingAfterError(next, rest[1..], ends);
        MissesRest(next, rest[1..], ends);
        assert d.calls == [(rest[0], fn)];
      }
    } else if rest != [] {
      NothingAfterError(Text, rest[1..], ends);
      MissesRest(Text, rest[1..], ends);
      assert [rest[0]] + rest[1..] == rest;
    }
  }

  /** How the last of the handlers called for n signals ends. */
  function LastEnd(calls: seq<(int, Fn)>, n: nat, ends: Ends): HandlerEnd
    requires 0 < |calls| <= n
  {
    ends(calls[|calls| - 1].0, calls[|calls| - 1].1, n - (|calls| - 1))
  }

  lemma CallsShift(call: (int, Fn), calls: seq<(int, Fn)>, rest: seq<int>, ends: Ends)
    requires 0 < |rest| && |calls| < |rest|
    ensures 0 < |calls| ==> LastEnd([call] + calls, |rest|, ends) == LastEnd(calls, |rest| - 1, ends)
    ensures rest[1..][|calls|..] == rest[|calls| + 1..]
  {
  }

  lemma {:induction false} MissesRest(top: Value, rest: seq<int>, ends: Ends)
    requires !top.Table?
    ensures var d := DrainFrom(top, rest, ends);
            if d.escaped then d.missed == [] && d.left == |rest| - 1 else d.missed == rest
  {
    if rest != [] && top.Text? {
      MissesRest(top, rest[1..], ends);
      assert [rest[0]] + rest[1..] == rest;
    }
  }

  /** The error escapes from the hook, with everything blocked, exactly when the first handler that
      raises leaves a value that cannot be indexed, which a number does not, and signals behind it. */
  lemma {:induction false} FirstErrorEscapesIff(m: map<LuaKey, Fn>, rest: seq<int>, ends: Ends)
    requires AllKnown(m, rest) && HarmlessTables(m, rest, ends)
    ensures DrainFrom(Table(m), rest, ends).escaped <==> exists j: nat :: EscapesAt(m, rest, ends, j)
    decreases |rest|
  {
    if rest != [] {
      var end := EndOf(m, rest, ends, 0);
      if end.Raised? {
        assert HarmlessAt(m, rest, ends, 0);
        NothingAfterError(LeftOnStack(end.error), rest[1..], ends);
        assert end.error.Unindexable? && |rest| > 1 ==> EscapesAt(m, rest, ends, 0);
      } else {
        EndOfTail(m, rest, ends);
        HarmlessTail(m, rest, ends);
        FirstErrorEscapesIff(m, rest[1..], ends);
        forall j: nat | j < |rest|
          ensures EscapesAt(m, rest[1..], ends, j) <==> EscapesAt(m, rest, ends, j + 1)
        {
          forall i: nat | i < j + 1 && EscapesAt(m, rest[1..], ends, j)
            ensures EndOf(m, rest, ends, i).Returned?
          {
            assert i > 0 ==> EndOf(m, rest, ends, i) == EndOf(m, rest[1..], ends, i - 1);
          }
        }
        if j: nat :| EscapesAt(m, rest, ends, j) {
          assert EscapesAt(m, rest[1..], ends, j - 1);
        }
        if j: nat :| EscapesAt(m, rest[1..], ends, j) {
          assert EscapesAt(m, rest, ends, j + 1);
        }
      }
    }
  }

  /** Two signals are queued, 1 before 2, and the handler of 2 raises a message, or a number: 1 is lost. */
  lemma ErrorLosesSignal(ends: Ends)
    requires ends(2, 20, 2) == Raised(Text) || ends(2, 20, 2) == Raised(Number)
    ensures DrainFrom(Table(map[IntKey(1) := 10, IntKey(2) := 20]), Reverse([1, 2]), ends)
        == Drained([(2, 20)], [1], false, 0)
  {
    assert Reverse([1, 2]) == [2, 1] by {
      assert [1, 2][1..] == [2];
    }
    NothingAfterError(Text, [1], ends);
    assert [2, 1][1..] == [1];
  }

  // ---------------------------------------------------------------------------
  // signal()
  // ---------------------------------------------------------------------------

  /** What Lua passes to signal() or gets from it. `Wrapper` is the closure sig_handler_wrap over a
      signal number and a C handler. */
  datatype LuaValue = Nil | Name(name: string) | Function(fn: Fn) | Wrapper(sig: int, id: nat) | Other

  datatype SignalResult = ArgumentError | NoResult | Previous(value: LuaValue)

  /** A wrapper's first upvalue is the signal number, which is not a userdata: what is read is a null
      pointer, and that is SIG_DFL. */
  function CheckHandler(arg: LuaValue): Option<Request> {
    match arg
    case Nil => Some(ToDefault)
    case Name(name) => if name == "SIG_DFL" then Some(ToDefault) else if name == "SIG_IGN" then Some(ToIgnore) else None
    case Function(fn) => Some(ToLua(fn))
    case Wrapper(_, _) => Some(ToDefault)
    case Other => None
  }

  datatype Dispositions = Dispositions(actions: map<int, Action>, registry: map<LuaKey, Fn>)

  ghost predicate Consistent(d: Dispositions) { d.actions.Keys == AllSignals() }

  function Lookup(registry: map<LuaKey, Fn>, key: LuaKey): LuaValue {
    if key in registry then Function(registry[key]) else Nil
  }

  /** The handler of a signal, as signal() would report it; for a signal of ours, what sig_handle calls. */
  function Describe(d: Dispositions, sig: int): LuaValue
    requires sig in d.actions
  {
    match d.actions[sig].handler
    case Default => Name("SIG_DFL")
    case Ignore => Name("SIG_IGN")
    case Postpone => Lookup(d.registry, IntKey(sig))
    case Foreign(id) => Wrapper(sig, id)
  }

  /** The table once signal() has written it, under the first argument as it is. */
  function Written(registry: map<LuaKey, Fn>, key: LuaKey, request: Request): map<LuaKey, Fn> {
    if request.ToLua? then registry[key := request.fn] else registry
  }

  /** The dispositions after a successful signal(). */
  function Installed(d: Dispositions, arg: SigArg, request: Request, nodefer: bool, resethand: bool): Dispositions {
    Dispositions(d.actions[arg.sig := Action(HandlerOf(request), AllSignals(), nodefer, resethand)],
                 Written(d.registry, arg.key, request))
  }

  /** The table is written before it is read. */
  function Reported(d: Dispositions, arg: SigArg, request: Request): LuaValue
    requires arg.sig in d.actions
  {
    if d.actions[arg.sig].handler.Postpone?
    then Lookup(Written(d.registry, arg.key, request), arg.key)
    else Describe(d, arg.sig)
  }

  /** Both keys have the same function, or none. */
  predicate SameEntry(registry: map<LuaKey, Fn>, k: LuaKey, l: LuaKey) {
    (k in registry <==> l in registry) && (k in registry && l in registry ==> registry[k] == registry[l])
  }

  /** signal() returns the previous handler exactly in three cases: that was not a Lua function; or it is
      the function that is now registered; or none is, and the table has under the argument itself what it
      has under the number. */
  lemma ReportsPreviousIff(d: Dispositions, arg: SigArg, request: Request)
    requires Consistent(d) && arg.sig in d.actions
    ensures Reported(d, arg, request) == Describe(d, arg.sig)
            <==> || !d.actions[arg.sig].handler.Postpone?
                 || (request.ToLua? && IntKey(arg.sig) in d.registry && d.registry[IntKey(arg.sig)] == request.fn)
                 || (!request.ToLua? && SameEntry(d.registry, arg.key, IntKey(arg.sig)))
  {
  }

  /** With a number that is its own key: exactly when it does not replace one Lua function by another. */
  lemma PlainReportsIff(d: Dispositions, sig: int, request: Request)
    requires Consistent(d) && sig in d.actions
    ensures Reported(d, SigArg(IntKey(sig), sig), request) == Describe(d, sig)
            <==> !(d.actions[sig].handler.Postpone? && request.ToLua? && Describe(d, sig) != Function(request.fn))
  {
    ReportsPreviousIff(d, SigArg(IntKey(sig), sig), request);
  }

  /** The case in which passing the result of signal() back restores a handler of ours. */
  predicate TakesBack(registry: map<LuaKey, Fn>, arg: SigArg, request: Request) {
    if request.ToLua?
    then arg.key != IntKey(arg.sig) || Lookup(registry, IntKey(arg.sig)) == Function(request.fn)
    else arg.key in registry
  }

  /** Passing the result back restores the handler exactly when that was not a C function of the host
      program and, if it was a Lua function, its entry was not overwritten, or the result was not nil. */
  lemma RestoresIff(d: Dispositions, arg: SigArg, request: Request, nodefer: bool, resethand: bool)
    requires Consistent(d) && arg.sig in d.actions
    ensures var back := CheckHandler(Reported(d, arg, request));
            && back.Some?
            && var e := Installed(Installed(d, arg, request, nodefer, resethand), arg, back.value, nodefer, resethand);
            && Consistent(e)
            && (Describe(e, arg.sig) == Describe(d, arg.sig) <==>
                match d.actions[arg.sig].handler
                case Foreign(_) => false
                case Postpone => TakesBack(d.registry, arg, request)
                case _ => true)
  {
    var h := d.actions[arg.sig].handler;
    var e := Installed(d, arg, request, nodefer, resethand);
    if h.Postpone? {
      if request.ToLua? {
        assert Reported(d, arg, request) == Function(request.fn);
      } else {
        assert Reported(d, arg, request) == Lookup(d.registry, arg.key);
      }
    }
  }

  // ---------------------------------------------------------------------------
  // The module's state
  // ---------------------------------------------------------------------------

  /** The calls made so far and those still to come are those of the whole drain. */
  ghost predicate Continues(whole: Drained, before: seq<(int, Fn)>, calls: seq<(int, Fn)>, rest: Drained) {
    whole.escaped == rest.escaped && whole.left == rest.left && before + whole.calls == calls + rest.calls
  }

  lemma AfterCall(whole: Drained, before: seq<(int, Fn)>, calls: seq<(int, Fn)>, call: (int, Fn), rest: Drained)
    requires Continues(whole, before, calls, rest.(calls := [call] + rest.calls))
    ensures Continues(whole, before, calls + [call], rest)
  {
    assert calls + ([call] + rest.calls) == (calls + [call]) + rest.calls;
  }

  lemma LastOfPrefix(queue: seq<int>, slots: seq<int>, n: nat)
    requires n < |queue| && queue[..n + 1] == slots
    ensures queue[n] == slots[n] && queue[..n] == slots[..n]
  {
    assert queue[..n + 1][n] == queue[n];
    assert queue[..n] == queue[..n + 1][..n];
  }

  /** One turn of the loop of sig_handle: the n-th entry of the queue goes next. */
  lemma TurnOf(top: Value, queue: seq<int>, n: nat, ends: Ends)
    requires n < |queue|
    ensures var d := DrainFrom(top, Reverse(queue[..n + 1]), ends);
            if top.Unindexable? || top.Number? then d == Drained([], [], true, n)
            else if top.Table? && IntKey(queue[n]) in top.entries then
              var fn := top.entries[IntKey(queue[n])];
              var end := ends(queue[n], fn, n + 1);
              var e := DrainFrom(AfterEnd(top, end), Reverse(queue[..n]), ends);
              d == e.(calls := [(queue[n], fn)] + e.calls)
            else d == Misses(queue[n], DrainFrom(Text, Reverse(queue[..n]), ends))
  {
    assert queue[..n + 1] == queue[..n] + [queue[n]];
    ReverseSnoc(queue[..n], queue[n]);
    ReverseLength(queue[..n]);
    assert Reverse(queue[..n + 1])[1..] == Reverse(queue[..n]);
  }

  class Module {
    const signals: array<int>
    var count: int
    var defer: int
    var pending: int
    var hook: bool
    var mask: set<int>
    var dispositions: Dispositions
    /** Blocked signals that raise() has left for the kernel. */
    var generated: set<int>
    /** Handler calls, oldest first. */
    var calls: seq<(int, Fn)>

    constructor (dispositions: Dispositions, mask: set<int>)
      requires Consistent(dispositions)
      ensures Valid() && fresh(signals) && Queue() == [] && !hook && this.mask == mask && calls == []
      ensures this.dispositions == dispositions && generated == {} && defer == 0 && pending == 0
    {
      signals := new int[QUEUE_MAX](i => 0);
      count, defer, pending, hook := 0, 0, 0, false;
      this.mask, this.dispositions := mask, dispositions;
      generated, calls := {}, [];
    }

    ghost predicate Valid()
      reads this
    {
      signals.Length == QUEUE_MAX && 0 <= count <= QUEUE_MAX && Consistent(dispositions)
    }

    ghost function Queue(): seq<int>
      requires Valid()
      reads this, signals
    {
      signals[..count]
    }

    /** A signal that arrives is queued, unless 25 are. A signal handler installed without any mask would be
        entered again by its own raise(): the chain ends because every entry takes a slot, and it ends with the
        queue full of copies of the signal raised again. */
    method SigPostpone(sig: int)
      requires Valid()
      modifies this`count, this`defer, this`pending, this`hook, this`generated, signals
      ensures Valid() && defer == old(defer)
      ensures old(defer) != 0 ==>
        pending == sig && Queue() == old(Queue()) && hook == old(hook) && generated == old(generated)
      ensures old(defer) == 0 ==>
        && pending == old(pending)
        && hook == (old(hook) || old(count) < 25)
        && generated == if old(count) < 25 && pending != 0 && pending in mask then old(generated) + {pending}
                        else old(generated)
      ensures old(count) == 25 ==> Queue() == old(Queue())
      ensures old(defer) == 0 && old(count) < 25 && (pending == 0 || pending in mask) ==>
                Queue() == old(Queue()) + [sig]
      ensures old(defer) == 0 && old(count) < 25 && !(pending == 0 || pending in mask) ==>
                && |Queue()| == 25 && old(Queue()) + [sig] <= Queue()
                && forall i :: old(count) < i < 25 ==> Queue()[i] == pending
      decreases QUEUE_MAX - count
    {
      if defer != 0 {
        pending := sig;
        return;
      }
      if count == QUEUE_MAX {
        return;
      }
      ghost var queue := Queue();
      defer := defer + 1;
      signals[count] := sig;
      count := count + 1;
      hook := true;
      defer := defer - 1;
      assert Queue() == queue + [sig];
      if defer == 0 && pending != 0 {
        if pending in mask {
          generated := generated + {pending};
        } else {
          SigPostpone(pending);
        }
      }
    }

    /** Returns whether an error escaped from the hook. */
    method SigHandle(ends: Ends) returns (escaped: bool)
      requires Valid()
      modifies this`count, this`hook, this`mask, this`calls
      ensures Valid() && !hook
      ensures var d := DrainFrom(Table(dispositions.registry), Reverse(old(Queue())), ends);
              && escaped == d.escaped && calls == old(calls) + d.calls
              && count == (if escaped then d.left else 0)
              && mask == (if escaped then AllSignals() else old(mask))
    {
      ghost var queue, before := Queue(), calls;
      var oldMask := mask;
      mask := AllSignals();
      hook := false;
      var top := Table(dispositions.registry);
      ghost var d := DrainFrom(top, Reverse(queue), ends);
      assert queue[..|queue|] == queue;
      while true
        invariant Valid() && count <= |queue| && queue[..count] == signals[..count] && !hook && mask == AllSignals()
        invariant Continues(d, before, calls, DrainFrom(top, Reverse(queue[..count]), ends))
        decreases count
      {
        count := count - 1;
        if count + 1 == 0 {
          break;
        }
        assert signals[count] == queue[count] && queue[..count] == signals[..count] by {
          LastOfPrefix(queue, signals[..count + 1], count);
        }
        TurnOf(top, queue, count, ends);
        var signalno := signals[count];
        if top.Unindexable? || top.Number? {
          return true;
        }
        if top.Table? && IntKey(signalno) in top.entries {
          var fn := top.entries[IntKey(signalno)];
          var end := ends(signalno, fn, count + 1);
          top := AfterEnd(top, end);
          AfterCall(d, before, calls, (signalno, fn), DrainFrom(top, Reverse(queue[..count]), ends));
          calls := calls + [(signalno, fn)];
        } else {
          top := Text;  // what is not there is nil, and calling it raises a message
        }
      }
      count := 0;
      mask := oldMask;
      escaped := false;
    }

    method Signal(arg: SigArg, handler: LuaValue, nodefer: bool, resethand: bool) returns (result: SignalResult)
      requires Valid()
      modifies this`dispositions, this`generated
      ensures Valid()
      ensures var request := CheckHandler(handler);
              if request.None? then result == ArgumentError && dispositions == old(dispositions)
                  && generated == old(generated)
              else if Refused(arg.sig) then result == NoResult && dispositions == old(dispositions)
                  && generated == old(generated)
              else
                && result == Previous(Reported(old(dispositions), arg, request.value))
                && dispositions == Installed(old(dispositions), arg, request.value, nodefer, resethand)
                && generated == (if request.value.ToIgnore? then old(generated) - {arg.sig} else old(generated))
      ensures result.ArgumentError? <==>
                handler.Other? || (handler.Name? && handler.name != "SIG_DFL" && handler.name != "SIG_IGN")
      ensures result.NoResult? ==> arg.sig < 1 || arg.sig > 64 || arg.sig == 9 || arg.sig == 19
      ensures result.Previous? ==>
                && 1 <= arg.sig <= 64 && arg.sig != 9 && arg.sig != 19 && arg.sig in dispositions.actions
                && var action := dispositions.actions[arg.sig];
                && action.handler == (match handler
                                      case Name(name) => if name == "SIG_IGN" then Ignore else Default
                                      case Function(_) => Postpone
                                      case _ => Default)
                && (handler.Function? ==>
                      arg.key in dispositions.registry && dispositions.registry[arg.key] == handler.fn)
                && (forall k :: k in action.mask <==> 1 <= k <= 64)
    {
      var sig := arg.sig;
      var request := CheckHandler(handler);
      if request.None? {
        return ArgumentError;
      }
      if Refused(sig) {
        return NoResult;
      }
      var actions, registry := dispositions.actions, dispositions.registry;
      var previous := actions[sig].handler;
      actions := actions[sig := Action(HandlerOf(request.value), AllSignals(), nodefer, resethand)];
      if request.value.ToIgnore? {
        generated := generated - {sig};
      }
      if request.value.ToLua? {
        registry := registry[arg.key := request.value.fn];
      }
      dispositions := Dispositions(actions, registry);
      if previous.Postpone? {
        result := Previous(Lookup(registry, arg.key));
      } else if previous.Default? {
        result := Previous(Name("SIG_DFL"));
      } else if previous.Ignore? {
        result := Previous(Name("SIG_IGN"));
      } else {
        result := Previous(Wrapper(sig, previous.id));
      }
    }
  }

  lemma {:induction false} ReverseSnoc(q: seq<int>, x: int)
    ensures Reverse(q + [x]) == [x] + Reverse(q)
  {
    if q != [] {
      assert (q + [x])[1..] == q[1..] + [x];
      ReverseSnoc(q[1..], x);
    }
  }
}
