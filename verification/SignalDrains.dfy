/** A drain of the machine of SignalMachine, statement by statement, is the drain that SignalModule describes
    in one piece: for handlers that end as they may, but do not call signal(). */
module SignalDrains {
  import opened SignalMachine
  import opened SignalModule

  /** What is on top of the stack, as a value. */
  function ValueOf(top: Top, registry: map<LuaKey, Fn>): Value {
    match top
    case HandlerTable => Table(registry)
    case Error(value) => value
  }

  function EndLabel(end: HandlerEnd): Label {
    match end
    case Returned => HandlerReturns
    case Raised(error) => HandlerRaises(error)
  }

  /** The steps of the loop of sig_handle over the first n entries of the queue, and of what follows it. */
  function DrainLabels(top: Value, queue: seq<int>, n: nat, ends: Ends): seq<Label>
    requires n <= |queue|
    decreases n
  {
    if n == 0 then [Execute, Execute, Execute, Execute]
    else if top.Unindexable? || top.Number? then [Execute, Execute]
    else if top.Table? && IntKey(queue[n - 1]) in top.entries then
      var end := ends(queue[n - 1], top.entries[IntKey(queue[n - 1])], n);
      [Execute, Execute] + ([EndLabel(end)] + DrainLabels(AfterEnd(top, end), queue, n - 1, ends))
    else [Execute, Execute] + DrainLabels(Text, queue, n - 1, ends)
  }

  /** The state after a drain: `d` says what it has called and missed, and how it has ended. */
  ghost predicate Drains(s: State, t: State, queue: seq<int>, n: nat, d: Drained)
    requires n <= |queue|
  {
    && t.control.Main? && t.calls == s.calls + d.calls && t.missed == s.missed + d.missed
    && t.escaped == (s.escaped || d.escaped)
    && (if d.escaped then d.left < n && t.count == d.left && t.lost == s.lost + [queue[d.left]]
        else t.count == 0 && t.lost == s.lost)
  }

  ghost predicate Does(s: State, ls: seq<Label>, queue: seq<int>, n: nat, d: Drained) {
    n <= |queue| && Run(s, ls).Next? && Drains(s, Run(s, ls).state, queue, n, d)
  }

  lemma DrainsAfter(s: State, s': State, t: State, queue: seq<int>, n: nat, d: Drained, d': Drained)
    requires 0 < n <= |queue| && Drains(s', t, queue, n - 1, d')
    requires s'.escaped == s.escaped && s'.lost == s.lost
    requires s'.calls + d'.calls == s.calls + d.calls && s'.missed + d'.missed == s.missed + d.missed
    requires d.escaped == d'.escaped && d.left == d'.left
    ensures Drains(s, t, queue, n, d)
  {
  }

  /** A state of the loop, with n entries of the batch left. */
  ghost predicate AtLoop(s: State, queue: seq<int>, n: nat, top: Value) {
    && Inv(s) && s.control.Handling? && s.control.hpc.HLoop? && s.control.batch == queue && s.count == n <= |queue|
    && ValueOf(s.control.top, s.registry) == top
  }

  /** The test of the loop: the next entry is to be looked up. */
  lemma Test(s: State, queue: seq<int>, n: nat, top: Value) returns (t: State)
    requires n > 0 && AtLoop(s, queue, n, top)
    ensures Step(s, Execute) == Next(t) && Inv(t) && t.control.Handling? && t.control.hpc.HCall?
    ensures t.control.batch == queue && t.count == n - 1 < |t.signals| && t.signals[n - 1] == queue[n - 1]
    ensures ValueOf(t.control.top, t.registry) == top && t.registry == s.registry
    ensures t.calls == s.calls && t.missed == s.missed && t.lost == s.lost && t.escaped == s.escaped
  {
    HLoopInv(s);
    t := ExecuteHandle(s).state;
    TakesNext(t.control.batch, t.signals, t.control.done, t.count);
  }

  lemma Calls(s: State, end: HandlerEnd) returns (t: State, u: State)
    requires Inv(s) && s.control.Handling? && s.control.hpc.HCall? && 0 <= s.count < |s.signals|
    requires FindHandler(s.control.top, s.registry, s.signals[s.count]).Found?
    ensures Step(s, Execute) == Next(t) && Step(t, EndLabel(end)) == Next(u)
    ensures Inv(u) && u.control.Handling? && u.control.hpc.HLoop? && u.control.batch == s.control.batch
    ensures u.count == s.count && u.registry == s.registry
    ensures u.control.top == if end.Raised? then Error(LeftOnStack(end.error)) else s.control.top
    ensures u.calls == s.calls + [(s.signals[s.count], FindHandler(s.control.top, s.registry, s.signals[s.count]).fn)]
    ensures u.missed == s.missed && u.lost == s.lost && u.escaped == s.escaped
  {
    HCallInv(s);
    t := ExecuteHandle(s).state;
    if end.Raised? {
      HandlerRaisesInv(t, end.error);
    } else {
      HandlerReturnsInv(t);
    }
    u := Step(t, EndLabel(end)).state;
  }

  lemma Misses(s: State) returns (t: State)
    requires Inv(s) && s.control.Handling? && s.control.hpc.HCall? && 0 <= s.count < |s.signals|
    requires FindHandler(s.control.top, s.registry, s.signals[s.count]).Missing?
    ensures Step(s, Execute) == Next(t)
    ensures Inv(t) && t.control.Handling? && t.control.hpc.HLoop? && t.control.batch == s.control.batch
    ensures t.count == s.count && t.registry == s.registry && t.control.top == Error(Text) && t.calls == s.calls
    ensures t.missed == s.missed + [s.signals[s.count]] && t.lost == s.lost && t.escaped == s.escaped
  {
    HCallInv(s);
    t := ExecuteHandle(s).state;
  }

  lemma Escapes(s: State) returns (t: State)
    requires Inv(s) && s.control.Handling? && s.control.hpc.HCall? && 0 <= s.count < |s.signals|
    requires FindHandler(s.control.top, s.registry, s.signals[s.count]).Raises?
    ensures Step(s, Execute) == Next(t) && t.control.Main? && t.count == s.count && t.escaped
    ensures t.calls == s.calls && t.missed == s.missed && t.lost == s.lost + [s.signals[s.count]]
  {
    EscapeIsDeaf(s);
    t := ExecuteHandle(s).state;
  }

  predicate Lacks(top: Value, sig: int) { top.Text? || (top.Table? && IntKey(sig) !in top.entries) }

  predicate Has(top: Value, sig: int, fn: Fn) {
    top.Table? && IntKey(sig) in top.entries && top.entries[IntKey(sig)] == fn
  }

  /** One turn of the loop, in each of the three cases, before the turns that do `d`. */
  lemma MissTurn(s: State, queue: seq<int>, n: nat, top: Value, rest: seq<Label>, d: Drained) returns (t: State)
    requires n > 0 && AtLoop(s, queue, n, top) && Lacks(top, queue[n - 1])
    ensures AtLoop(t, queue, n - 1, Text)
    ensures Does(t, rest, queue, n - 1, d)
            ==> Does(s, [Execute, Execute] + rest, queue, n, SignalModule.Misses(queue[n - 1], d))
  {
    var s1 := Test(s, queue, n, top);
    t := Misses(s1);
    RunTwo(s, s1, t, rest);
    if Does(t, rest, queue, n - 1, d) {
      assert s.missed + ([queue[n - 1]] + d.missed) == (s.missed + [queue[n - 1]]) + d.missed;
      DrainsAfter(s, t, Run(t, rest).state, queue, n, SignalModule.Misses(queue[n - 1], d), d);
    }
  }

  lemma CallTurn(s: State, queue: seq<int>, n: nat, top: Value, fn: Fn, end: HandlerEnd, rest: seq<Label>, d: Drained)
    returns (t: State)
    requires n > 0 && AtLoop(s, queue, n, top) && Has(top, queue[n - 1], fn)
    ensures AtLoop(t, queue, n - 1, AfterEnd(top, end))
    ensures Does(t, rest, queue, n - 1, d)
            ==> Does(s, [Execute, Execute] + ([EndLabel(end)] + rest), queue, n,
                     d.(calls := [(queue[n - 1], fn)] + d.calls))
  {
    var s1 := Test(s, queue, n, top);
    FindsByValue(s1.control.top, s1.registry, queue[n - 1]);
    var s2;
    s2, t := Calls(s1, end);
    RunTwo(s, s1, s2, [EndLabel(end)] + rest);
    RunFirst(s2, EndLabel(end), t, rest);
    if Does(t, rest, queue, n - 1, d) {
      assert s.calls + ([(queue[n - 1], fn)] + d.calls) == (s.calls + [(queue[n - 1], fn)]) + d.calls;
      DrainsAfter(s, t, Run(t, rest).state, queue, n, d.(calls := [(queue[n - 1], fn)] + d.calls), d);
    }
  }

  lemma EscapeTurn(s: State, queue: seq<int>, n: nat, top: Value)
    requires n > 0 && AtLoop(s, queue, n, top) && (top.Unindexable? || top.Number?)
    ensures var r := Run(s, [Execute, Execute]);
            && r.Next? && r.state.control.Main? && r.state.count == n - 1 && r.state.escaped
            && r.state.calls == s.calls && r.state.missed == s.missed && r.state.lost == s.lost + [queue[n - 1]]
  {
    var s1 := Test(s, queue, n, top);
    var t := Escapes(s1);
    assert [Execute, Execute] + [] == [Execute, Execute];
    RunTwo(s, s1, t, []);
  }

  /** The loop of sig_handle, from any of its turns, calls, misses and loses what the drain function says. */
  lemma {:induction false} LoopIsDrain(s: State, queue: seq<int>, n: nat, top: Value, ends: Ends)
    requires AtLoop(s, queue, n, top)
    ensures Does(s, DrainLabels(top, queue, n, ends), queue, n, DrainFrom(top, Reverse(queue[..n]), ends))
    decreases n, 1
  {
    if n == 0 {
      LastTurn(s);
    } else if top.Unindexable? || top.Number? {
      TurnOf(top, queue, n - 1, ends);
      EscapeTurn(s, queue, n, top);
    } else if top.Table? && IntKey(queue[n - 1]) in top.entries {
      CallIsDrain(s, queue, n, top, ends);
    } else {
      MissIsDrain(s, queue, n, top, ends);
    }
  }

  lemma {:induction false} CallIsDrain(s: State, queue: seq<int>, n: nat, top: Value, ends: Ends)
    requires n > 0 && AtLoop(s, queue, n, top) && top.Table? && IntKey(queue[n - 1]) in top.entries
    ensures Does(s, DrainLabels(top, queue, n, ends), queue, n, DrainFrom(top, Reverse(queue[..n]), ends))
    decreases n, 0
  {
    var fn := top.entries[IntKey(queue[n - 1])];
    var end := ends(queue[n - 1], fn, n);
    var next := AfterEnd(top, end);
    TurnOf(top, queue, n - 1, ends);
    var t := CallTurn(s, queue, n, top, fn, end, DrainLabels(next, queue, n - 1, ends),
                      DrainFrom(next, Reverse(queue[..n - 1]), ends));
    LoopIsDrain(t, queue, n - 1, next, ends);
  }

  lemma {:induction false} MissIsDrain(s: State, queue: seq<int>, n: nat, top: Value, ends: Ends)
    requires n > 0 && AtLoop(s, queue, n, top) && Lacks(top, queue[n - 1])
    ensures Does(s, DrainLabels(top, queue, n, ends), queue, n, DrainFrom(top, Reverse(queue[..n]), ends))
    decreases n, 0
  {
    TurnOf(top, queue, n - 1, ends);
    var t := MissTurn(s, queue, n, top, DrainLabels(Text, queue, n - 1, ends),
                      DrainFrom(Text, Reverse(queue[..n - 1]), ends));
    LoopIsDrain(t, queue, n - 1, Text, ends);
  }

  lemma LastTurn(s: State)
    requires Inv(s) && s.control.Handling? && s.control.hpc.HLoop? && s.count == 0
    ensures var r := Run(s, [Execute, Execute, Execute, Execute]);
            && r.Next? && r.state.control.Main? && r.state.count == 0 && r.state.calls == s.calls
            && r.state.missed == s.missed && r.state.lost == s.lost && r.state.escaped == s.escaped
  {
    HLoopInv(s);
    var s1 := ExecuteHandle(s).state;
    HResetInv(s1);
    var s2 := ExecuteHandle(s1).state;
    HUnblockInv(s2);
    var s3 := ExecuteHandle(s2).state;
    var s4 := ExecuteHandle(s3).state;
    assert [Execute, Execute, Execute, Execute] == [Execute, Execute] + ([Execute, Execute] + []);
    RunTwo(s, s1, s2, [Execute, Execute] + []);
    RunTwo(s2, s3, s4, []);
  }

  lemma FindsByValue(top: Top, registry: map<LuaKey, Fn>, sig: int)
    ensures var v := ValueOf(top, registry);
            FindHandler(top, registry, sig)
            == if v.Unindexable? || v.Number? then Raises
               else if v.Table? && IntKey(sig) in v.entries then Found(v.entries[IntKey(sig)]) else Missing
  {
  }

  /** From the hook: a drain of the machine is that of the module, whatever its handlers raise. */
  lemma HookIsDrain(s: State, ends: Ends)
    requires Inv(s) && s.control.Main? && s.hook
    ensures Does(s, HookLabels(s, ends), Queued(s), |Queued(s)|,
                 DrainFrom(Table(s.registry), Reverse(Queued(s)), ends))
  {
    var queue, top := Queued(s), Table(s.registry);
    var rest := DrainLabels(top, queue, |queue|, ends);
    FireInv(s);
    var s1 := Step(s, FireHook).state;
    HBlockInv(s1);
    var s2 := ExecuteHandle(s1).state;
    HUnhookInv(s2);
    var s3 := ExecuteHandle(s2).state;
    assert HookLabels(s, ends) == [FireHook] + ([Execute, Execute] + rest);
    RunFirst(s, FireHook, s1, [Execute, Execute] + rest);
    RunTwo(s1, s2, s3, rest);
    assert queue[..|queue|] == queue;
    LoopIsDrain(s3, queue, |queue|, top, ends);
    SameHistory(s, s3, Run(s3, rest).state, queue, DrainFrom(top, Reverse(queue), ends));
  }

  lemma SameHistory(s: State, s': State, t: State, queue: seq<int>, d: Drained)
    requires Drains(s', t, queue, |queue|, d)
    requires s'.calls == s.calls && s'.missed == s.missed && s'.lost == s.lost && s'.escaped == s.escaped
    ensures Drains(s, t, queue, |queue|, d)
  {
  }

  function HookLabels(s: State, ends: Ends): seq<Label> {
    [FireHook] + ([Execute, Execute] + DrainLabels(Table(s.registry), Queued(s), |Queued(s)|, ends))
  }

  lemma {:induction false} ReverseMembers(q: seq<int>)
    ensures forall k :: k in Reverse(q) ==> k in q
  {
    if q != [] {
      ReverseMembers(q[1..]);
    }
  }

  /** After any run in which arguments of signal() are their own keys, whatever errors handlers have raised in
      it: a hook that fires calls for every signal in the queue the function last installed for it, if and only
      if every signal finds its own function in what the last error before it, if any, has left on the stack. */
  lemma DrainAfterErrorsIff(s: State, ls: seq<Label>, ends: Ends)
    requires Initial(s) && AllPlain(ls)
    ensures Run(s, ls).Next?
    ensures var t := Run(s, ls).state;
            t.control.Main? && t.hook ==>
              var rest := Reverse(Queued(t));
              && AllKnown(t.registry, rest) && (forall k :: k in rest ==> HasLast(t, k))
              && var r := Run(t, HookLabels(t, ends));
              && r.Next?
              && (r.state.count == 0 && r.state.lost == t.lost && r.state.calls == t.calls + AllCalls(t.registry, rest)
                  <==> forall i: nat :: i < |rest| ==> FindsAt(Table(t.registry), t.registry, rest, ends, i))
  {
    InitialInv(s);
    InitialKnown(s);
    RunKnown(s, ls);
    TableHasLast(s, ls);
    var t := Run(s, ls).state;
    if t.control.Main? && t.hook {
      var rest := Reverse(Queued(t));
      ReverseMembers(Queued(t));
      forall k | k in rest ensures HasLast(t, k) {
        assert Expected(t, k);
      }
      HookIsDrain(t, ends);
      DrainFindsIff(Table(t.registry), t.registry, rest, ends);
      CompleteIff(t, Run(t, HookLabels(t, ends)).state, Queued(t), DrainFrom(Table(t.registry), rest, ends),
                  AllCalls(t.registry, rest));
    }
  }

  lemma CompleteIff(s: State, t: State, queue: seq<int>, d: Drained, calls: seq<(int, Fn)>)
    requires Drains(s, t, queue, |queue|, d)
    ensures t.count == 0 && t.lost == s.lost && t.calls == s.calls + calls <==> !d.escaped && d.calls == calls
  {
    if t.calls == s.calls + calls {
      assert d.calls == t.calls[|s.calls|..] && calls == t.calls[|s.calls|..];
    }
    if d.escaped {
      assert |t.lost| == |s.lost| + 1;
    }
  }
}
