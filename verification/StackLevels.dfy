/** Measuring and printing the call stack in the Lua 5.1 compatibility layer
    (countlevels and luaL_traceback, ext/include/compat-5.2.c). A stack of depth d has the levels
    0 to d - 1. */
module StackLevels {

  const LEVELS1: int := 12
  const LEVELS2: int := 10

  /** lua_getstack */
  predicate HasLevel(depth: nat, level: int) { 0 <= level < depth }

  /** The least k with n <= 2^k, for n >= 1. */
  function CeilLog2(n: nat): nat {
    if n <= 1 then 0 else 1 + CeilLog2((n + 1) / 2)
  }

  function Pow2(k: nat): nat {
    if k == 0 then 1 else 2 * Pow2(k - 1)
  }

  /** CeilLog2 is what its name says. */
  lemma {:induction false} CeilLog2Is(n: nat, k: nat)
    requires n >= 1
    ensures CeilLog2(n) <= k <==> n <= Pow2(k)
  {
    if n > 1 && k > 0 {
      CeilLog2Is((n + 1) / 2, k - 1);
    } else if n > 1 {
      assert Pow2(0) == 1;
    } else {
      Pow2Positive(k);
    }
  }

  lemma {:induction false} Pow2Positive(k: nat)
    ensures Pow2(k) >= 1
  {
    if k > 0 {
      Pow2Positive(k - 1);
    }
  }

  /** The number of the highest level, and how many levels were probed to find it. */
  method CountLevels(depth: nat) returns (last: nat, probes: nat)
    ensures last == if depth == 0 then 0 else depth - 1
    ensures probes <= 2 * CeilLog2(depth) + 1
  {
    var li, le := 1, 1;
    probes := 1;
    ghost var k: nat := 0;
    // le is the power of two that is probed next; that probe is already counted
    while HasLevel(depth, le)
      invariant le == Pow2(k) && probes == k + 1
      invariant if k == 0 then li == 1 else le == 2 * li && li < depth
      invariant 1 <= li <= le
      decreases depth - le
    {
      li := le;
      le := le * 2;
      probes := probes + 1;
      k := k + 1;
    }
    if k > 0 {
      assert li == Pow2(k - 1);
      if depth >= 1 {
        CeilLog2Is(depth, k - 1);
      }
    }
    assert k <= CeilLog2(depth);
    ghost var j: nat := k;
    assert le - li < Pow2(j);
    while li < le
      invariant 1 <= li <= le && le - li < Pow2(j)
      invariant le >= depth && if depth == 0 then le == 1 else li <= depth
      invariant probes + j <= 2 * k + 1 && (j == 0 ==> li == le)
      decreases le - li
    {
      var m := (li + le) / 2;
      assert j > 0 && Pow2(j) == 2 * Pow2(j - 1);
      probes := probes + 1;
      if HasLevel(depth, m) {
        li := m + 1;
      } else {
        le := m;
      }
      j := j - 1;
    }
    last := le - 1;
  }

  // ---------------------------------------------------------------------------
  // The traceback
  // ---------------------------------------------------------------------------

  datatype Line = Frame(level: int) | Ellipsis

  function Frames(from: int, end: int): seq<Line>
    decreases end - from
  {
    if from >= end then [] else Frames(from, end - 1) + [Frame(end - 1)]
  }

  /** What a traceback from `level` shows: everything, unless the stack is deep and starts early. */
  function Shown(depth: nat, level: nat): seq<Line> {
    if depth - 1 > LEVELS1 + LEVELS2 && level <= LEVELS1 - 1
    then Frames(level, LEVELS1 - 1) + [Ellipsis] + Frames(depth - 1 - LEVELS2, depth)
    else Frames(level, depth)
  }

  /** A stack of up to 23 levels, or one looked at from level 12 on, is shown as it is, one frame a level.
      Otherwise there are the levels up to 10, one ellipsis, and the last eleven. */
  method Traceback(depth: nat, start: nat) returns (lines: seq<Line>)
    ensures lines == Shown(depth, start)
    ensures depth <= 23 || start >= 12 ==>
              && |lines| == (if start < depth then depth - start else 0)
              && forall i :: 0 <= i < |lines| ==> lines[i] == Frame(start + i)
    ensures depth >= 24 && start <= 11 ==>
              && |lines| == 23 - start
              && forall i :: 0 <= i < |lines| ==> lines[i] == if i < 11 - start then Frame(start + i)
                                                              else if i == 11 - start then Ellipsis
                                                              else Frame(depth - (23 - start) + i)
  {
    ShownIs(depth, start);
    var numlevels, _ := CountLevels(depth);
    var mark := if numlevels > LEVELS1 + LEVELS2 then LEVELS1 else 0;
    var level := start;
    lines := [];
    ghost var jumped := false;
    while HasLevel(depth, level)
      invariant level >= 0
      invariant !jumped ==>
                  && level >= start && lines == Frames(start, level)
                  && (mark > 0 && start <= LEVELS1 - 1 ==> level <= LEVELS1 - 1)
      invariant !jumped ==> level <= depth || level == start
      invariant jumped ==>
                  mark == LEVELS1 && start <= LEVELS1 - 1 && level > LEVELS1 && depth - 1 - LEVELS2 <= level <= depth
      invariant jumped ==> lines == Frames(start, LEVELS1 - 1) + [Ellipsis] + Frames(depth - 1 - LEVELS2, level)
      decreases depth - level
    {
      level := level + 1;
      if level == mark {
        lines := lines + [Ellipsis];
        level := numlevels - LEVELS2;
        jumped := true;
      } else {
        lines := lines + [Frame(level - 1)];
      }
    }
    if !jumped && level > depth {
      assert Frames(start, level) == [];
    }
  }

  lemma ShownIs(depth: nat, start: nat)
    ensures var lines := Shown(depth, start);
            if depth <= 23 || start >= 12
            then && |lines| == (if start < depth then depth - start else 0)
                 && forall i :: 0 <= i < |lines| ==> lines[i] == Frame(start + i)
            else && |lines| == 23 - start
                 && forall i :: 0 <= i < |lines| ==> lines[i] == if i < 11 - start then Frame(start + i)
                                                                 else if i == 11 - start then Ellipsis
                                                                 else Frame(depth - (23 - start) + i)
  {
    FramesAre(start, 11);
    FramesAre(depth - 11, depth);
    FramesAre(start, depth);
  }

  /** No frame is shown twice or out of order, and none outside the stack. */
  lemma ShownInOrder(depth: nat, level: nat, i: nat, j: nat)
    requires i < |Shown(depth, level)| && Shown(depth, level)[i].Frame?
    ensures level <= Shown(depth, level)[i].level < depth
    ensures i < j < |Shown(depth, level)| && Shown(depth, level)[j].Frame? ==>
              Shown(depth, level)[i].level < Shown(depth, level)[j].level
  {
    FramesAre(level, LEVELS1 - 1);
    FramesAre(depth - 1 - LEVELS2, depth);
    FramesAre(level, depth);
  }

  lemma {:induction false} FramesAre(from: int, end: int)
    ensures |Frames(from, end)| == if from >= end then 0 else end - from
    ensures forall i :: 0 <= i < |Frames(from, end)| ==> Frames(from, end)[i] == Frame(from + i)
    decreases end - from
  {
    if from < end {
      FramesAre(from, end - 1);
    }
  }

  /** The levels that a deep traceback leaves out are exactly 11 to depth - 12. */
  lemma ShownExactly(depth: nat, level: nat, f: int)
    requires depth > LEVELS1 + LEVELS2 + 1 && level <= LEVELS1 - 1
    ensures Frame(f) in Shown(depth, level) <==> level <= f < LEVELS1 - 1 || depth - 1 - LEVELS2 <= f < depth
  {
    FramesAre(level, LEVELS1 - 1);
    FramesAre(depth - 1 - LEVELS2, depth);
    var first, last := Frames(level, LEVELS1 - 1), Frames(depth - 1 - LEVELS2, depth);
    if level <= f < LEVELS1 - 1 {
      assert first[f - level] == Frame(f);
    }
    if depth - 1 - LEVELS2 <= f < depth {
      assert last[f - (depth - 1 - LEVELS2)] == Frame(f);
    }
  }
}
