/** The part of the Lua C API that moves values on the stack. A stack is a sequence, its top last;
    an index counts from the bottom when positive and from the top when negative. */
module LuaStack {

  predicate ValidIndex<T>(s: seq<T>, idx: int) {
    0 < idx <= |s| || -|s| <= idx < 0
  }

  /** lua_absindex, as a position from 0. */
  function Position<T>(s: seq<T>, idx: int): (p: nat)
    requires ValidIndex(s, idx)
    ensures p < |s|
  {
    if idx > 0 then idx - 1 else |s| + idx
  }

  function At<T>(s: seq<T>, idx: int): T
    requires ValidIndex(s, idx)
  {
    s[Position(s, idx)]
  }

  function Pop<T>(s: seq<T>, n: nat): seq<T>
    requires n <= |s|
  {
    s[..|s| - n]
  }

  /** lua_pushvalue */
  function PushValue<T>(s: seq<T>, idx: int): seq<T>
    requires ValidIndex(s, idx)
  {
    s + [At(s, idx)]
  }

  /** lua_insert: the top moves down to idx. */
  function Insert<T>(s: seq<T>, idx: int): seq<T>
    requires ValidIndex(s, idx)
  {
    var p := Position(s, idx);
    s[..p] + [s[|s| - 1]] + s[p..|s| - 1]
  }

  /** lua_remove */
  function Remove<T>(s: seq<T>, idx: int): seq<T>
    requires ValidIndex(s, idx)
  {
    var p := Position(s, idx);
    s[..p] + s[p + 1..]
  }

  /** lua_replace: the top is popped into idx. */
  function Replace<T>(s: seq<T>, idx: int): seq<T>
    requires ValidIndex(s, idx)
  {
    s[Position(s, idx) := s[|s| - 1]][..|s| - 1]
  }

  /** Exchanging the two values on top. */
  lemma InsertBelowTop<T>(base: seq<T>, x: T, y: T)
    ensures Insert(base + [x, y], -2) == base + [y, x]
  {
  }

  lemma RemoveBelowTop<T>(base: seq<T>, x: T, y: T)
    ensures Remove(base + [x, y], -2) == base + [y]
    ensures Replace(base + [x, y], -2) == base + [y]
    ensures Remove(base + [x], -1) == base
  {
  }
}
