/** Finding a name for a function by searching tables (findfield and pushglobalfuncname,
    ext/include/compat-5.2.c). Tables may refer to each other in any way, cycles included. */
module FieldSearch {
  import opened Options
  import opened LuaStack

  datatype Value = Nil | Str(text: string) | Table(id: nat) | Other(id: nat)

  /** A table's pairs, in the order in which lua_next visits them. */
  type Pairs = seq<(Value, Value)>
  type Heap = map<nat, Pairs>

  ghost predicate WellFormed(h: Heap) {
    forall id :: id in h ==>
      && (forall i :: 0 <= i < |h[id]| ==> h[id][i].0 != Nil && Known(h, h[id][i].1))
      && (forall i, j :: 0 <= i < j < |h[id]| ==> h[id][i].0 != h[id][j].0)
  }

  predicate Known(h: Heap, v: Value) { v.Table? ==> v.id in h }

  // ---------------------------------------------------------------------------
  // Paths
  // ---------------------------------------------------------------------------

  /** Following the names of the path, one table after the other, leads to obj. */
  ghost predicate Resolves(h: Heap, v: Value, path: seq<string>, obj: Value)
    decreases |path|
  {
    && path != [] && v.Table? && v.id in h
    && exists i :: 0 <= i < |h[v.id]| && h[v.id][i].0 == Str(path[0]) &&
         if |path| == 1 then h[v.id][i].1 == obj else Resolves(h, h[v.id][i].1, path[1..], obj)
  }

  /** The names with dots between them. */
  function Join(path: seq<string>): string
    requires path != []
  {
    if |path| == 1 then path[0] else path[0] + "." + Join(path[1..])
  }

  // ---------------------------------------------------------------------------
  // The search as a function
  // ---------------------------------------------------------------------------

  function Search(h: Heap, v: Value, obj: Value, level: nat): Option<seq<string>>
    decreases level, 1, 0
  {
    if level == 0 || !v.Table? || v.id !in h then None else SearchFrom(h, h[v.id], obj, level, 0)
  }

  function SearchFrom(h: Heap, pairs: Pairs, obj: Value, level: nat, i: nat): Option<seq<string>>
    requires level > 0 && i <= |pairs|
    decreases level, 0, |pairs| - i
  {
    if i == |pairs| then None
    else if !pairs[i].0.Str? then SearchFrom(h, pairs, obj, level, i + 1)
    else if pairs[i].1 == obj then Some([pairs[i].0.text])
    else match Search(h, pairs[i].1, obj, level - 1)
      case Some(path) => Some([pairs[i].0.text] + path)
      case None => SearchFrom(h, pairs, obj, level, i + 1)
  }

  lemma {:induction false} SearchSound(h: Heap, v: Value, obj: Value, level: nat)
    requires Search(h, v, obj, level).Some?
    ensures var path := Search(h, v, obj, level).value;
            1 <= |path| <= level && Resolves(h, v, path, obj)
    decreases level, 1, 0
  {
    var i := SearchFromSound(h, h[v.id], obj, level, 0);
    var path := Search(h, v, obj, level).value;
    assert |path| == 1 || path[1..] == Search(h, h[v.id][i].1, obj, level - 1).value;
  }

  lemma {:induction false} SearchFromSound(h: Heap, pairs: Pairs, obj: Value, level: nat, i: nat) returns (k: nat)
    requires level > 0 && i <= |pairs| && SearchFrom(h, pairs, obj, level, i).Some?
    ensures var path := SearchFrom(h, pairs, obj, level, i).value;
            && 1 <= |path| <= level && k < |pairs| && pairs[k].0 == Str(path[0])
            && (if |path| == 1 then pairs[k].1 == obj
                else (Search(h, pairs[k].1, obj, level - 1) == Some(path[1..]) &&
                      Resolves(h, pairs[k].1, path[1..], obj)))
    decreases level, 0, |pairs| - i
  {
    if pairs[i].0.Str? && pairs[i].1 == obj {
      k := i;
    } else if pairs[i].0.Str? && Search(h, pairs[i].1, obj, level - 1).Some? {
      k := i;
      SearchSound(h, pairs[i].1, obj, level - 1);
      var path := Search(h, pairs[i].1, obj, level - 1).value;
      assert ([pairs[i].0.text] + path)[1..] == path;
    } else {
      k := SearchFromSound(h, pairs, obj, level, i + 1);
    }
  }

  lemma {:induction false} SearchComplete(h: Heap, v: Value, path: seq<string>, obj: Value, level: nat)
    requires Resolves(h, v, path, obj) && |path| <= level
    ensures Search(h, v, obj, level).Some?
    decreases |path|
  {
    var pairs := h[v.id];
    var i :| 0 <= i < |pairs| && pairs[i].0 == Str(path[0]) &&
             if |path| == 1 then pairs[i].1 == obj else Resolves(h, pairs[i].1, path[1..], obj);
    if |path| > 1 {
      SearchComplete(h, pairs[i].1, path[1..], obj, level - 1);
    }
    ReachesPair(h, pairs, obj, level, 0, i);
  }

  /** The loop finds something at or before a pair that has something. */
  lemma {:induction false} ReachesPair(h: Heap, pairs: Pairs, obj: Value, level: nat, from: nat, i: nat)
    requires level > 0 && from <= i < |pairs| && pairs[i].0.Str?
    requires pairs[i].1 == obj || Search(h, pairs[i].1, obj, level - 1).Some?
    ensures SearchFrom(h, pairs, obj, level, from).Some?
    decreases i - from
  {
    if from < i {
      ReachesPair(h, pairs, obj, level, from + 1, i);
    }
  }

  /** The search succeeds exactly when some path of at most `level` names leads to the object, and
      what it finds is such a path. */
  lemma SearchIff(h: Heap, v: Value, obj: Value, level: nat)
    ensures Search(h, v, obj, level).Some? <==> exists path :: 1 <= |path| <= level && Resolves(h, v, path, obj)
    ensures Search(h, v, obj, level).Some? ==>
              var path := Search(h, v, obj, level).value; 1 <= |path| <= level && Resolves(h, v, path, obj)
  {
    if Search(h, v, obj, level).Some? {
      SearchSound(h, v, obj, level);
    } else if path :| 1 <= |path| <= level && Resolves(h, v, path, obj) {
      SearchComplete(h, v, path, obj, level);
    }
  }

  // ---------------------------------------------------------------------------
  // The search on the Lua stack
  // ---------------------------------------------------------------------------

  /** The position after a key; nil comes before the first one. */
  function After(pairs: Pairs, key: Value, i: nat): (r: nat)
    requires i <= |pairs|
    ensures r <= |pairs|
    decreases |pairs| - i
  {
    if key == Nil || i == |pairs| then i else if pairs[i].0 == key then i + 1 else After(pairs, key, i + 1)
  }

  lemma {:induction false} AfterKey(pairs: Pairs, i: nat, k: nat)
    requires i <= k < |pairs| && pairs[k].0 != Nil
    requires forall a, b :: 0 <= a < b < |pairs| ==> pairs[a].0 != pairs[b].0
    ensures After(pairs, pairs[k].0, i) == k + 1
    decreases k - i
  {
    if i < k {
      AfterKey(pairs, i + 1, k);
    }
  }

  class LuaState {
    var stack: seq<Value>
    const tables: Heap

    constructor (stack: seq<Value>, tables: Heap)
      ensures this.stack == stack && this.tables == tables
    {
      this.stack := stack;
      this.tables := tables;
    }

    /** lua_next with the table at index -2 and a key on top. */
    method Next() returns (more: bool)
      requires |stack| >= 2 && stack[|stack| - 2].Table? && stack[|stack| - 2].id in tables
      modifies this
      ensures var pairs := tables[old(stack)[|old(stack)| - 2].id];
              var i := After(pairs, old(stack)[|old(stack)| - 1], 0);
              && more == (i < |pairs|)
              && stack == old(stack)[..|old(stack)| - 1] + if more then [pairs[i].0, pairs[i].1] else []
    {
      var pairs := tables[At(stack, -2).id];
      var i := After(pairs, At(stack, -1), 0);
      stack := Pop(stack, 1);
      more := i < |pairs|;
      if more {
        stack := stack + [pairs[i].0, pairs[i].1];
      }
    }

    /** The table between two names goes, and the names become one. */
    method JoinNames()
      requires |stack| >= 3 && stack[|stack| - 3].Str? && stack[|stack| - 1].Str?
      modifies this
      ensures stack == old(stack)[..|old(stack)| - 3]
          + [Str(old(stack)[|old(stack)| - 3].text + "." + old(stack)[|old(stack)| - 1].text)]
    {
      ghost var base, key, name := stack[..|stack| - 3], stack[|stack| - 3], stack[|stack| - 1];
      stack := Remove(stack, -2);
      stack := stack + [Str(".")];
      stack := Insert(stack, -2);
      assert stack == base + [key, Str("."), name];
      stack := Pop(stack, 3) + [Str(At(stack, -3).text + At(stack, -2).text + At(stack, -1).text)];  // lua_concat
    }

    /** On success one name is left above the table; on failure the stack is as it was. */
    method FindField(objidx: nat, level: nat) returns (found: bool)
      requires WellFormed(tables) && 1 <= objidx <= |stack| && Known(tables, stack[|stack| - 1])
      modifies this
      ensures var r := Search(tables, old(stack)[|old(stack)| - 1], old(stack)[objidx - 1], level);
              && found == r.Some?
              && (found ==> r.value != [] && stack == old(stack) + [Str(Join(r.value))])
              && (!found ==> stack == old(stack))
      decreases level
    {
      ghost var base := stack;
      var table := At(stack, -1);
      if level == 0 || !table.Table? {
        return false;
      }
      ghost var pairs, obj := tables[table.id], stack[objidx - 1];
      stack := stack + [Nil];
      ghost var i := 0;
      while true
        invariant i <= |pairs|
        invariant stack == base + [if i == 0 then Nil else pairs[i - 1].0]
        invariant SearchFrom(tables, pairs, obj, level, 0) == SearchFrom(tables, pairs, obj, level, i)
        decreases |pairs| - i
      {
        if i > 0 {
          AfterKey(pairs, 0, i - 1);
        }
        var more := Next();
        if !more {
          break;
        }
        assert stack == base + [pairs[i].0, pairs[i].1];
        if At(stack, -2).Str? {
          if At(stack, objidx) == At(stack, -1) {
            stack := Pop(stack, 1);
            return true;
          }
          var deeper := FindField(objidx, level - 1);
          if deeper {
            ghost var path := Search(tables, pairs[i].1, obj, level - 1).value;
            assert stack == base + [pairs[i].0, pairs[i].1, Str(Join(path))];
            JoinNames();
            assert ([pairs[i].0.text] + path)[1..] == path;
            assert stack == base + [Str(Join([pairs[i].0.text] + path))];
            return true;
          }
        }
        stack := Pop(stack, 1);
        i := i + 1;
      }
      found := false;
    }

    /** Pushes a name for the function `fn` if one is found among the globals or one table below. */
    method PushGlobalFuncName(fn: Value, globals: Value) returns (found: bool)
      requires WellFormed(tables) && Known(tables, globals)
      modifies this
      ensures var r := Search(tables, globals, fn, 2);
              && found == r.Some?
              && (found ==> r.value != [] && stack == old(stack) + [Str(Join(r.value))])
              && (!found ==> stack == old(stack))
    {
      var top := |stack|;
      stack := stack + [fn];
      stack := stack + [globals];
      found := FindField(top + 1, 2);
      if found {
        stack := Replace(PushValue(stack, -1), top + 1);  // lua_copy
        stack := Pop(stack, 2);
      } else {
        stack := stack[..top];
      }
    }
  }
}
