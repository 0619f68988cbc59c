/** Filling a table with C functions (luaL_setfuncs, ext/include/compat-5.2.c). The shared upvalues
    lie on the stack above the table, and everything is found by index from the top. */
module Registration {
  import opened LuaStack

  datatype Value = Str(text: string) | Table(id: nat) | Closure(func: nat, upvalues: seq<Value>) | Other(id: nat)

  /** luaL_Reg, without the entry that ends a list. */
  datatype Reg = Reg(name: string, func: nat)

  /** The table after the registrations, the last one first. */
  function Filled(m: map<Value, Value>, l: seq<Reg>, upvalues: seq<Value>): map<Value, Value> {
    if l == [] then m
    else Filled(m, l[..|l| - 1], upvalues)[Str(l[|l| - 1].name) := Closure(l[|l| - 1].func, upvalues)]
  }

  /** i is the last registration of the name. */
  ghost predicate LastFor(l: seq<Reg>, name: string, i: nat) {
    i < |l| && l[i].name == name && forall j :: i < j < |l| ==> l[j].name != name
  }

  /** Every registered name has its last function, and no other key changes. */
  lemma {:induction false} FilledIs(m: map<Value, Value>, l: seq<Reg>, upvalues: seq<Value>)
    ensures forall name: string, i: nat :: LastFor(l, name, i) ==>
              Str(name) in Filled(m, l, upvalues) && Filled(m, l, upvalues)[Str(name)] == Closure(l[i].func, upvalues)
    ensures forall k: Value :: (forall i :: 0 <= i < |l| ==> k != Str(l[i].name)) ==>
              (k in Filled(m, l, upvalues) <==> k in m) && (k in m ==> Filled(m, l, upvalues)[k] == m[k])
  {
    if l != [] {
      var init := l[..|l| - 1];
      FilledIs(m, init, upvalues);
      assert forall i :: 0 <= i < |init| ==> init[i] == l[i];
      forall name: string, i: nat | LastFor(l, name, i) && i < |l| - 1
        ensures LastFor(init, name, i) && l[|l| - 1].name != name
      {
      }
    }
  }

  class LuaState {
    var stack: seq<Value>
    var tables: map<nat, map<Value, Value>>

    constructor (stack: seq<Value>, tables: map<nat, map<Value, Value>>)
      ensures this.stack == stack && this.tables == tables
    {
      this.stack := stack;
      this.tables := tables;
    }

    /** lua_pushcclosure */
    method PushCClosure(func: nat, n: nat)
      requires n <= |stack|
      modifies this`stack
      ensures stack == old(stack)[..|old(stack)| - n] + [Closure(func, old(stack)[|old(stack)| - n..])]
    {
      stack := Pop(stack, n) + [Closure(func, stack[|stack| - n..])];
    }

    /** lua_settable on a table without metamethods */
    method SetTable(idx: int)
      requires |stack| >= 2 && ValidIndex(stack, idx) && At(stack, idx).Table? && At(stack, idx).id in tables
      modifies this
      ensures var t := At(old(stack), idx).id;
              tables == old(tables)[t := old(tables)[t][old(stack)[|old(stack)| - 2] := old(stack)[|old(stack)| - 1]]]
      ensures stack == old(stack)[..|old(stack)| - 2]
    {
      var t := At(stack, idx).id;
      tables := tables[t := tables[t][At(stack, -2) := At(stack, -1)]];
      stack := Pop(stack, 2);
    }

    /** Registers every function as a closure over the nup values on top, and pops those. */
    method SetFuncs(l: seq<Reg>, nup: nat)
      requires nup < |stack| && stack[|stack| - nup - 1].Table? && stack[|stack| - nup - 1].id in tables
      modifies this
      ensures stack == old(stack)[..|old(stack)| - nup]
      ensures var t, upvalues := old(stack)[|old(stack)| - nup - 1].id, old(stack)[|old(stack)| - nup..];
              tables == old(tables)[t := Filled(old(tables)[t], l, upvalues)]
    {
      ghost var base, t, upvalues := stack, stack[|stack| - nup - 1].id, stack[|stack| - nup..];
      for k := 0 to |l|
        invariant stack == base
        invariant tables == old(tables)[t := Filled(old(tables)[t], l[..k], upvalues)]
      {
        stack := stack + [Str(l[k].name)];
        for i := 0 to nup
          invariant stack == base + [Str(l[k].name)] + upvalues[..i]
          invariant tables == old(tables)[t := Filled(old(tables)[t], l[..k], upvalues)]
        {
          assert At(stack, -(nup + 1)) == upvalues[i];
          stack := PushValue(stack, -(nup + 1));
        }
        assert stack == base + [Str(l[k].name)] + upvalues;
        assert stack[|stack| - nup..] == upvalues;
        PushCClosure(l[k].func, nup);
        assert stack == base + [Str(l[k].name), Closure(l[k].func, upvalues)];
        SetTable(-(nup + 3));
        assert l[..k + 1][..k] == l[..k];
      }
      assert l[..|l|] == l;
      stack := Pop(stack, nup);
    }
  }
}
