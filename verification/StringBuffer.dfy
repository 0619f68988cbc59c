/** The string buffer of the Lua 5.1 compatibility layer (ext/include/compat-5.2.c and .h). Its bytes
    start in an array inside the struct and move to userdata boxes, which are kept on the Lua stack.
    Sizes are size_t: all arithmetic on them wraps at `modulus`. LUAL_BUFFERSIZE, which luaconf.h sets
    from the platform's BUFSIZ, is a parameter. */
module StringBuffer {
  import opened LuaStack

  /** Numbers are converted by lua_tolstring to the text they carry here. */
  datatype Value = Str(text: seq<char>) | Number(text: seq<char>) | Userdata(mem: array<char>) | Other(id: nat)

  predicate IsText(v: Value) { v.Str? || v.Number? }

  class LuaState {
    var stack: seq<Value>

    constructor (stack: seq<Value>)
      ensures this.stack == stack
    {
      this.stack := stack;
    }
  }

  // ---------------------------------------------------------------------------
  // size_t
  // ---------------------------------------------------------------------------

  function Wrap(x: int, modulus: nat): (r: nat)
    requires modulus > 0
    ensures r < modulus && (0 <= x < modulus ==> r == x)
    ensures modulus <= x < 2 * modulus ==> r == x - modulus
    ensures x < 0 && x + modulus >= 0 ==> r == x + modulus
  {
    WrapOnce(x - modulus, modulus);
    WrapOnce(x, modulus);
    x % modulus
  }

  lemma WrapOnce(x: int, modulus: nat)
    requires modulus > 0
    ensures 0 <= x < modulus ==> (x + modulus) % modulus == x == x % modulus
    ensures x < 0 && x + modulus >= 0 ==> x % modulus == x + modulus
  {
    if 0 <= x < modulus {
      assert (x + modulus) / modulus == 1;
    } else if x < 0 && x + modulus >= 0 {
      assert x / modulus == -1;
    }
  }

  datatype Growth = Fits | Grows(capacity: nat) | TooLarge

  /** The decision of luaL_prepbuffsize, in wrapping arithmetic. */
  function Grow(capacity: nat, nelems: nat, s: nat, modulus: nat): Growth
    requires modulus > 0
  {
    if Wrap(capacity - nelems, modulus) >= s then Fits
    else
      var doubled := Wrap(capacity * 2, modulus);
      var newcap := if Wrap(doubled - nelems, modulus) < s then Wrap(nelems + s, modulus) else doubled;
      if newcap < capacity then TooLarge else Grows(newcap)
  }

  /** When the request is refused: it does not fit, and either the sum wraps, or doubling wraps so
      far that the wrapped capacity is below what is in use. */
  predicate Refuses(capacity: nat, nelems: nat, s: nat, modulus: nat) {
    && capacity - nelems < s
    && (nelems + s >= modulus || (2 * capacity >= modulus && nelems > 2 * capacity - modulus))
  }

  /** Wrapping never lets a request through that the new capacity cannot hold. */
  lemma GrowIsSafe(capacity: nat, nelems: nat, s: nat, modulus: nat)
    requires nelems <= capacity < modulus && s < modulus
    ensures Grow(capacity, nelems, s, modulus).TooLarge? <==> Refuses(capacity, nelems, s, modulus)
    ensures Grow(capacity, nelems, s, modulus).Fits? <==> nelems + s <= capacity
    ensures var g := Grow(capacity, nelems, s, modulus);
            g.Grows? ==> capacity <= g.capacity < modulus && nelems + s <= g.capacity <= 2 * (nelems + s)
  {
  }

  // ---------------------------------------------------------------------------
  // The buffer
  // ---------------------------------------------------------------------------

  lemma Appended(a: array<char>, n: nat, s: seq<char>)
    requires n + |s| <= a.Length && forall i :: n <= i < n + |s| ==> a[i] == s[i - n]
    ensures a[..n + |s|] == a[..n] + s
  {
    assert forall i :: 0 <= i < n + |s| ==> a[..n + |s|][i] == (a[..n] + s)[i];
  }

  class Buffer {
    const modulus: nat
    const L2: LuaState
    /** b.buffer: the array inside the struct, LUAL_BUFFERSIZE bytes long. */
    const inner: array<char>
    var ptr: array<char>
    var nelems: nat
    var capacity: nat

    constructor (L: LuaState, modulus: nat, bufferSize: nat)
      requires 0 < bufferSize < modulus
      ensures Valid(L.stack) && Contents() == [] && L2 == L && this.modulus == modulus
      ensures fresh(ptr) && ptr == inner && capacity == bufferSize
    {
      this.modulus := modulus;
      L2 := L;
      inner := new char[bufferSize];
      ptr := inner;
      nelems := 0;
      capacity := bufferSize;
    }

    /** The slot that the buffer occupies on top of the stack while its bytes are in a box. */
    ghost function Box(): seq<Value>
      reads this
    {
      if ptr == inner then [] else [Userdata(ptr)]
    }

    /** `base` is what the stack holds below the buffer's slot. */
    ghost predicate Valid(base: seq<Value>)
      reads this, L2
    {
      && 0 < inner.Length < modulus
      && ptr.Length == capacity && nelems <= capacity < modulus
      && L2.stack == base + Box()
    }

    ghost function Contents(): seq<char>
      requires nelems <= ptr.Length
      reads this, ptr
    {
      ptr[..nelems]
    }

    /** Makes room for s more bytes; false is the error "buffer too large". */
    method PrepBuffSize(s: nat, ghost base: seq<Value>) returns (ok: bool)
      requires Valid(base) && s < modulus
      modifies this`ptr, this`capacity, L2
      ensures Valid(base)
      ensures ok <==> !Refuses(old(capacity), nelems, s, modulus)
      ensures ok ==> nelems + s <= capacity
      ensures !ok ==> ptr == old(ptr) && capacity == old(capacity)
      ensures ptr == old(ptr) || fresh(ptr)
      ensures Contents() == old(Contents())
      ensures capacity == old(capacity) || capacity <= 2 * (nelems + s)
    {
      GrowIsSafe(capacity, nelems, s, modulus);
      if Wrap(capacity - nelems, modulus) < s {
        var newcap := Wrap(capacity * 2, modulus);
        if Wrap(newcap - nelems, modulus) < s {
          newcap := Wrap(nelems + s, modulus);
        }
        if newcap < capacity {
          return false;
        }
        MoveTo(newcap, base);
      }
      ok := true;
    }

    /** The bytes move to a new box, which takes the place of the old one on the stack. */
    method MoveTo(newcap: nat, ghost base: seq<Value>)
      requires Valid(base) && capacity <= newcap < modulus
      modifies this`ptr, this`capacity, L2
      ensures Valid(base) && fresh(ptr) && capacity == newcap && Contents() == old(Contents())
    {
      var newptr := new char[newcap];
      L2.stack := L2.stack + [Userdata(newptr)];
      forall i | 0 <= i < nelems {
        newptr[i] := ptr[i];
      }
      if ptr != inner {
        L2.stack := Replace(L2.stack, -2);
      }
      ptr := newptr;
      capacity := newcap;
    }

    /** luaL_addsize, after the caller has put n bytes behind the contents. */
    method AddSize(n: nat, ghost base: seq<Value>)
      requires Valid(base) && nelems + n <= capacity
      modifies this`nelems
      ensures Valid(base) && nelems == old(nelems) + n
    {
      nelems := Wrap(nelems + n, modulus);
    }

    method AddLString(s: seq<char>, ghost base: seq<Value>) returns (ok: bool)
      requires Valid(base) && |s| < modulus
      modifies this`ptr, this`capacity, this`nelems, L2, ptr
      ensures Valid(base)
      ensures ok <==> !Refuses(old(capacity), old(nelems), |s|, modulus)
      ensures Contents() == old(Contents()) + (if ok then s else [])
      ensures ptr == old(ptr) || fresh(ptr)
      ensures capacity == old(capacity) || capacity <= 2 * (old(nelems) + |s|)
    {
      ghost var contents := Contents();
      ok := PrepBuffSize(|s|, base);
      if ok {
        forall i | nelems <= i < nelems + |s| {
          ptr[i] := s[i - nelems];
        }
        assert ptr[..nelems] == contents;
        Appended(ptr, nelems, s);
        AddSize(|s|, base);
      }
    }

    method AddChar(c: char, ghost base: seq<Value>) returns (ok: bool)
      requires Valid(base)
      modifies this`ptr, this`capacity, this`nelems, L2, ptr
      ensures Valid(base)
      ensures ok <==> !Refuses(old(capacity), old(nelems), 1, modulus)
      ensures Contents() == old(Contents()) + (if ok then [c] else [])
      ensures ptr == old(ptr) || fresh(ptr)
      ensures capacity == old(capacity) || capacity <= 2 * (old(nelems) + 1)
    {
      ok := true;
      if !(nelems < capacity) {
        ok := PrepBuffSize(1, base);
      }
      if ok {
        ghost var contents := Contents();
        ptr[nelems] := c;
        assert ptr[..nelems] == contents;
        assert ptr[..nelems + 1] == ptr[..nelems] + [c];
        nelems := Wrap(nelems + 1, modulus);
      }
    }

    /** Adds the value on top of the stack, above the buffer's slot, and pops it. */
    method AddValue(ghost base: seq<Value>, ghost v: Value) returns (ok: bool)
      requires |L2.stack| > 0 && L2.stack[|L2.stack| - 1] == v && (IsText(v) ==> |v.text| < modulus)
      requires ValidBelow(base, v)
      modifies this`ptr, this`capacity, this`nelems, L2, ptr
      ensures ok <==> IsText(v) && !Refuses(old(capacity), old(nelems), |v.text|, modulus)
      ensures ok ==> Valid(base) && Contents() == old(Contents()) + v.text
      ensures ptr == old(ptr) || fresh(ptr)
      ensures capacity == old(capacity) || (IsText(v) && capacity <= 2 * (old(nelems) + |v.text|))
    {
      var top := At(L2.stack, -1);
      if !IsText(top) {
        return false;
      }
      var s := top.text;
      L2.stack := L2.stack[|L2.stack| - 1 := Str(s)];  // lua_tolstring converts in place
      ghost var below := base + [Str(s)];
      InsertBelowTop(base, Userdata(ptr), Str(s));
      assert L2.stack == if ptr == inner then below else base + [Userdata(ptr), Str(s)];
      if ptr != inner {
        L2.stack := Insert(L2.stack, -2);
      }
      assert L2.stack == below + Box();
      ok := AddBelow(s, base);
    }

    /** The second half of luaL_addvalue: the string lies below the buffer's slot. */
    method AddBelow(s: seq<char>, ghost base: seq<Value>) returns (ok: bool)
      requires Valid(base + [Str(s)]) && |s| < modulus
      modifies this`ptr, this`capacity, this`nelems, L2, ptr
      ensures ok <==> !Refuses(old(capacity), old(nelems), |s|, modulus)
      ensures ok ==> Valid(base) && Contents() == old(Contents()) + s
      ensures ptr == old(ptr) || fresh(ptr)
      ensures capacity == old(capacity) || capacity <= 2 * (old(nelems) + |s|)
    {
      ok := AddLString(s, base + [Str(s)]);
      if ok {
        RemoveBelowTop(base, Str(s), Userdata(ptr));
        assert L2.stack == if ptr == inner then base + [Str(s)] else base + [Str(s), Userdata(ptr)];
        L2.stack := Remove(L2.stack, if ptr != inner then -2 else -1);
      }
    }

    /** Valid, but for a value on top. */
    ghost predicate ValidBelow(base: seq<Value>, v: Value)
      reads this, L2
    {
      && 0 < inner.Length < modulus
      && ptr.Length == capacity && nelems <= capacity < modulus
      && L2.stack == base + Box() + [v]
    }

    method PushResult(ghost base: seq<Value>)
      requires Valid(base)
      modifies L2
      ensures L2.stack == base + [Str(Contents())]
    {
      L2.stack := L2.stack + [Str(ptr[..nelems])];
      if ptr != inner {
        L2.stack := Replace(L2.stack, -2);
      }
    }

    method PushResultSize(n: nat, ghost base: seq<Value>)
      requires Valid(base) && nelems + n <= capacity
      modifies this`nelems, L2
      ensures nelems == old(nelems) + n
      ensures L2.stack == base + [Str(Contents())]
    {
      AddSize(n, base);
      PushResult(base);
    }
  }

  // ---------------------------------------------------------------------------
  // Any use of a buffer
  // ---------------------------------------------------------------------------

  datatype Piece = Text(s: seq<char>) | Char(c: char) | OnStack(v: Value)

  predicate Convertible(p: Piece) { p.OnStack? ==> IsText(p.v) }

  function PieceText(p: Piece): seq<char>
    requires Convertible(p)
  {
    match p
    case Text(s) => s
    case Char(c) => [c]
    case OnStack(v) => v.text
  }

  function JoinPieces(ps: seq<Piece>): seq<char>
    requires forall p :: p in ps ==> Convertible(p)
  {
    if ps == [] then [] else JoinPieces(ps[..|ps| - 1]) + PieceText(ps[|ps| - 1])
  }

  lemma {:induction false} JoinPrefix(ps: seq<Piece>, i: nat)
    requires i <= |ps| && forall p :: p in ps ==> Convertible(p)
    ensures |JoinPieces(ps[..i])| <= |JoinPieces(ps)|
    decreases |ps|
  {
    if i < |ps| {
      assert ps[..i] == ps[..|ps| - 1][..i];
      JoinPrefix(ps[..|ps| - 1], i);
    } else {
      assert ps[..i] == ps;
    }
  }

  /** Adds one piece; a value is pushed first. */
  method AddPiece(B: Buffer, piece: Piece, ghost base: seq<Value>) returns (ok: bool)
    requires B.Valid(base) && Convertible(piece) && |PieceText(piece)| < B.modulus
    modifies B`ptr, B`capacity, B`nelems, B.L2, B.ptr
    ensures ok <==> !Refuses(old(B.capacity), old(B.nelems), |PieceText(piece)|, B.modulus)
    ensures ok ==> B.Valid(base) && B.Contents() == old(B.Contents()) + PieceText(piece)
    ensures B.ptr == old(B.ptr) || fresh(B.ptr)
    ensures B.capacity == old(B.capacity) || B.capacity <= 2 * (old(B.nelems) + |PieceText(piece)|)
  {
    match piece {
      case Text(s) => ok := B.AddLString(s, base);
      case Char(c) => ok := B.AddChar(c, base);
      case OnStack(v) =>
        B.L2.stack := B.L2.stack + [v];
        ok := B.AddValue(base, v);
    }
  }

  /** Builds a string from any pieces in any order. The net effect is one string on the stack, the
      concatenation; it can only fail when a wrap is within reach. */
  method Build(L: LuaState, modulus: nat, bufferSize: nat, pieces: seq<Piece>) returns (ok: bool)
    requires 0 < bufferSize < modulus
    requires forall p :: p in pieces ==> Convertible(p) && |PieceText(p)| < modulus
    modifies L
    ensures ok ==> L.stack == old(L.stack) + [Str(JoinPieces(pieces))]
    ensures 2 * bufferSize < modulus && 4 * |JoinPieces(pieces)| < modulus ==> ok
  {
    ghost var base := L.stack;
    var B := new Buffer(L, modulus, bufferSize);
    for i := 0 to |pieces|
      invariant B.Valid(base) && B.L2 == L && B.modulus == modulus && fresh(B) && fresh(B.ptr)
      invariant B.Contents() == JoinPieces(pieces[..i])
      invariant B.capacity <= bufferSize || B.capacity <= 2 * |JoinPieces(pieces[..i])|
    {
      assert pieces[..i + 1][..i] == pieces[..i];
      assert JoinPieces(pieces[..i + 1]) == JoinPieces(pieces[..i]) + PieceText(pieces[i]);
      JoinPrefix(pieces, i + 1);
      ok := AddPiece(B, pieces[i], base);
      if !ok {
        return;
      }
    }
    assert pieces[..|pieces|] == pieces;
    B.PushResult(base);
    ok := true;
  }
}
