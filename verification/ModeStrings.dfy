/** Permission-mode strings (lib/posix/compat.lua and lib/posix/_base.lua): the printer, the parser
    of three formats, and umask on top of them.

    A mode is an integer used as a set of bits, and is modelled as that set: bit n stands for 2^n,
    band is intersection, bor is union, and band with bnot(x) removes x. */
module ModeStrings {
  import opened Options

  type Mode = set<nat>

  const S_ISUID: nat := 11
  const S_ISGID: nat := 10
  const S_IRUSR: nat := 8
  const S_IWUSR: nat := 7
  const S_IXUSR: nat := 6
  const S_IRGRP: nat := 5
  const S_IWGRP: nat := 4
  const S_IXGRP: nat := 3
  const S_IROTH: nat := 2
  const S_IWOTH: nat := 1
  const S_IXOTH: nat := 0
  const S_IRWXU: Mode := {S_IRUSR, S_IWUSR, S_IXUSR}
  const S_IRWXG: Mode := {S_IRGRP, S_IWGRP, S_IXGRP}
  const S_IRWXO: Mode := {S_IROTH, S_IWOTH, S_IXOTH}
  const RWXALL: Mode := S_IRWXU + S_IRWXG + S_IRWXO
  const PRINTABLE: Mode := RWXALL + {S_ISUID, S_ISGID}

  lemma PermissionBits()
    ensures RWXALL == {8, 7, 6, 5, 4, 3, 2, 1, 0} && PRINTABLE == RWXALL + {11, 10}
  {
  }

  /** MODE_MAP, columns numbered from 0. */
  function ColumnChar(i: nat): char
    requires i < 9
  {
    if i % 3 == 0 then 'r' else if i % 3 == 1 then 'w' else 'x'
  }

  function ColumnBit(i: nat): nat
    requires i < 9
  {
    [S_IRUSR, S_IWUSR, S_IXUSR, S_IRGRP, S_IWGRP, S_IXGRP, S_IROTH, S_IWOTH, S_IXOTH][i]
  }

  // ---------------------------------------------------------------------------
  // Printing
  // ---------------------------------------------------------------------------

  function PlainLetter(mode: Mode, i: nat): char
    requires i < 9
  {
    if ColumnBit(i) in mode then ColumnChar(i) else '-'
  }

  /** The letter of a column. */
  function Letter(mode: Mode, i: nat): char
    requires i < 9
  {
    if i == 2 && S_ISUID in mode then (if S_IXUSR in mode then 's' else 'S')
    else if i == 5 && S_ISGID in mode then (if S_IXGRP in mode then 's' else 'S')
    else PlainLetter(mode, i)
  }

  function Printed(mode: Mode): string {
    seq(9, i requires 0 <= i < 9 => Letter(mode, i))
  }

  /** The nine letters, in numbers: S_IRUSR is bit 8 and S_IXOTH bit 0, S_ISUID is bit 11 and S_ISGID bit 10. */
  lemma PrintedLetters(mode: Mode)
    ensures |Printed(mode)| == 9
    ensures forall k :: 0 <= k < 9 && k != 2 && k != 5 ==>
              Printed(mode)[k] == if 8 - k in mode then "rwxrwxrwx"[k] else '-'
    ensures Printed(mode)[2] == if 11 in mode then (if 6 in mode then 's' else 'S') else if 6 in mode then 'x' else '-'
    ensures Printed(mode)[5] == if 10 in mode then (if 3 in mode then 's' else 'S') else if 3 in mode then 'x' else '-'
  {
  }

  method PushMode(mode: Mode) returns (s: string)
    ensures s == Printed(mode)
  {
    var m := new char[9](_ => '-');
    for i := 0 to 9
      invariant forall j :: 0 <= j < i ==> m[j] == PlainLetter(mode, j)
    {
      if ColumnBit(i) in mode {
        m[i] := ColumnChar(i);
      } else {
        m[i] := '-';
      }
    }
    if S_ISUID in mode {
      if S_IXUSR in mode {
        m[2] := 's';
      } else {
        m[2] := 'S';
      }
    }
    if S_ISGID in mode {
      if S_IXGRP in mode {
        m[5] := 's';
      } else {
        m[5] := 'S';
      }
    }
    s := m[..];
  }

  // ---------------------------------------------------------------------------
  // The nine-letter format
  // ---------------------------------------------------------------------------

  /** ^[-rswx]+$ with nine characters */
  predicate IsRwx(s: string) {
    |s| == 9 && forall i :: 0 <= i < 9 ==> s[i] == '-' || s[i] == 'r' || s[i] == 's' || s[i] == 'w' || s[i] == 'x'
  }

  /** What one column adds; a letter that does not belong in it adds nothing. */
  function Column(s: string, i: nat): Mode
    requires i < 9 == |s|
  {
    if s[i] == ColumnChar(i) then {ColumnBit(i)}
    else if s[i] == 's' && i == 2 then {S_ISUID, S_IXUSR}
    else if s[i] == 's' && i == 5 then {S_ISGID, S_IXGRP}
    else {}
  }

  function Columns(s: string, n: nat): Mode
    requires n <= 9 == |s|
  {
    if n == 0 then {} else Columns(s, n - 1) + Column(s, n - 1)
  }

  predicate MisplacedS(s: string, i: nat)
    requires i < 9 == |s|
  {
    s[i] == 's' && i != 2 && i != 5
  }

  /** None is a bad mode: an 's' in a column other than the owner's and the group's execute column. */
  function ParsedRwx(s: string): Option<Mode>
    requires |s| == 9
  {
    if exists i :: 0 <= i < 9 && MisplacedS(s, i) then None else Some(Columns(s, 9))
  }

  method Rwxrwxrwx(s: string) returns (r: Option<Mode>)
    requires |s| == 9
    ensures r == ParsedRwx(s)
  {
    var mode: Mode := {};
    for i := 0 to 9
      invariant mode == Columns(s, i) && forall j :: 0 <= j < i ==> !MisplacedS(s, j)
    {
      if s[i] == ColumnChar(i) {
        mode := mode + {ColumnBit(i)};
      } else if s[i] == 's' {
        if i == 2 {
          mode := mode + {S_ISUID, S_IXUSR};
        } else if i == 5 {
          mode := mode + {S_ISGID, S_IXGRP};
        } else {
          assert MisplacedS(s, i);
          return None;
        }
      }
    }
    r := Some(mode);
  }

  /** A bit is in the parsed mode exactly when its own column asks for it. */
  lemma {:induction false} InColumns(s: string, n: nat, b: nat)
    requires n <= 9 == |s|
    ensures b in Columns(s, n) <==> exists i :: 0 <= i < n && b in Column(s, i)
  {
    if n > 0 {
      InColumns(s, n - 1, b);
    }
  }

  /** The bits of nine letters, in numbers. */
  lemma ParsedBits(s: string)
    requires |s| == 9
    ensures ParsedRwx(s).None? <==> exists k :: 0 <= k < 9 && s[k] == 's' && k != 2 && k != 5
    ensures ParsedRwx(s).Some? ==> forall b: nat :: b in ParsedRwx(s).value <==>
              if b < 9 then s[8 - b] == "xwrxwrxwr"[b] || s[8 - b] == 's'
              else (b == 11 && s[2] == 's') || (b == 10 && s[5] == 's')
  {
    if k :| 0 <= k < 9 && s[k] == 's' && k != 2 && k != 5 {
      assert MisplacedS(s, k);
    } else {
      forall b: nat
        ensures b in Columns(s, 9) <==>
                if b < 9 then s[8 - b] == "xwrxwrxwr"[b] || s[8 - b] == 's'
                else (b == 11 && s[2] == 's') || (b == 10 && s[5] == 's')
      {
        InColumns(s, 9, b);
        BitInColumn(s, b);
      }
    }
  }

  /** Which column a bit comes from. */
  lemma BitInColumn(s: string, b: nat)
    requires |s| == 9 && forall k :: 0 <= k < 9 && s[k] == 's' ==> k == 2 || k == 5
    ensures (exists i :: 0 <= i < 9 && b in Column(s, i)) <==>
            if b < 9 then s[8 - b] == "xwrxwrxwr"[b] || s[8 - b] == 's'
            else (b == 11 && s[2] == 's') || (b == 10 && s[5] == 's')
  {
    var i := if b < 9 then 8 - b else if b == 11 then 2 else 5;
    assert forall k :: 0 <= k < 9 && b in Column(s, k) ==> k == i;
    assert b in Column(s, i) <==>
           if b < 9 then s[8 - b] == "xwrxwrxwr"[b] || s[8 - b] == 's'
           else (b == 11 && s[2] == 's') || (b == 10 && s[5] == 's');
  }

  // ---------------------------------------------------------------------------
  // Printing, then parsing, and the other way round
  // ---------------------------------------------------------------------------

  /** The modes whose printed form has no 'S'. */
  predicate ExecutableIds(mode: Mode) {
    && (S_ISUID in mode ==> S_IXUSR in mode)
    && (S_ISGID in mode ==> S_IXGRP in mode)
  }

  lemma PrintedParses(mode: Mode)
    requires ExecutableIds(mode)
    ensures IsRwx(Printed(mode)) && ParsedRwx(Printed(mode)) == Some(mode * PRINTABLE)
  {
    var s := Printed(mode);
    assert forall i :: 0 <= i < 9 ==> s[i] == Letter(mode, i) && !MisplacedS(s, i);
    forall b: nat
      ensures b in Columns(s, 9) <==> b in mode * PRINTABLE
    {
      InColumns(s, 9, b);
      if b in Columns(s, 9) {
        var i :| 0 <= i < 9 && b in Column(s, i);
        assert s[i] == Letter(mode, i);
      }
      if b in mode * PRINTABLE {
        assert b in Column(s, if b == S_ISUID then 2 else if b == S_ISGID then 5 else 8 - b);
      }
    }
    assert Columns(s, 9) == mode * PRINTABLE;
  }

  /** Letters in the wrong column are read as if they were not there. */
  function Normal(s: string): string
    requires |s| == 9
  {
    seq(9, i requires 0 <= i < 9 => if s[i] == ColumnChar(i) || (s[i] == 's' && (i == 2 || i == 5)) then s[i] else '-')
  }

  lemma ParsedPrints(s: string)
    requires |s| == 9 && ParsedRwx(s).Some?
    ensures Printed(ParsedRwx(s).value) == Normal(s)
  {
    var mode := ParsedRwx(s).value;
    forall i | 0 <= i < 9
      ensures Letter(mode, i) == Normal(s)[i]
    {
      InColumns(s, 9, ColumnBit(i));
      InColumns(s, 9, S_ISUID);
      InColumns(s, 9, S_ISGID);
      assert MisplacedS(s, i) ==> false;
      assert Normal(s)[i] != '-' ==> ColumnBit(i) in Column(s, i);
      assert s[2] == 's' ==> S_ISUID in Column(s, 2);
      assert s[5] == 's' ==> S_ISGID in Column(s, 5);
    }
  }

  // ---------------------------------------------------------------------------
  // The octal format
  // ---------------------------------------------------------------------------

  /** ^[0-7]+$ */
  predicate IsOctal(s: string) { s != [] && Digits(s) }

  predicate Digits(s: string) { forall i :: 0 <= i < |s| ==> '0' <= s[i] <= '7' }

  function Digit(c: char): nat
    requires '0' <= c <= '7'
  {
    c as int - '0' as int
  }

  function OctalValue(s: string): nat
    requires Digits(s)
  {
    if s == [] then 0 else OctalValue(s[..|s| - 1]) * 8 + Digit(s[|s| - 1])
  }

  method OctalMode(s: string) returns (mode: nat)
    requires Digits(s)
    ensures mode == OctalValue(s)
  {
    mode := 0;
    for i := 0 to |s|
      invariant mode == OctalValue(s[..i])
    {
      assert s[..i + 1][..i] == s[..i];
      mode := mode * 8 + Digit(s[i]);
    }
    assert s[..|s|] == s;
  }

  function Pow8(n: nat): nat {
    if n == 0 then 1 else 8 * Pow8(n - 1)
  }

  /** Digits behind a string shift its value. */
  lemma {:induction false} OctalConcat(s: string, t: string)
    requires Digits(s) && Digits(t)
    ensures Digits(s + t) && OctalValue(s + t) == OctalValue(s) * Pow8(|t|) + OctalValue(t)
    decreases |t|
  {
    if t == [] {
      assert s + t == s;
    } else {
      var init := t[..|t| - 1];
      assert (s + t)[..|s + t| - 1] == s + init && (s + t)[|s + t| - 1] == t[|t| - 1];
      OctalConcat(s, init);
      Shift(OctalValue(s), Pow8(|init|), OctalValue(init), Digit(t[|t| - 1]));
    }
  }

  lemma Shift(v: nat, p: nat, i: nat, d: nat)
    ensures (v * p + i) * 8 + d == v * (8 * p) + (i * 8 + d)
  {
    assert v * (8 * p) == 8 * (v * p);
  }

  /** The bits of an integer. */
  function BitsOf(n: nat): Mode
    decreases n
  {
    if n == 0 then {}
    else (if n % 2 == 1 then {0} else {}) + (set b <- BitsOf(n / 2) :: b + 1)
  }

  /** The bits of 2n + e are e and, one place up, those of n. */
  lemma BitShift(n: nat, e: nat, b: nat)
    requires e < 2
    ensures b in BitsOf(2 * n + e) <==> if b == 0 then e == 1 else b - 1 in BitsOf(n)
  {
    assert (2 * n + e) / 2 == n && (2 * n + e) % 2 == e;
  }

  lemma ThreeShifts(v: nat, d2: nat, d1: nat, d0: nat, b: nat)
    requires d2 < 2 && d1 < 2 && d0 < 2
    ensures b in BitsOf(2 * (2 * (2 * v + d2) + d1) + d0) <==>
            if b < 3 then [d0, d1, d2][b] == 1 else b - 3 in BitsOf(v)
  {
    BitShift(2 * (2 * v + d2) + d1, d0, b);
    if b >= 1 {
      BitShift(2 * v + d2, d1, b - 1);
    }
    if b >= 2 {
      BitShift(v, d2, b - 2);
    }
  }

  lemma OctalParts(v: nat, d: nat)
    requires d < 8
    ensures 2 * (2 * (2 * v + d / 4) + d / 2 % 2) + d % 2 == 8 * v + d
  {
    assert d == 2 * (d / 2) + d % 2 && d / 2 == 2 * (d / 4) + d / 2 % 2;
  }

  lemma OctalShift(v: nat, d: nat, b: nat)
    requires d < 8
    ensures b in BitsOf(8 * v + d) <==> if b < 3 then b in BitsOf(d) else b - 3 in BitsOf(v)
  {
    var d0, d1, d2 := d % 2, d / 2 % 2, d / 4;
    OctalParts(v, d);
    OctalParts(0, d);
    ThreeShifts(v, d2, d1, d0, b);
    ThreeShifts(0, d2, d1, d0, b);
  }

  /** The binary digits of an octal one. */
  lemma DigitIs(c: char, b: nat)
    requires '0' <= c <= '7' && b < 3
    ensures b in BitsOf(Digit(c)) <==> (c as int - 48) / [1, 2, 4][b] % 2 == 1
  {
    var d := Digit(c);
    OctalParts(0, d);
    ThreeShifts(0, d / 4, d / 2 % 2, d % 2, b);
  }

  /** Each octal digit, counted from the right, holds three bits of the mode, and there are no others. */
  lemma {:induction false} DigitBits(s: string, k: nat, b: nat)
    requires Digits(s) && b < 3
    ensures 3 * k + b in BitsOf(OctalValue(s)) <==> k < |s| && (s[|s| - 1 - k] as int - 48) / [1, 2, 4][b] % 2 == 1
    decreases k, |s|
  {
    if s != [] {
      var init := s[..|s| - 1];
      OctalShift(OctalValue(init), Digit(s[|s| - 1]), 3 * k + b);
      DigitIs(s[|s| - 1], b);
      if k > 0 {
        DigitBits(init, k - 1, b);
      }
    }
  }

  /** The two formats agree: three octal digits print as the letters of their bits. */
  lemma OctalPrints(s: string)
    requires |s| == 3 && Digits(s)
    ensures forall k :: 0 <= k < 9 ==>
              Printed(BitsOf(OctalValue(s)))[k]
              == if (s[k / 3] as int - 48) / [4, 2, 1][k % 3] % 2 == 1 then "rwxrwxrwx"[k] else '-'
  {
    var mode := BitsOf(OctalValue(s));
    assert 10 !in mode && 11 !in mode by {
      DigitBits(s, 3, 1);
      DigitBits(s, 3, 2);
    }
    forall k | 0 <= k < 9
      ensures Printed(mode)[k]
           == if (s[k / 3] as int - 48) / [4, 2, 1][k % 3] % 2 == 1 then "rwxrwxrwx"[k] else '-'
    {
      OctalBit(s, k);
      LetterOf(mode, k);
    }
  }

  /** A column, without the set-id bits. */
  lemma LetterOf(mode: Mode, k: nat)
    requires k < 9 && 10 !in mode && 11 !in mode
    ensures Printed(mode)[k] == if 8 - k in mode then "rwxrwxrwx"[k] else '-'
  {
    PrintedLetters(mode);
    assert "rwxrwxrwx"[2] == 'x' && "rwxrwxrwx"[5] == 'x';
  }

  lemma OctalBit(s: string, k: nat)
    requires |s| == 3 && Digits(s) && k < 9
    ensures 8 - k in BitsOf(OctalValue(s)) <==> (s[k / 3] as int - 48) / [4, 2, 1][k % 3] % 2 == 1
  {
    DigitBits(s, 2 - k / 3, 2 - k % 3);
    assert 3 * (2 - k / 3) + (2 - k % 3) == 8 - k && 3 - 1 - (2 - k / 3) == k / 3;
  }
}
