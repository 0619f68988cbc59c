/** Symbolic modes such as "u+rw,go-x", mode_munch and umask (lib/posix/compat.lua). The scanner works
    on characters and follows the backtracking of the Lua pattern it stands for. */
module SymbolicModes {
  import opened ModeStrings
  import opened Options

  // ---------------------------------------------------------------------------
  // Clauses
  // ---------------------------------------------------------------------------

  /** The three captures of the pattern. */
  datatype Clause = Clause(who: string, op: char, what: string)

  /** The bits the class letters stand for. */
  function Bits(who: string): Mode {
    (if 'u' in who || 'a' in who then {S_ISUID} + S_IRWXU else {}) +
    (if 'g' in who || 'a' in who then {S_ISGID} + S_IRWXG else {}) +
    (if 'o' in who || 'a' in who then S_IRWXO else {})
  }

  /** The bits the permission letters stand for, in every class. */
  function Bobs(what: string): Mode {
    (if 'r' in what then {S_IRUSR, S_IRGRP, S_IROTH} else {}) +
    (if 'w' in what then {S_IWUSR, S_IWGRP, S_IWOTH} else {}) +
    (if 'x' in what then {S_IXUSR, S_IXGRP, S_IXOTH} else {}) +
    (if 's' in what then {S_ISUID, S_ISGID} else {})
  }

  function Apply(mode: Mode, c: Clause): Mode {
    var bits, bobs := Bits(c.who), Bobs(c.what);
    if c.op == '+' then mode + bits * bobs
    else if c.op == '-' then mode - bits * bobs
    else if c.op == '=' then (mode - bits) + bits * bobs
    else mode
  }

  /** The letters name the class that bit b belongs to: the owner's bits are 8 to 6 and 11, the group's 5 to 3
      and 10, those of others 2 to 0. */
  predicate Covers(who: string, b: nat) {
    || ((6 <= b <= 8 || b == 11) && ('u' in who || 'a' in who))
    || ((3 <= b <= 5 || b == 10) && ('g' in who || 'a' in who))
    || (b <= 2 && ('o' in who || 'a' in who))
  }

  /** The letters name the permission that bit b is. */
  predicate Permits(what: string, b: nat) {
    || ((b == 8 || b == 5 || b == 2) && 'r' in what)
    || ((b == 7 || b == 4 || b == 1) && 'w' in what)
    || ((b == 6 || b == 3 || b == 0) && 'x' in what)
    || ((b == 11 || b == 10) && 's' in what)
  }

  /** Whether bit b is set after one clause, and after all. */
  predicate AfterClause(c: Clause, b: nat, was: bool) {
    if !Covers(c.who, b) then was
    else if c.op == '=' then Permits(c.what, b)
    else if !Permits(c.what, b) then was
    else if c.op == '+' then true
    else if c.op == '-' then false
    else was
  }

  predicate AfterClauses(cs: seq<Clause>, b: nat, was: bool)
    decreases |cs|
  {
    if cs == [] then was else AfterClauses(cs[1..], b, AfterClause(cs[0], b, was))
  }

  lemma BitsAre(c: Clause, b: nat)
    ensures b in Bits(c.who) <==> Covers(c.who, b)
    ensures b in Bobs(c.what) <==> Permits(c.what, b)
  {
  }

  /** The masks do to every bit what the letters say. */
  lemma {:induction false} BitByBit(mode: Mode, cs: seq<Clause>, b: nat)
    ensures b in ApplyAll(mode, cs) <==> AfterClauses(cs, b, b in mode)
    decreases |cs|
  {
    if cs != [] {
      BitsAre(cs[0], b);
      BitByBit(Apply(mode, cs[0]), cs[1..], b);
    }
  }

  function ApplyAll(mode: Mode, cs: seq<Clause>): Mode
    decreases |cs|
  {
    if cs == [] then mode else ApplyAll(Apply(mode, cs[0]), cs[1..])
  }

  /** The bits a clause decides, and which of them it sets. */
  function Touched(c: Clause): Mode {
    if c.op == '=' then Bits(c.who) else if c.op == '+' || c.op == '-' then Bits(c.who) * Bobs(c.what) else {}
  }

  function Sets(c: Clause): Mode {
    if c.op == '+' || c.op == '=' then Bits(c.who) * Bobs(c.what) else {}
  }

  /** A whole list of clauses drops some bits and sets others, whatever the mode it starts from. */
  function DropMask(cs: seq<Clause>): Mode {
    if cs == [] then {} else Touched(cs[0]) + DropMask(cs[1..])
  }

  function SetMask(cs: seq<Clause>): Mode {
    if cs == [] then {} else (Sets(cs[0]) - DropMask(cs[1..])) + SetMask(cs[1..])
  }

  lemma {:induction false} ApplyAllIsMask(mode: Mode, cs: seq<Clause>)
    ensures ApplyAll(mode, cs) == (mode - DropMask(cs)) + SetMask(cs)
    decreases |cs|
  {
    if cs != [] {
      ApplyAllIsMask(Apply(mode, cs[0]), cs[1..]);
    }
  }

  /** Every bit is decided by the last clause that touches it, and by the mode if there is none. */
  ghost predicate LastTouch(cs: seq<Clause>, b: nat, i: nat) {
    i < |cs| && b in Touched(cs[i]) && forall j :: i < j < |cs| ==> b !in Touched(cs[j])
  }

  lemma {:induction false} LastTouchDecides(mode: Mode, cs: seq<Clause>, b: nat)
    ensures (forall i :: 0 <= i < |cs| ==> b !in Touched(cs[i])) ==> (b in ApplyAll(mode, cs) <==> b in mode)
    ensures forall i: nat :: LastTouch(cs, b, i) ==> (b in ApplyAll(mode, cs) <==> b in Sets(cs[i]))
    decreases |cs|
  {
    if cs != [] {
      var tail := cs[1..];
      LastTouchDecides(Apply(mode, cs[0]), tail, b);
      assert forall i :: 0 <= i < |tail| ==> tail[i] == cs[i + 1];
      forall i: nat | LastTouch(cs, b, i)
        ensures b in ApplyAll(mode, cs) <==> b in Sets(cs[i])
      {
        if i > 0 {
          assert LastTouch(tail, b, i - 1);
        } else {
          assert forall j :: 0 <= j < |tail| ==> b !in Touched(tail[j]);
        }
      }
    }
  }

  /** Bits of classes that no clause names stay as they are. */
  lemma UnnamedUnchanged(mode: Mode, cs: seq<Clause>, b: nat)
    requires forall i :: 0 <= i < |cs| ==> !Covers(cs[i].who, b)
    ensures b in ApplyAll(mode, cs) <==> b in mode
  {
    forall i | 0 <= i < |cs| ensures b !in Touched(cs[i]) {
      BitsAre(cs[i], b);
    }
    LastTouchDecides(mode, cs, b);
  }

  lemma Idempotent(mode: Mode, cs: seq<Clause>)
    ensures ApplyAll(ApplyAll(mode, cs), cs) == ApplyAll(mode, cs)
  {
    ApplyAllIsMask(mode, cs);
    ApplyAllIsMask(ApplyAll(mode, cs), cs);
  }

  lemma {:induction false} ApplyAllAppend(mode: Mode, cs: seq<Clause>, ds: seq<Clause>)
    ensures ApplyAll(mode, cs + ds) == ApplyAll(ApplyAll(mode, cs), ds)
    decreases |cs|
  {
    if cs == [] {
      assert cs + ds == ds;
    } else {
      assert (cs + ds)[1..] == cs[1..] + ds;
      ApplyAllAppend(Apply(mode, cs[0]), cs[1..], ds);
    }
  }

  /** The letters name the class x, which is one of 'u', 'g' and 'o'. */
  predicate Names(who: string, x: char) { x in who || 'a' in who }

  /** Neighbouring clauses for different classes can change places. */
  lemma DisjointCommute(mode: Mode, before: seq<Clause>, c: Clause, d: Clause, after: seq<Clause>)
    requires forall x :: x == 'u' || x == 'g' || x == 'o' ==> !(Names(c.who, x) && Names(d.who, x))
    ensures ApplyAll(mode, before + [c, d] + after) == ApplyAll(mode, before + [d, c] + after)
  {
    var m := ApplyAll(mode, before);
    ApplyAllAppend(mode, before, [c, d]);
    ApplyAllAppend(mode, before, [d, c]);
    ApplyAllAppend(mode, before + [c, d], after);
    ApplyAllAppend(mode, before + [d, c], after);
    assert [c, d][1..] == [d] && [d, c][1..] == [c];
    BitsApart(c.who, d.who);
    ApplyCommutes(m, c, d);
  }

  lemma BitsApart(who: string, who': string)
    requires forall x :: x == 'u' || x == 'g' || x == 'o' ==> !(Names(who, x) && Names(who', x))
    ensures Bits(who) !! Bits(who')
  {
    assert !(Names(who, 'u') && Names(who', 'u')) && !(Names(who, 'g') && Names(who', 'g'))
        && !(Names(who, 'o') && Names(who', 'o'));
    var c, d := Clause(who, '=', ""), Clause(who', '=', "");
    forall b | b in Bits(who) && b in Bits(who') ensures false {
      BitsAre(c, b);
      BitsAre(d, b);
    }
  }

  lemma ApplyCommutes(m: Mode, c: Clause, d: Clause)
    requires Bits(c.who) !! Bits(d.who)
    ensures Apply(Apply(m, c), d) == Apply(Apply(m, d), c)
  {
  }

  // ---------------------------------------------------------------------------
  // The scanner
  // ---------------------------------------------------------------------------

  /** %a and %s in the C locale */
  predicate IsAlpha(c: char) { 'a' <= c <= 'z' || 'A' <= c <= 'Z' }

  predicate IsSpace(c: char) { c == ' ' || 9 <= c as int <= 13 }

  predicate IsComma(c: char) { c == ',' }

  /** By their ASCII codes. */
  lemma ClassCodes(c: char)
    ensures IsAlpha(c) <==> 65 <= c as int <= 90 || 97 <= c as int <= 122
    ensures IsSpace(c) <==> 9 <= c as int <= 13 || c as int == 32
  {
  }

  /** How many characters of a class come first. */
  function Run(s: string, belongs: char -> bool): (n: nat)
    ensures n <= |s| && (n < |s| ==> !belongs(s[n])) && forall i :: 0 <= i < n ==> belongs(s[i])
  {
    if s == [] || !belongs(s[0]) then 0 else 1 + Run(s[1..], belongs)
  }

  /** A match and what follows it. */
  datatype Match = NoMatch | Match(clause: Clause, rest: string)

  /** (.)%s*(%a+),* after `who` and the first spaces: the rest of the pattern cannot backtrack. */
  function MatchOp(who: string, s: string): (m: Match)
    ensures m.Match? ==> |m.rest| < |s|
  {
    if s == [] then NoMatch
    else
      var t := s[1..];
      var u := t[Run(t, IsSpace)..];
      var n := Run(u, IsAlpha);
      if n == 0 then NoMatch
      else
        var v := u[n..];
        Match(Clause(who, s[0], u[..n]), v[Run(v, IsComma)..])
  }

  /** %s*(.)... after `who`: the longest run of spaces is tried first. */
  function MatchSpaces(who: string, s: string, n: nat): (m: Match)
    requires n <= |s|
    ensures m.Match? ==> |m.rest| < |s|
    decreases n
  {
    var m := MatchOp(who, s[n..]);
    if m.Match? || n == 0 then m else MatchSpaces(who, s, n - 1)
  }

  /** (%a+)%s*(.)...: the longest run of letters is tried first. */
  function MatchWho(s: string, n: nat): (m: Match)
    requires n <= |s|
    ensures m.Match? ==> |m.rest| < |s|
    decreases n
  {
    if n == 0 then NoMatch
    else
      var t := s[n..];
      var m := MatchSpaces(s[..n], t, Run(t, IsSpace));
      if m.Match? then m else MatchWho(s, n - 1)
  }

  /** %s*(%a+)%s*(.)%s*(%a+),* at the start of s */
  function MatchClause(s: string): (m: Match)
    ensures m.Match? ==> |m.rest| < |s|
  {
    var t := s[Run(s, IsSpace)..];
    MatchWho(t, Run(t, IsAlpha))
  }

  /** The clauses gsub hands to its callback, in order: where nothing matches it moves on by one. */
  function Scan(s: string): seq<Clause>
    decreases |s|
  {
    if s == [] then []
    else match MatchClause(s)
      case Match(c, rest) => [c] + Scan(rest)
      case NoMatch => Scan(s[1..])
  }

  // ---------------------------------------------------------------------------
  // Well-formed strings scan to what they say
  // ---------------------------------------------------------------------------

  /** A clause as written: spaces before it and around the operator, commas behind it. */
  datatype Written = Written(clause: Clause, spaces: string, left: string, right: string, commas: string)

  ghost predicate WellWritten(w: Written) {
    && AllAlpha(w.clause.who) && AllAlpha(w.clause.what) && !IsAlpha(w.clause.op) && !IsSpace(w.clause.op)
    && AllSpace(w.spaces) && AllSpace(w.left) && AllSpace(w.right)
    && (forall i :: 0 <= i < |w.commas| ==> w.commas[i] == ',')
  }

  ghost predicate AllAlpha(s: string) { s != [] && forall i :: 0 <= i < |s| ==> IsAlpha(s[i]) }

  ghost predicate AllSpace(s: string) { forall i :: 0 <= i < |s| ==> IsSpace(s[i]) }

  /** Every clause but the last has a comma behind it. */
  ghost predicate WellWrittenList(ws: seq<Written>) {
    && (forall i :: 0 <= i < |ws| ==> WellWritten(ws[i]))
    && (forall i :: 0 <= i < |ws| - 1 ==> ws[i].commas != [])
  }

  /** A written clause, followed by more. */
  function Text(w: Written, rest: string): string {
    w.spaces + (w.clause.who + (w.left + ([w.clause.op] + (w.right + (w.clause.what + (w.commas + rest))))))
  }

  function TextAll(ws: seq<Written>): string {
    if ws == [] then "" else Text(ws[0], TextAll(ws[1..]))
  }

  function Clauses(ws: seq<Written>): seq<Clause> {
    if ws == [] then [] else [ws[0].clause] + Clauses(ws[1..])
  }

  lemma {:induction false} RunIs(s: string, t: string, belongs: char -> bool)
    requires (forall i :: 0 <= i < |s| ==> belongs(s[i])) && (t == [] || !belongs(t[0]))
    ensures Run(s + t, belongs) == |s| && (s + t)[|s|..] == t && (s + t)[..|s|] == s
  {
    if s == [] {
      assert s + t == t;
    } else {
      assert (s + t)[1..] == s[1..] + t;
      RunIs(s[1..], t, belongs);
    }
  }

  lemma MatchOpWritten(w: Written, rest: string)
    requires WellWritten(w)
    requires rest == [] || (rest[0] != ',' && (w.commas == [] ==> !IsAlpha(rest[0])))
    ensures MatchOp(w.clause.who, [w.clause.op] + (w.right + (w.clause.what + (w.commas + rest))))
        == Match(w.clause, rest)
  {
    var s5 := w.commas + rest;
    var s4 := w.clause.what + s5;
    var s3 := w.right + s4;
    assert ([w.clause.op] + s3)[1..] == s3;
    RunIs(w.right, s4, IsSpace);
    RunIs(w.clause.what, s5, IsAlpha);
    RunIs(w.commas, rest, IsComma);
  }

  /** One clause is matched exactly, and what follows it is left. */
  lemma MatchWritten(w: Written, rest: string)
    requires WellWritten(w)
    requires rest == [] || (rest[0] != ',' && (w.commas == [] ==> !IsAlpha(rest[0])))
    ensures MatchClause(Text(w, rest)) == Match(w.clause, rest)
  {
    var s2 := [w.clause.op] + (w.right + (w.clause.what + (w.commas + rest)));
    MatchOpWritten(w, rest);
    MatchWhoWritten(w.clause.who, w.left, s2, Match(w.clause, rest));
    var s0 := w.clause.who + (w.left + s2);
    RunIs(w.spaces, s0, IsSpace);
  }

  lemma MatchWhoWritten(who: string, left: string, s: string, m: Match)
    requires AllAlpha(who) && AllSpace(left) && s != [] && !IsSpace(s[0]) && !IsAlpha(s[0])
    requires m.Match? && MatchOp(who, s) == m
    ensures var t := who + (left + s); MatchWho(t, Run(t, IsAlpha)) == m
  {
    RunIs(who, left + s, IsAlpha);
    RunIs(left, s, IsSpace);
  }

  /** Scanning inverts writing. */
  lemma {:induction false} ScanInvertsText(ws: seq<Written>)
    requires WellWrittenList(ws)
    ensures Scan(TextAll(ws)) == Clauses(ws)
    decreases |ws|
  {
    if ws != [] {
      ScanInvertsText(ws[1..]);
      if |ws| > 1 {
        TextBegins(ws[1], TextAll(ws[1..][1..]));
      }
      ScanNext(ws[0], TextAll(ws[1..]));
    }
  }

  lemma TextBegins(w: Written, rest: string)
    requires WellWritten(w)
    ensures Text(w, rest) != [] && Text(w, rest)[0] != ','
  {
    if w.spaces == [] {
      assert Text(w, rest)[0] == w.clause.who[0];
    } else {
      assert Text(w, rest)[0] == w.spaces[0];
    }
  }

  lemma ScanNext(w: Written, rest: string)
    requires WellWritten(w)
    requires rest == [] || (rest[0] != ',' && (w.commas == [] ==> !IsAlpha(rest[0])))
    ensures Scan(Text(w, rest)) == [w.clause] + Scan(rest)
  {
    MatchWritten(w, rest);
    TextBegins(w, rest);
  }

  // ---------------------------------------------------------------------------
  // mode_munch
  // ---------------------------------------------------------------------------

  predicate IsClass(c: char) { c == 'u' || c == 'g' || c == 'o' || c == 'a' }

  predicate IsPerm(c: char) { c == 'r' || c == 's' || c == 'w' || c == 'x' }

  /** ^[ugoa]+%s*[-+=]%s*[rswx]+,* : the classes do not overlap, so nothing is ever given back. */
  predicate IsSymbolic(s: string) { Run(s, IsClass) > 0 && IsSymbolicTail(s[Run(s, IsClass)..]) }

  predicate IsSymbolicTail(t: string) {
    var u := t[Run(t, IsSpace)..];
    && u != [] && (u[0] == '-' || u[0] == '+' || u[0] == '=')
    && var v := u[1..];
       var w := v[Run(v, IsSpace)..];
       w != [] && IsPerm(w[0])
  }

  /** No string has two of the formats. */
  lemma FormatsDisjoint(s: string)
    ensures !(IsRwx(s) && IsOctal(s)) && !(IsRwx(s) && IsSymbolic(s)) && !(IsOctal(s) && IsSymbolic(s))
  {
    if IsRwx(s) {
      assert s[0] == '-' || s[0] == 'r' || s[0] == 's' || s[0] == 'w' || s[0] == 'x';
      StartsNoClass(s);
    } else if IsOctal(s) {
      assert '0' <= s[0] <= '7';
      StartsNoClass(s);
    }
  }

  lemma StartsNoClass(s: string)
    requires s != [] && !IsClass(s[0])
    ensures !IsSymbolic(s)
  {
    assert Run(s, IsClass) == 0;
  }

  /** None is a bad mode. */
  function Munched(mode: Mode, s: string): Option<Mode> {
    if IsRwx(s) then ParsedRwx(s)
    else if IsOctal(s) then Some(BitsOf(OctalValue(s)))
    else if IsSymbolic(s) then Some(ApplyAll(mode, Scan(s)))
    else None
  }

  method ModeMunch(mode: Mode, modestr: string) returns (r: Option<Mode>)
    ensures r == Munched(mode, modestr)
  {
    if IsRwx(modestr) {
      r := Rwxrwxrwx(modestr);
    } else if IsOctal(modestr) {
      var value := OctalMode(modestr);
      r := Some(BitsOf(value));
    } else if IsSymbolic(modestr) {
      var m, rest := mode, modestr;
      while rest != []
        invariant ApplyAll(m, Scan(rest)) == ApplyAll(mode, Scan(modestr))
        decreases |rest|
      {
        match MatchClause(rest) {
          case NoMatch =>
            rest := rest[1..];
          case Match(c, next) =>
            assert ([c] + Scan(next))[1..] == Scan(next);
            var bits, bobs := Bits(c.who), Bobs(c.what);
            if c.op == '+' {
              m := m + bits * bobs;
            } else if c.op == '-' {
              m := m - bits * bobs;
            } else if c.op == '=' {
              m := (m - bits) + bits * bobs;
            }
            rest := next;
        }
      }
      r := Some(m);
    } else {
      r := None;
    }
  }

  /** A printed 'S' is in none of the formats. */
  lemma CapitalIsBad(mode: Mode)
    requires !ExecutableIds(mode)
    ensures !IsRwx(Printed(mode)) && !IsOctal(Printed(mode)) && !IsSymbolic(Printed(mode))
  {
    var s := Printed(mode);
    assert s[0] == PlainLetter(mode, 0);
    assert !IsOctal(s) && Run(s, IsClass) == 0;
    if S_ISUID in mode && S_IXUSR !in mode {
      assert s[2] == 'S';
    } else {
      assert s[5] == 'S';
    }
  }

  /** Parsing inverts printing exactly for the modes whose set-id bits come with the execute bit. */
  lemma MunchInvertsPrint(start: Mode, mode: Mode)
    ensures Munched(start, Printed(mode)) == (if ExecutableIds(mode) then Some(mode * PRINTABLE) else None)
  {
    if ExecutableIds(mode) {
      PrintedParses(mode);
    } else {
      CapitalIsBad(mode);
    }
  }

  lemma {:induction false} RunStops(s: string, t: string, belongs: char -> bool)
    requires Run(s, belongs) < |s|
    ensures Run(s + t, belongs) == Run(s, belongs)
  {
    if belongs(s[0]) {
      assert (s + t)[1..] == s[1..] + t;
      RunStops(s[1..], t, belongs);
    }
  }

  /** What mode_munch asks of the first clause: no spaces before it, class letters only, a known
      operator, and a permission letter first. */
  ghost predicate GoodFirst(w: Written) {
    && w.spaces == [] && Run(w.clause.who, IsClass) == |w.clause.who|
    && (w.clause.op == '-' || w.clause.op == '+' || w.clause.op == '=')
    && w.clause.what != [] && IsPerm(w.clause.what[0])
  }

  /** Behind the class letters: the operator and the first permission letter decide. */
  lemma TailIff(w: Written, rest: string)
    requires WellWritten(w)
    ensures IsSymbolicTail(w.left + ([w.clause.op] + (w.right + (w.clause.what + (w.commas + rest))))) <==>
            (w.clause.op == '-' || w.clause.op == '+' || w.clause.op == '=') && IsPerm(w.clause.what[0])
  {
    var s4 := w.clause.what + (w.commas + rest);
    var s3 := w.right + s4;
    var s2 := [w.clause.op] + s3;
    assert s2[1..] == s3;
    RunIs(w.left, s2, IsSpace);
    RunIs(w.right, s4, IsSpace);
  }

  /** A letter that is no class letter ends the class, and then no operator follows. */
  lemma BadClass(who: string, t: string)
    requires AllAlpha(who) && Run(who, IsClass) < |who|
    ensures !IsSymbolic(who + t)
  {
    var k := Run(who, IsClass);
    RunStops(who, t, IsClass);
    var u := (who + t)[k..];
    assert u[0] == who[k] && IsAlpha(who[k]);
    assert Run(u, IsSpace) == 0 && u[0..] == u;
  }

  /** A well-written string is taken for a symbolic mode exactly by its first clause. */
  lemma SymbolicIff(w: Written, rest: string)
    requires WellWritten(w)
    ensures IsSymbolic(Text(w, rest)) <==> GoodFirst(w)
  {
    var s1 := w.left + ([w.clause.op] + (w.right + (w.clause.what + (w.commas + rest))));
    if w.spaces != [] {
      assert Text(w, rest)[0] == w.spaces[0];
      assert Run(Text(w, rest), IsClass) == 0;
    } else {
      assert Text(w, rest) == w.clause.who + s1;
      if Run(w.clause.who, IsClass) < |w.clause.who| {
        BadClass(w.clause.who, s1);
      } else {
        RunIs(w.clause.who, s1, IsClass);
        TailIff(w, rest);
      }
    }
  }

  /** A well-written string does what its clauses say when its first clause is good; otherwise it is a
      bad mode, unless it happens to have the nine-letter format. */
  lemma MunchWritten(mode: Mode, ws: seq<Written>)
    requires ws != [] && WellWrittenList(ws)
    ensures GoodFirst(ws[0]) ==>
              && Munched(mode, TextAll(ws)) == Some((mode - DropMask(Clauses(ws))) + SetMask(Clauses(ws)))
              && forall b :: b in Munched(mode, TextAll(ws)).value <==> AfterClauses(Clauses(ws), b, b in mode)
    ensures !GoodFirst(ws[0]) && !IsRwx(TextAll(ws)) ==> Munched(mode, TextAll(ws)) == None
  {
    var rest := TextAll(ws[1..]);
    SymbolicIff(ws[0], rest);
    FormatsDisjoint(TextAll(ws));
    NotOctal(ws[0], rest);
    ScanInvertsText(ws);
    ApplyAllIsMask(mode, Clauses(ws));
    forall b: nat ensures b in ApplyAll(mode, Clauses(ws)) <==> AfterClauses(Clauses(ws), b, b in mode) {
      BitByBit(mode, Clauses(ws), b);
    }
  }

  /** A string of one clause, for one class. */
  lemma MunchOne(mode: Mode, who: char, op: char, what: string)
    requires IsClass(who) && what != [] && forall k :: 0 <= k < |what| ==> IsPerm(what[k])
    requires op == '+' || op == '-' || op == '='
    ensures var r := Munched(mode, [who, op] + what);
            r.Some? && forall b :: b in r.value <==> AfterClause(Clause([who], op, what), b, b in mode)
  {
    var w := Written(Clause([who], op, what), "", "", "", "");
    PlainIsGood(w);
    PlainText(w);
    assert [who, op] + what == w.clause.who + [w.clause.op] + w.clause.what;
    MunchPlain(mode, w);
  }

  lemma MunchPlain(mode: Mode, w: Written)
    requires WellWritten(w) && GoodFirst(w)
    ensures var r := Munched(mode, TextAll([w]));
            r.Some? && forall b :: b in r.value <==> AfterClause(w.clause, b, b in mode)
  {
    MunchBits(mode, [w]);
    OnlyClause(w);
  }

  lemma MunchBits(mode: Mode, ws: seq<Written>)
    requires ws != [] && WellWrittenList(ws) && GoodFirst(ws[0])
    ensures var r := Munched(mode, TextAll(ws));
            r.Some? && forall b :: b in r.value <==> AfterClauses(Clauses(ws), b, b in mode)
  {
    MunchWritten(mode, ws);
  }

  lemma OnlyClause(w: Written)
    ensures forall b: nat, was: bool :: AfterClauses(Clauses([w]), b, was) == AfterClause(w.clause, b, was)
  {
    assert [w][1..] == [];
    assert Clauses([w]) == [w.clause] && [w.clause][1..] == [];
  }

  lemma PlainIsGood(w: Written)
    requires |w.clause.who| == 1 && IsClass(w.clause.who[0])
    requires w.clause.what != [] && forall k :: 0 <= k < |w.clause.what| ==> IsPerm(w.clause.what[k])
    requires w.clause.op == '+' || w.clause.op == '-' || w.clause.op == '='
    requires w.spaces == w.left == w.right == w.commas == ""
    ensures WellWritten(w) && GoodFirst(w)
  {
    assert w.clause.who[1..] == [];
  }

  /** A clause written without spaces and commas. */
  lemma PlainText(w: Written)
    requires w.spaces == w.left == w.right == w.commas == ""
    ensures TextAll([w]) == w.clause.who + [w.clause.op] + w.clause.what && Clauses([w]) == [w.clause]
  {
    assert [w][1..] == [];
  }

  /** In numbers: "u+r" to "o+x" set one bit each, "u-r" to "o-x" clear it, "u=r" to "o=x" leave it as the
      only one of the class, and 's' is S_ISUID, which is 11, or S_ISGID, which is 10. */
  lemma OneBit(mode: Mode, i: nat, j: nat)
    requires i < 3 && j < 3
    ensures Letters(mode, "ugo"[i], '+', "rwx"[j]) == Some(mode + {8 - 3 * i - j})
    ensures Letters(mode, "ugo"[i], '-', "rwx"[j]) == Some(mode - {8 - 3 * i - j})
    ensures Letters(mode, "ugo"[i], '=', "rwx"[j])
         == Some((mode - [{11, 8, 7, 6}, {10, 5, 4, 3}, {2, 1, 0}][i]) + {8 - 3 * i - j})
    ensures Letters(mode, 'a', '+', "rwx"[j]) == Some(mode + {8 - j, 5 - j, 2 - j})
    ensures Letters(mode, "ugo"[i], '+', 's') == Some(mode + [{11}, {10}, {}][i])
  {
    LetterAdds(mode, i, j);
    LetterRemoves(mode, i, j);
    LetterAssigns(mode, i, j);
    LetterAddsAll(mode, j);
    LetterAddsId(mode, i);
  }

  /** mode_munch on three letters. */
  function Letters(mode: Mode, who: char, op: char, what: char): Option<Mode> { Munched(mode, [who, op, what]) }

  lemma LettersDo(mode: Mode, who: char, op: char, what: char)
    requires IsClass(who) && IsPerm(what) && (op == '+' || op == '-' || op == '=')
    ensures var r := Letters(mode, who, op, what);
            r.Some? && forall b :: b in r.value <==> AfterClause(Clause([who], op, [what]), b, b in mode)
  {
    assert [who, op] + [what] == [who, op, what];
    MunchOne(mode, who, op, [what]);
  }

  lemma LetterAdds(mode: Mode, i: nat, j: nat)
    requires i < 3 && j < 3
    ensures Letters(mode, "ugo"[i], '+', "rwx"[j])
         == Some(mode + {8 - 3 * i - j})
  {
    LettersDo(mode, "ugo"[i], '+', "rwx"[j]);
    LetterAddsSet(mode, Letters(mode, "ugo"[i], '+', "rwx"[j]).value, i, j);
  }

  lemma LetterAddsSet(mode: Mode, r: Mode, i: nat, j: nat)
    requires i < 3 && j < 3
    requires forall b: nat :: b in r <==> AfterClause(Clause(["ugo"[i]], '+', ["rwx"[j]]), b, b in mode)
    ensures r == mode + {8 - 3 * i - j}
  {
  }

  lemma LetterRemoves(mode: Mode, i: nat, j: nat)
    requires i < 3 && j < 3
    ensures Letters(mode, "ugo"[i], '-', "rwx"[j])
         == Some(mode - {8 - 3 * i - j})
  {
    LettersDo(mode, "ugo"[i], '-', "rwx"[j]);
    LetterRemovesSet(mode, Letters(mode, "ugo"[i], '-', "rwx"[j]).value, i, j);
  }

  lemma LetterRemovesSet(mode: Mode, r: Mode, i: nat, j: nat)
    requires i < 3 && j < 3
    requires forall b: nat :: b in r <==> AfterClause(Clause(["ugo"[i]], '-', ["rwx"[j]]), b, b in mode)
    ensures r == mode - {8 - 3 * i - j}
  {
  }

  lemma LetterAssigns(mode: Mode, i: nat, j: nat)
    requires i < 3 && j < 3
    ensures Letters(mode, "ugo"[i], '=', "rwx"[j])
         == Some((mode - [{11, 8, 7, 6}, {10, 5, 4, 3}, {2, 1, 0}][i]) + {8 - 3 * i - j})
  {
    LettersDo(mode, "ugo"[i], '=', "rwx"[j]);
    LetterAssignsSet(mode, Letters(mode, "ugo"[i], '=', "rwx"[j]).value, i, j);
  }

  lemma LetterAssignsSet(mode: Mode, r: Mode, i: nat, j: nat)
    requires i < 3 && j < 3
    requires forall b: nat :: b in r <==> AfterClause(Clause(["ugo"[i]], '=', ["rwx"[j]]), b, b in mode)
    ensures r == (mode - [{11, 8, 7, 6}, {10, 5, 4, 3}, {2, 1, 0}][i]) + {8 - 3 * i - j}
  {
  }

  lemma LetterAddsAll(mode: Mode, j: nat)
    requires j < 3
    ensures Letters(mode, 'a', '+', "rwx"[j])
         == Some(mode + {8 - j, 5 - j, 2 - j})
  {
    LettersDo(mode, 'a', '+', "rwx"[j]);
    LetterAddsAllSet(mode, Letters(mode, 'a', '+', "rwx"[j]).value, j);
  }

  lemma LetterAddsAllSet(mode: Mode, r: Mode, j: nat)
    requires j < 3
    requires forall b: nat :: b in r <==> AfterClause(Clause(['a'], '+', ["rwx"[j]]), b, b in mode)
    ensures r == mode + {8 - j, 5 - j, 2 - j}
  {
  }

  lemma LetterAddsId(mode: Mode, i: nat)
    requires i < 3
    ensures Letters(mode, "ugo"[i], '+', 's')
         == Some(mode + [{11}, {10}, {}][i])
  {
    LettersDo(mode, "ugo"[i], '+', 's');
    LetterAddsIdSet(mode, Letters(mode, "ugo"[i], '+', 's').value, i);
  }

  lemma LetterAddsIdSet(mode: Mode, r: Mode, i: nat)
    requires i < 3
    requires forall b: nat :: b in r <==> AfterClause(Clause(["ugo"[i]], '+', ['s']), b, b in mode)
    ensures r == mode + [{11}, {10}, {}][i]
  {
  }

  /** Two formats meet: after "u=...", "g=..." or "o=..." on any mode, the printed letters of that class are those
      written, and the six others are as before. */
  lemma AssignedPrints(mode: Mode, i: nat, what: string)
    requires i < 3
    requires what != [] && forall k :: 0 <= k < |what| ==> what[k] in "rwxs"
    ensures var r := Munched(mode, ["ugo"[i], '='] + what);
            && r.Some?
            && forall k :: 0 <= k < 9 ==>
                 Printed(r.value)[k]
                 == if k / 3 != i then Printed(mode)[k]
                    else if k % 3 == 2 && i < 2 && 's' in what then (if 'x' in what then 's' else 'S')
                    else if "rwx"[k % 3] in what then "rwx"[k % 3] else '-'
  {
    MunchOne(mode, "ugo"[i], '=', what);
    PrintedLetters(mode);
    PrintedLetters(Munched(mode, ["ugo"[i], '='] + what).value);
  }

  /** And three octal digits, on any mode, print as the letters of their bits. */
  lemma OctalMunched(mode: Mode, s: string)
    requires |s| == 3 && forall k :: 0 <= k < 3 ==> 48 <= s[k] as int <= 55
    ensures var r := Munched(mode, s);
            && r.Some?
            && forall k :: 0 <= k < 9 ==>
                 Printed(r.value)[k]
                 == if (s[k / 3] as int - 48) / [4, 2, 1][k % 3] % 2 == 1 then "rwxrwxrwx"[k] else '-'
  {
    OctalPrints(s);
  }

  lemma NotOctal(w: Written, rest: string)
    requires WellWritten(w)
    ensures !IsOctal(Text(w, rest))
  {
    var s0 := w.clause.who + (w.left + ([w.clause.op] + (w.right + (w.clause.what + (w.commas + rest)))));
    assert s0[0] == w.clause.who[0];
    assert (w.spaces + s0)[|w.spaces|] == s0[0];
  }

  // ---------------------------------------------------------------------------
  // umask
  // ---------------------------------------------------------------------------

  datatype Answer = Answer(modestr: string) | BadMode

  lemma MaskLaws(all: Mode, mask: Mode)
    requires mask <= all
    ensures mask * all == mask && (all - mask) * all == all - mask && all - (all - mask) == mask
  {
  }

  /** The process's file mode creation mask. */
  class Process {
    var mask: Mode

    constructor (mask: Mode)
      requires mask <= RWXALL
      ensures Valid() && this.mask == mask
    {
      this.mask := mask;
    }

    predicate Valid()
      reads this
    {
      mask <= RWXALL
    }

    /** umask(2): the kernel keeps the permission bits only. */
    method SysUmask(newMask: Mode) returns (oldMask: Mode)
      modifies this
      ensures oldMask == old(mask) && mask == newMask * RWXALL
    {
      oldMask := mask;
      mask := newMask * RWXALL;
    }

    /** bnot(mode), as far as anything looks at it afterwards. */
    static function Bnot(mode: Mode): (r: Mode)
      ensures r == r * RWXALL
    {
      RWXALL - mode
    }

    /** Without an argument nothing changes; every answer is what the next call without an argument gives. */
    method Umask(modestr: string) returns (answer: Answer)
      requires Valid()
      modifies this
      ensures Valid()
      ensures modestr == "" ==> answer.Answer? && mask == old(mask)
      ensures modestr != "" ==>
                match Munched(RWXALL - old(mask), modestr)
                case None => answer == BadMode && mask == old(mask)
                case Some(bits) => answer.Answer? && mask == RWXALL - bits
      ensures answer.Answer? ==> answer.modestr == Printed(RWXALL - mask)
    {
      MaskLaws(RWXALL, mask);
      var mode := SysUmask({});
      var _ := SysUmask(mode);
      mode := Bnot(mode) * RWXALL;
      if modestr != "" {
        var bits := ModeMunch(mode, modestr);
        if bits.None? {
          return BadMode;
        }
        MaskLaws(RWXALL, bits.value * RWXALL);
        mode := bits.value * RWXALL;
        var _ := SysUmask(Bnot(mode));
      }
      var s := PushMode(mode);
      answer := Answer(s);
    }

    /** The printed complement of a mask is a mode string, for that complement. */
    static lemma AnswerIsAccepted(m: Mode)
      requires m <= RWXALL
      ensures |Printed(RWXALL - m)| == 9 && Munched(RWXALL - m, Printed(RWXALL - m)) == Some(RWXALL - m)
      ensures RWXALL - (RWXALL - m) == m
    {
      MunchInvertsPrint(RWXALL - m, RWXALL - m);
      assert (RWXALL - m) * PRINTABLE == RWXALL - m;
    }

    /** Any number of readings after a setting repeat its answer, and passing the answer back in changes nothing. */
    method SetAndRead(modestr: string, n: nat) returns (answer: Answer, read: Answer, again: Answer)
      requires Valid()
      modifies this
      ensures answer.Answer? ==>
        read == answer && again == answer && Valid() && answer.modestr == Printed(RWXALL - mask)
    {
      answer := Umask(modestr);
      read := answer;
      again := answer;
      if answer.Answer? {
        ghost var m := mask;
        for i := 0 to n
          invariant Valid() && mask == m && read == answer
        {
          read := Umask("");
        }
        AnswerIsAccepted(m);
        again := Umask(read.modestr);
      }
    }
  }
}
