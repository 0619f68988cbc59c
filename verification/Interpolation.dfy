/** Variable interpolation in the bundled build tool (build-aux/luke, module luke.environment):
    layered environments with a lookup cache, and substitution repeated until nothing changes. */
module Interpolation {
  import opened Options

  // ---------------------------------------------------------------------------
  // Layered environments
  // ---------------------------------------------------------------------------

  /** A table of variables, or the process environment. */
  class Layer {
    var vars: map<string, string>

    constructor (vars: map<string, string>)
      ensures this.vars == vars
    {
      this.vars := vars;
    }
  }

  /** The first layer that has the variable decides. */
  function FirstMatch(layers: seq<map<string, string>>, name: string): Option<string> {
    if layers == [] then None
    else if name in layers[0] then Some(layers[0][name])
    else FirstMatch(layers[1..], name)
  }

  lemma {:induction false} FirstMatchConcat(xs: seq<map<string, string>>, ys: seq<map<string, string>>, name: string)
    ensures FirstMatch(xs + ys, name)
         == if FirstMatch(xs, name).Some? then FirstMatch(xs, name) else FirstMatch(ys, name)
  {
    if xs == [] {
      assert xs + ys == ys;
    } else {
      assert (xs + ys)[1..] == xs[1..] + ys;
      FirstMatchConcat(xs[1..], ys, name);
    }
  }

  function Decimal(n: nat): string {
    if n < 10 then ["0123456789"[n]] else Decimal(n / 10) + ["0123456789"[n % 10]]
  }

  /** The number that decimal digits stand for. */
  function Reading(s: string): int {
    if s == [] then 0 else 10 * Reading(s[..|s| - 1]) + (s[|s| - 1] as int - 48)
  }

  lemma {:induction false} DecimalReads(n: nat)
    ensures Reading(Decimal(n)) == n && (forall i :: 0 <= i < |Decimal(n)| ==> '0' <= Decimal(n)[i] <= '9')
    ensures Decimal(n) != [] && (n > 0 ==> Decimal(n)[0] != '0')
    decreases n
  {
    if n >= 10 {
      DecimalReads(n / 10);
      assert Decimal(n)[..|Decimal(n)| - 1] == Decimal(n / 10);
    } else {
      assert Decimal(n)[..0] == [];
    }
  }

  /** No layer has the variable. */
  ghost predicate Nowhere(layers: seq<map<string, string>>, name: string) {
    forall i :: 0 <= i < |layers| ==> name !in layers[i]
  }

  /** The first layer that has it is the i-th. */
  ghost predicate FirstAt(layers: seq<map<string, string>>, name: string, i: nat) {
    i < |layers| && name in layers[i] && forall j :: 0 <= j < i ==> name !in layers[j]
  }

  lemma {:induction false} FirstMatchIs(layers: seq<map<string, string>>, name: string)
    ensures Nowhere(layers, name) ==> FirstMatch(layers, name) == None
    ensures forall i: nat :: FirstAt(layers, name, i) ==> FirstMatch(layers, name) == Some(layers[i][name])
  {
    if layers != [] && name !in layers[0] {
      FirstMatchIs(layers[1..], name);
      forall i: nat | FirstAt(layers, name, i)
        ensures i > 0 && FirstAt(layers[1..], name, i - 1)
      {
      }
    }
  }

  /** The list of layers is the environment table itself, and so is its field `n`: a variable of that
      name is the number of layers. */
  function Answer(layers: seq<map<string, string>>, name: string): Option<string> {
    if name == "n" then Some(Decimal(|layers|)) else FirstMatch(layers, name)
  }

  ghost function Contents(layers: seq<Layer>): (r: seq<map<string, string>>)
    reads layers
    ensures |r| == |layers| && forall i :: 0 <= i < |layers| ==> r[i] == layers[i].vars
  {
    if layers == [] then [] else [layers[0].vars] + Contents(layers[1..])
  }

  /** What makeenv is given: nil, a table, or an environment made before. */
  datatype Argument = Nil | Table(layer: Layer) | Nested(env: Env)

  function Flatten(args: seq<Argument>): seq<Layer>
    reads set a | a in args && a.Nested? :: a.env
  {
    if args == [] then []
    else LayersOf(args[0]) + Flatten(args[1..])
  }

  function LayersOf(arg: Argument): seq<Layer>
    reads if arg.Nested? then {arg.env} else {}
  {
    match arg case Nil => [] case Table(l) => [l] case Nested(e) => e.layers
  }

  class Env {
    var layers: seq<Layer>
    /** The variables that have been looked up, as raw fields of the table. */
    var cache: map<string, string>

    constructor (layers: seq<Layer>)
      ensures this.layers == layers && cache == map[]
    {
      this.layers := layers;
      this.cache := map[];
    }

    /** What is cached is still what the layers say. */
    ghost predicate Coherent()
      reads this, layers
    {
      forall name :: name in cache ==> FirstMatch(Contents(layers), name) == Some(cache[name])
    }

    /** Indexing the environment: a raw field first, then the layers, caching what they give. An
        environment without layers has no field `n` either, and looking for that never ends. */
    method Get(name: string) returns (value: Option<string>)
      requires layers != []
      modifies this`cache
      ensures value == if name != "n" && name in old(cache) then Some(old(cache)[name])
                       else Answer(Contents(layers), name)
      ensures cache == old(cache) || (value.Some? && cache == old(cache)[name := value.value])
      ensures old(Coherent()) ==> Coherent() && value == Answer(Contents(layers), name)
    {
      if name == "n" {
        return Some(Decimal(|layers|));
      }
      if name in cache {
        return Some(cache[name]);
      }
      ghost var contents := Contents(layers);
      for i := 0 to |layers|
        invariant cache == old(cache) && Contents(layers) == contents
        invariant FirstMatch(contents, name) == FirstMatch(contents[i..], name)
      {
        if name in layers[i].vars {
          var v := layers[i].vars[name];
          cache := cache[name := v];
          return Some(v);
        }
        assert contents[i..][1..] == contents[i + 1..];
      }
      value := None;
    }
  }

  /** What one argument says about a variable. */
  ghost function Ask(arg: Argument, name: string): Option<string>
    reads if arg.Nested? then {arg.env} else {}, LayersOf(arg)
  {
    match arg
    case Nil => None
    case Table(l) => assert l == LayersOf(arg)[0]; if name in l.vars then Some(l.vars[name]) else None
    case Nested(e) => FirstMatch(Contents(e.layers), name)
  }

  ghost function AskEach(args: seq<Argument>, name: string): Option<string>
    reads set a | a in args && a.Nested? :: a.env
    reads set l | l in Flatten(args)
  {
    if args == [] then None
    else
      assert args[0] in args;
      assert (forall l | l in LayersOf(args[0]) :: l in Flatten(args))
          && (forall l | l in Flatten(args[1..]) :: l in Flatten(args));
      if Ask(args[0], name).Some? then Ask(args[0], name) else AskEach(args[1..], name)
  }

  lemma {:induction false} ContentsConcat(xs: seq<Layer>, ys: seq<Layer>)
    ensures Contents(xs + ys) == Contents(xs) + Contents(ys)
  {
    if xs == [] {
      assert xs + ys == ys;
    } else {
      assert (xs + ys)[1..] == xs[1..] + ys;
      ContentsConcat(xs[1..], ys);
    }
  }

  /** The flattened layers of a new environment, nested ones included, answer as its parts would, asked
      one after the other. */
  lemma {:induction false} NestedLookup(args: seq<Argument>, name: string)
    ensures FirstMatch(Contents(Flatten(args)), name) == AskEach(args, name)
  {
    if args != [] {
      NestedLookup(args[1..], name);
      ContentsConcat(LayersOf(args[0]), Flatten(args[1..]));
      FirstMatchConcat(Contents(LayersOf(args[0])), Contents(Flatten(args[1..])), name);
    }
  }

  lemma NestedLookups(args: seq<Argument>)
    ensures forall name :: FirstMatch(Contents(Flatten(args)), name) == AskEach(args, name)
  {
    forall name ensures FirstMatch(Contents(Flatten(args)), name) == AskEach(args, name) {
      NestedLookup(args, name);
    }
  }

  lemma FlattenNext(args: seq<Argument>, i: nat, before: seq<Layer>)
    requires i < |args|
    ensures before + Flatten(args[i..]) == (before + LayersOf(args[i])) + Flatten(args[i + 1..])
  {
    assert args[i..][1..] == args[i + 1..];
  }

  method MakeEnv(args: seq<Argument>) returns (env: Env)
    ensures fresh(env) && env.layers == Flatten(args) && env.cache == map[] && env.Coherent()
    ensures forall name :: FirstMatch(Contents(env.layers), name) == AskEach(args, name)
  {
    var layers: seq<Layer> := [];
    for i := 0 to |args|
      invariant layers + Flatten(args[i..]) == Flatten(args)
    {
      FlattenNext(args, i, layers);
      layers := layers + LayersOf(args[i]);
    }
    assert args[|args|..] == [];
    env := new Env(layers);
    assert Flatten(args) == layers;
    NestedLookups(args);
  }

  // ---------------------------------------------------------------------------
  // Text and its variable references
  // ---------------------------------------------------------------------------

  /** The value of every variable; interpolation takes the empty string for one that has none. */
  type Values = string -> string

  datatype Token = Char(c: char) | Ref(name: string)

  /** [%w_] */
  predicate IsWord(c: char) { 'a' <= c <= 'z' || 'A' <= c <= 'Z' || '0' <= c <= '9' || c == '_' }

  /** Letters, digits and underscores of ASCII, by their codes. */
  lemma WordCodes(c: char)
    ensures IsWord(c) <==> 48 <= c as int <= 57 || 65 <= c as int <= 90 || 97 <= c as int <= 122 || c as int == 95
  {
  }

  function WordRun(s: string): (n: nat)
    ensures n <= |s| && (n < |s| ==> !IsWord(s[n])) && forall i :: 0 <= i < n ==> IsWord(s[i])
  {
    if s == [] || !IsWord(s[0]) then 0 else 1 + WordRun(s[1..])
  }

  /** A dollar sign with a word behind it is a reference to that variable. */
  function Tokens(s: string): seq<Token>
    decreases |s|
  {
    if s == [] then []
    else if s[0] == '$' && WordRun(s[1..]) > 0 then
      var n := WordRun(s[1..]);
      [Ref(s[1..][..n])] + Tokens(s[1..][n..])
    else [Char(s[0])] + Tokens(s[1..])
  }

  function Spelled(ts: seq<Token>): string {
    if ts == [] then []
    else match ts[0] case Char(c) => [c] + Spelled(ts[1..]) case Ref(name) => ['$'] + (name + Spelled(ts[1..]))
  }

  /** gsub(s, '%$([%w_]+)', value) */
  function Pass(s: string, values: Values): string
    decreases |s|
  {
    if s == [] then []
    else if s[0] == '$' && WordRun(s[1..]) > 0 then
      var n := WordRun(s[1..]);
      values(s[1..][..n]) + Pass(s[1..][n..], values)
    else [s[0]] + Pass(s[1..], values)
  }

  /** The same on tokens: every reference becomes the tokens of its value. */
  function Expand(ts: seq<Token>, values: Values): seq<Token> {
    if ts == [] then []
    else (match ts[0] case Char(c) => [ts[0]] case Ref(name) => Tokens(values(name))) + Expand(ts[1..], values)
  }

  predicate IsName(name: string) { name != [] && forall j :: 0 <= j < |name| ==> IsWord(name[j]) }

  /** A name or a lone dollar sign in front of these tokens would run into them. */
  predicate StartsWord(ts: seq<Token>) { ts != [] && ts[0].Char? && IsWord(ts[0].c) }

  /** Tokens that nothing runs together. */
  predicate Canonical(ts: seq<Token>) {
    ts == [] ||
    (Canonical(ts[1..]) &&
     match ts[0]
     case Char(c) => c == '$' ==> !StartsWord(ts[1..])
     case Ref(name) => IsName(name) && !StartsWord(ts[1..]))
  }

  lemma {:induction false} WordRunIs(w: string, rest: string)
    requires (forall i :: 0 <= i < |w| ==> IsWord(w[i])) && (rest == [] || !IsWord(rest[0]))
    ensures WordRun(w + rest) == |w| && (w + rest)[..|w|] == w && (w + rest)[|w|..] == rest
  {
    if w == [] {
      assert w + rest == rest;
    } else {
      assert (w + rest)[1..] == w[1..] + rest;
      WordRunIs(w[1..], rest);
    }
  }

  /** Spelled tokens read back as themselves exactly when nothing runs together. */
  lemma {:induction false} TokensInvertSpelled(ts: seq<Token>)
    ensures Tokens(Spelled(ts)) == ts <==> Canonical(ts)
  {
    if Canonical(ts) {
      ReadsBack(ts);
    } else {
      TokensCanonical(Spelled(ts));
    }
  }

  lemma {:induction false} ReadsBack(ts: seq<Token>)
    requires Canonical(ts)
    ensures Tokens(Spelled(ts)) == ts
  {
    if ts != [] {
      var rest := Spelled(ts[1..]);
      ReadsBack(ts[1..]);
      match ts[0]
      case Char(c) =>
        CharToken(c, rest);
        assert ts == [ts[0]] + ts[1..];
      case Ref(name) =>
        RefToken(name, rest);
        assert ts == [ts[0]] + ts[1..];
    }
  }

  lemma CharToken(c: char, rest: string)
    requires c == '$' ==> rest == [] || !IsWord(rest[0])
    ensures Tokens([c] + rest) == [Char(c)] + Tokens(rest)
  {
    assert ([c] + rest)[1..] == rest;
  }

  lemma {:induction false} TokensCanonical(s: string)
    ensures Canonical(Tokens(s)) && (StartsWord(Tokens(s)) <==> s != [] && IsWord(s[0]))
    decreases |s|
  {
    if s != [] {
      var (t, rest) := FirstToken(s);
      TokensCanonical(rest);
      assert ([t] + Tokens(rest))[1..] == Tokens(rest);
    }
  }

  lemma RefToken(name: string, rest: string)
    requires IsName(name) && (rest == [] || !IsWord(rest[0]))
    ensures Tokens(['$'] + (name + rest)) == [Ref(name)] + Tokens(rest)
  {
    var s := ['$'] + (name + rest);
    assert s[1..] == name + rest;
    WordRunIs(name, rest);
  }

  lemma {:induction false} SpelledInvertsTokens(s: string)
    ensures Spelled(Tokens(s)) == s
    decreases |s|
  {
    if s != [] {
      var (t, rest) := FirstToken(s);
      SpelledInvertsTokens(rest);
      assert ([t] + Tokens(rest))[1..] == Tokens(rest);
    }
  }

  /** The first token of a string and what follows it. */
  function FirstToken(s: string): (r: (Token, string))
    requires s != []
    ensures |r.1| < |s| && Tokens(s) == [r.0] + Tokens(r.1)
    ensures s == match r.0 case Char(c) => [c] + r.1 case Ref(name) => ['$'] + (name + r.1)
    ensures r.1 != [] && IsWord(r.1[0]) ==> r.0.Char? && r.0.c != '$'
    ensures r.0.Ref? ==> IsName(r.0.name)
  {
    if s[0] == '$' && WordRun(s[1..]) > 0 then
      var n := WordRun(s[1..]);
      assert s[1..] == s[1..][..n] + s[1..][n..];
      (Ref(s[1..][..n]), s[1..][n..])
    else (Char(s[0]), s[1..])
  }

  lemma Associative(a: string, b: string, c: string)
    ensures a + (b + c) == (a + b) + c
  {
  }

  lemma {:induction false} SpelledConcat(ts: seq<Token>, us: seq<Token>)
    ensures Spelled(ts + us) == Spelled(ts) + Spelled(us)
  {
    if ts == [] {
      assert ts + us == us;
    } else {
      assert (ts + us)[1..] == ts[1..] + us;
      SpelledConcat(ts[1..], us);
      var rest, more := Spelled(ts[1..]), Spelled(us);
      match ts[0]
      case Char(c) => Associative([c], rest, more);
      case Ref(name) => Associative(name, rest, more); Associative(['$'], name + rest, more);
    }
  }

  /** One pass over the characters is one expansion of the tokens. */
  lemma {:induction false} PassIsExpand(s: string, values: Values)
    ensures Pass(s, values) == Spelled(Expand(Tokens(s), values))
    decreases |s|
  {
    if s != [] {
      if s[0] == '$' && WordRun(s[1..]) > 0 {
        var n := WordRun(s[1..]);
        PassIsExpand(s[1..][n..], values);
        var value := values(s[1..][..n]);
        assert Tokens(s)[1..] == Tokens(s[1..][n..]);
        SpelledInvertsTokens(value);
        SpelledConcat(Tokens(value), Expand(Tokens(s[1..][n..]), values));
      } else {
        PassIsExpand(s[1..], values);
        assert Tokens(s)[1..] == Tokens(s[1..]);
        SpelledConcat([Char(s[0])], Expand(Tokens(s[1..]), values));
      }
    }
  }

  lemma {:induction false} ExpandConcat(ts: seq<Token>, us: seq<Token>, values: Values)
    ensures Expand(ts + us, values) == Expand(ts, values) + Expand(us, values)
  {
    if ts == [] {
      assert ts + us == us;
    } else {
      assert (ts + us)[1..] == ts[1..] + us;
      ExpandConcat(ts[1..], us, values);
    }
  }

  function Iterate<T>(g: T -> T, x: T, k: nat): T {
    if k == 0 then x else g(Iterate(g, x, k - 1))
  }

  lemma {:induction false} IterateFirst<T>(g: T -> T, x: T, k: nat)
    ensures Iterate(g, x, k + 1) == Iterate(g, g(x), k)
  {
    if k > 0 {
      IterateFirst(g, x, k - 1);
    }
  }

  lemma {:induction false} IterateConcat<T(!new)>(g: seq<T> -> seq<T>, x: seq<T>, y: seq<T>, k: nat)
    requires forall u, v :: g(u + v) == g(u) + g(v)
    ensures Iterate(g, x + y, k) == Iterate(g, x, k) + Iterate(g, y, k)
  {
    if k > 0 {
      IterateConcat(g, x, y, k - 1);
    }
  }

  lemma {:induction false} IterateFixed<T>(g: T -> T, x: T, h: nat, k: nat)
    requires h <= k && g(Iterate(g, x, h)) == Iterate(g, x, h)
    ensures Iterate(g, x, k) == Iterate(g, x, h)
    decreases k
  {
    if h < k {
      IterateFixed(g, x, h, k - 1);
    }
  }

  lemma {:induction false} IterateAdd<T>(g: T -> T, x: T, j: nat, k: nat)
    ensures Iterate(g, Iterate(g, x, j), k) == Iterate(g, x, j + k)
  {
    if k > 0 {
      IterateAdd(g, x, j, k - 1);
    }
  }

  lemma IterateChanges<T>(g: T -> T, x: T, h: nat, k: nat)
    requires g(Iterate(g, x, h)) == Iterate(g, x, h) && Iterate(g, x, k + 1) != Iterate(g, x, k)
    ensures k < h
  {
    if h <= k {
      IterateFixed(g, x, h, k);
    }
  }

  function ExpandN(ts: seq<Token>, values: Values, k: nat): seq<Token> {
    Iterate((us: seq<Token>) => Expand(us, values), ts, k)
  }

  lemma ExpandNConcat(ts: seq<Token>, us: seq<Token>, values: Values, k: nat)
    ensures ExpandN(ts + us, values, k) == ExpandN(ts, values, k) + ExpandN(us, values, k)
  {
    var g := (us: seq<Token>) => Expand(us, values);
    forall u, v ensures g(u + v) == g(u) + g(v) {
      ExpandConcat(u, v, values);
    }
    IterateConcat(g, ts, us, k);
  }

  lemma ExpandNFirst(ts: seq<Token>, values: Values, k: nat)
    ensures ExpandN(ts, values, k + 1) == ExpandN(Expand(ts, values), values, k)
  {
    IterateFirst((us: seq<Token>) => Expand(us, values), ts, k);
  }

  // ---------------------------------------------------------------------------
  // When passes over the characters follow the tokens
  // ---------------------------------------------------------------------------

  /** k passes */
  function Passes(s: string, values: Values, k: nat): string {
    Iterate((t: string) => Pass(t, values), s, k)
  }

  /** No number of substitutions makes references out of pieces. */
  ghost predicate Follows(s: string, values: Values) {
    forall k: nat :: NothingFuses(s, values, k)
  }

  predicate NothingFuses(s: string, values: Values, k: nat) { Canonical(ExpandN(Tokens(s), values, k)) }

  predicate FollowsAt(s: string, values: Values, k: nat) {
    Tokens(Passes(s, values, k)) == ExpandN(Tokens(s), values, k)
  }

  lemma PassFollows(t: string, values: Values)
    requires Canonical(Expand(Tokens(t), values))
    ensures Tokens(Pass(t, values)) == Expand(Tokens(t), values)
  {
    PassIsExpand(t, values);
    TokensInvertSpelled(Expand(Tokens(t), values));
  }

  lemma {:induction false} PassesFollow(s: string, values: Values, k: nat)
    requires forall j: nat :: j <= k ==> NothingFuses(s, values, j)
    ensures FollowsAt(s, values, k)
  {
    if k > 0 {
      PassesFollow(s, values, k - 1);
      assert NothingFuses(s, values, k);
      PassFollows(Passes(s, values, k - 1), values);
    }
  }

  /** The passes read what the references stand for, and nothing else, exactly when nothing fuses. */
  lemma FollowIff(s: string, values: Values)
    ensures (forall k: nat :: FollowsAt(s, values, k)) <==> Follows(s, values)
  {
    if Follows(s, values) {
      forall k: nat ensures FollowsAt(s, values, k) {
        PassesFollow(s, values, k);
      }
    } else {
      var k: nat :| !NothingFuses(s, values, k);
      TokensCanonical(Passes(s, values, k));
      assert !FollowsAt(s, values, k);
    }
  }

  /** Where these tokens begin a name ends, and still does after any substitution: the variables in
      `safe` have such values. */
  ghost predicate Stops(ts: seq<Token>, safe: iset<string>) {
    ts == [] || match ts[0] case Char(c) => !IsWord(c) case Ref(name) => name in safe
  }

  ghost predicate Safe(safe: iset<string>, values: Values) {
    forall name :: name in safe ==> Tokens(values(name)) != [] && Stops(Tokens(values(name)), safe)
  }

  predicate EndsPlain(ts: seq<Token>) { ts != [] && ts[|ts| - 1].Char? && ts[|ts| - 1].c != '$' }

  /** A test of each place in the text, given which variables are safe: behind a dollar sign or a
      reference a name stops, or else the reference's own value ends in a plain character. */
  ghost predicate Apart(ts: seq<Token>, values: Values, safe: iset<string>) {
    ts == [] ||
    (Apart(ts[1..], values, safe) &&
     match ts[0]
     case Char(c) => c == '$' ==> Stops(ts[1..], safe)
     case Ref(name) =>
       && IsName(name)
       && (Stops(ts[1..], safe) || (!StartsWord(ts[1..]) && EndsPlain(Tokens(values(name))))))
  }

  lemma {:induction false} ApartConcat(ts: seq<Token>, us: seq<Token>, values: Values, safe: iset<string>)
    requires Apart(ts, values, safe) && Apart(us, values, safe) && (Stops(us, safe) || EndsPlain(ts))
    ensures Apart(ts + us, values, safe)
  {
    if ts == [] {
      assert ts + us == us;
    } else {
      assert (ts + us)[1..] == ts[1..] + us;
      if |ts| == 1 {
        assert ts[1..] + us == us;
      } else {
        ApartConcat(ts[1..], us, values, safe);
      }
    }
  }

  lemma {:induction false} ApartCanonical(ts: seq<Token>, values: Values, safe: iset<string>)
    requires Apart(ts, values, safe)
    ensures Canonical(ts)
  {
    if ts != [] {
      ApartCanonical(ts[1..], values, safe);
    }
  }

  /** Every value that can be substituted passes the test. */
  ghost predicate AllApart(dom: iset<string>, values: Values, safe: iset<string>) {
    && Safe(safe, values)
    && forall name :: name in dom ==> Apart(Tokens(values(name)), values, safe) && Within(Tokens(values(name)), dom)
  }

  ghost predicate Within(ts: seq<Token>, dom: iset<string>) { forall name :: name in Names(ts) ==> name in dom }

  lemma {:induction false} ApartExpand(ts: seq<Token>, values: Values, dom: iset<string>, safe: iset<string>)
    requires AllApart(dom, values, safe) && Apart(ts, values, safe) && Within(ts, dom)
    ensures Apart(Expand(ts, values), values, safe) && Within(Expand(ts, values), dom)
    ensures Stops(ts, safe) ==> Stops(Expand(ts, values), safe)
    decreases |ts|
  {
    if ts != [] {
      ApartExpand(ts[1..], values, dom, safe);
      var first := match ts[0] case Char(c) => [ts[0]] case Ref(name) => Tokens(values(name));
      var rest := Expand(ts[1..], values);
      assert ts[0].Ref? ==> ts[0].name in Names(ts);
      if ts[0].Char? {
        assert first[1..] == [] && Apart(first[1..], values, safe);
      } else {
        assert ts[0].name in dom;
      }
      ApartConcat(first, rest, values, safe);
      NamesConcat(first, rest);
    }
  }

  /** The test is enough: what passes it never fuses. */
  lemma ApartFollows(s: string, values: Values, dom: iset<string>, safe: iset<string>)
    requires AllApart(dom, values, safe) && Apart(Tokens(s), values, safe) && Within(Tokens(s), dom)
    ensures Follows(s, values)
  {
    forall k: nat ensures NothingFuses(s, values, k) {
      ApartExpandN(Tokens(s), values, dom, safe, k);
      ApartCanonical(ExpandN(Tokens(s), values, k), values, safe);
    }
  }

  lemma {:induction false} ApartExpandN(ts: seq<Token>, values: Values, dom: iset<string>, safe: iset<string>, k: nat)
    requires AllApart(dom, values, safe) && Apart(ts, values, safe) && Within(ts, dom)
    ensures Apart(ExpandN(ts, values, k), values, safe) && Within(ExpandN(ts, values, k), dom)
  {
    if k > 0 {
      ApartExpandN(ts, values, dom, safe, k - 1);
      ApartExpand(ExpandN(ts, values, k - 1), values, dom, safe);
    }
  }

  // ---------------------------------------------------------------------------
  // Which references come to rest
  // ---------------------------------------------------------------------------

  function Names(ts: seq<Token>): set<string> {
    if ts == [] then {} else (match ts[0] case Char(c) => {} case Ref(name) => {name}) + Names(ts[1..])
  }

  predicate Plain(ts: seq<Token>) { Names(ts) == {} }

  /** No expansion leads out of the set: the value of each of its variables mentions only such variables. */
  ghost predicate Closed(rest: iset<string>, values: Values) {
    forall name :: name in rest ==> Within(Tokens(values(name)), rest)
  }

  /** After some number of expansions only variables of the set are mentioned. */
  ghost predicate Rests(ts: seq<Token>, values: Values, rest: iset<string>) {
    exists k: nat :: RestsIn(ts, values, rest, k)
  }

  ghost predicate RestsIn(ts: seq<Token>, values: Values, rest: iset<string>, k: nat) {
    Within(ExpandN(ts, values, k), rest)
  }

  lemma {:induction false} NamesConcat(ts: seq<Token>, us: seq<Token>)
    ensures Names(ts + us) == Names(ts) + Names(us)
  {
    if ts == [] {
      assert ts + us == us;
    } else {
      assert (ts + us)[1..] == ts[1..] + us;
      NamesConcat(ts[1..], us);
    }
  }

  lemma {:induction false} ExpandWithin(ts: seq<Token>, values: Values, rest: iset<string>)
    requires Closed(rest, values) && Within(ts, rest)
    ensures Within(Expand(ts, values), rest)
  {
    if ts != [] {
      ExpandWithin(ts[1..], values, rest);
      var first := match ts[0] case Char(c) => [ts[0]] case Ref(name) => Tokens(values(name));
      NamesConcat(first, Expand(ts[1..], values));
    }
  }

  lemma {:induction false} RestsStay(ts: seq<Token>, values: Values, rest: iset<string>, j: nat, k: nat)
    requires Closed(rest, values) && j <= k && RestsIn(ts, values, rest, j)
    ensures RestsIn(ts, values, rest, k)
  {
    if j < k {
      RestsStay(ts, values, rest, j, k - 1);
      ExpandWithin(ExpandN(ts, values, k - 1), values, rest);
    }
  }

  lemma RestsInConcat(ts: seq<Token>, us: seq<Token>, values: Values, rest: iset<string>, k: nat)
    ensures RestsIn(ts + us, values, rest, k) <==> RestsIn(ts, values, rest, k) && RestsIn(us, values, rest, k)
  {
    ExpandNConcat(ts, us, values, k);
    NamesConcat(ExpandN(ts, values, k), ExpandN(us, values, k));
  }

  lemma RestsBoth(ts: seq<Token>, us: seq<Token>, values: Values, rest: iset<string>)
    requires Closed(rest, values) && Rests(ts, values, rest) && Rests(us, values, rest)
    ensures Rests(ts + us, values, rest)
  {
    var i: nat :| RestsIn(ts, values, rest, i);
    var j: nat :| RestsIn(us, values, rest, j);
    RestsInBoth(ts, us, values, rest, i, j, i + j);
  }

  lemma RestsInBoth(ts: seq<Token>, us: seq<Token>, values: Values, rest: iset<string>, i: nat, j: nat, k: nat)
    requires Closed(rest, values) && RestsIn(ts, values, rest, i) && RestsIn(us, values, rest, j) && i <= k && j <= k
    ensures RestsIn(ts + us, values, rest, k)
  {
    RestsStay(ts, values, rest, i, k);
    RestsStay(us, values, rest, j, k);
    RestsInConcat(ts, us, values, rest, k);
  }

  lemma RestsParts(ts: seq<Token>, us: seq<Token>, values: Values, rest: iset<string>)
    requires Rests(ts + us, values, rest)
    ensures Rests(ts, values, rest) && Rests(us, values, rest)
  {
    var k: nat :| RestsIn(ts + us, values, rest, k);
    RestsInConcat(ts, us, values, rest, k);
  }

  lemma ExpandRef(name: string, values: Values, k: nat)
    ensures ExpandN([Ref(name)], values, k + 1) == ExpandN(Tokens(values(name)), values, k)
  {
    ExpandNFirst([Ref(name)], values, k);
    assert Expand([Ref(name)], values) == Tokens(values(name));
  }

  lemma RestsRef(name: string, values: Values, rest: iset<string>)
    requires Closed(rest, values)
    ensures Rests([Ref(name)], values, rest) <==> Rests(Tokens(values(name)), values, rest)
  {
    if Rests([Ref(name)], values, rest) {
      var k: nat :| RestsIn([Ref(name)], values, rest, k);
      RestsStay([Ref(name)], values, rest, k, k + 1);
      ExpandRef(name, values, k);
      assert RestsIn(Tokens(values(name)), values, rest, k);
    } else if Rests(Tokens(values(name)), values, rest) {
      var k: nat :| RestsIn(Tokens(values(name)), values, rest, k);
      ExpandRef(name, values, k);
      assert RestsIn([Ref(name)], values, rest, k + 1);
    }
  }

  /** Text comes to rest when each of its references does. */
  lemma {:induction false} RestsEach(ts: seq<Token>, values: Values, rest: iset<string>)
    requires Closed(rest, values)
    ensures Rests(ts, values, rest) <==> EachRests(ts, values, rest)
  {
    if ts == [] {
      assert RestsIn(ts, values, rest, 0);
    } else {
      RestsEach(ts[1..], values, rest);
      RestsFirst(ts, values, rest);
      EachRestsFirst(ts, values, rest);
    }
  }

  ghost predicate EachRests(ts: seq<Token>, values: Values, rest: iset<string>) {
    forall name :: name in Names(ts) ==> Rests([Ref(name)], values, rest)
  }

  lemma EachRestsFirst(ts: seq<Token>, values: Values, rest: iset<string>)
    requires ts != []
    ensures EachRests(ts, values, rest) <==> Rests([ts[0]], values, rest) && EachRests(ts[1..], values, rest)
  {
    match ts[0]
    case Char(c) =>
      assert RestsIn([ts[0]], values, rest, 0);
      assert Names(ts) == Names(ts[1..]);
    case Ref(name) =>
      assert forall m :: m in Names(ts) <==> m == name || m in Names(ts[1..]);
  }

  lemma RestsFirst(ts: seq<Token>, values: Values, rest: iset<string>)
    requires Closed(rest, values) && ts != []
    ensures Rests(ts, values, rest) <==> Rests([ts[0]], values, rest) && Rests(ts[1..], values, rest)
  {
    assert ts == [ts[0]] + ts[1..];
    if Rests(ts, values, rest) {
      RestsParts([ts[0]], ts[1..], values, rest);
    } else if Rests([ts[0]], values, rest) && Rests(ts[1..], values, rest) {
      RestsBoth([ts[0]], ts[1..], values, rest);
    }
  }

  ghost predicate Mentions(ts: seq<Token>, circle: iset<string>) { exists name :: name in Names(ts) && name in circle }

  /** Every variable of the circle refers to one of the circle. */
  ghost predicate Circular(circle: iset<string>, values: Values) {
    forall name {:trigger LeadsInto(name, circle, values)} :: name in circle ==> LeadsInto(name, circle, values)
  }

  ghost predicate LeadsInto(name: string, circle: iset<string>, values: Values) {
    Mentions(Tokens(values(name)), circle)
  }

  /** The text leads into a circle of other variables than those of the set. */
  ghost predicate InCircle(ts: seq<Token>, values: Values, rest: iset<string>) {
    exists circle :: Circular(circle, values) && Mentions(ts, circle) && circle !! rest
  }

  lemma MentionsPart(ts: seq<Token>, us: seq<Token>, circle: iset<string>)
    requires Mentions(ts, circle) && Names(ts) <= Names(us)
    ensures Mentions(us, circle)
  {
  }

  lemma {:induction false} MentionsExpand(ts: seq<Token>, circle: iset<string>, values: Values)
    requires Circular(circle, values) && Mentions(ts, circle)
    ensures Mentions(Expand(ts, values), circle)
  {
    var name :| name in Names(ts) && name in circle;
    var first := match ts[0] case Char(c) => [ts[0]] case Ref(name) => Tokens(values(name));
    NamesConcat(first, Expand(ts[1..], values));
    if ts[0] == Ref(name) {
      assert LeadsInto(name, circle, values);
      MentionsPart(first, Expand(ts, values), circle);
    } else {
      MentionsExpand(ts[1..], circle, values);
      MentionsPart(Expand(ts[1..], values), Expand(ts, values), circle);
    }
  }

  lemma {:induction false} MentionsStay(ts: seq<Token>, circle: iset<string>, values: Values, k: nat)
    requires Circular(circle, values) && Mentions(ts, circle)
    ensures Mentions(ExpandN(ts, values, k), circle)
  {
    if k > 0 {
      MentionsStay(ts, circle, values, k - 1);
      MentionsExpand(ExpandN(ts, values, k - 1), circle, values);
    }
  }

  lemma CircleNeverRests(ts: seq<Token>, values: Values, rest: iset<string>, circle: iset<string>)
    requires Circular(circle, values) && Mentions(ts, circle) && circle !! rest
    ensures !Rests(ts, values, rest)
  {
    if k: nat :| RestsIn(ts, values, rest, k) {
      MentionsStay(ts, circle, values, k);
      MeetsWithin(ExpandN(ts, values, k), circle, rest);
    }
  }

  lemma MeetsWithin(ts: seq<Token>, circle: iset<string>, rest: iset<string>)
    requires Mentions(ts, circle) && Within(ts, rest)
    ensures !(circle !! rest)
  {
    var name :| name in Names(ts) && name in circle;
    assert name in rest;
  }

  /** References never come to rest exactly when they lead into a circle of others. */
  lemma CircleIff(ts: seq<Token>, values: Values, rest: iset<string>)
    requires Closed(rest, values)
    ensures !Rests(ts, values, rest) <==> InCircle(ts, values, rest)
  {
    if circle :| Circular(circle, values) && Mentions(ts, circle) && circle !! rest {
      CircleNeverRests(ts, values, rest, circle);
    }
    if !Rests(ts, values, rest) {
      var circle := iset name | !Rests([Ref(name)], values, rest);
      forall name | name in circle ensures LeadsInto(name, circle, values) {
        RestsRef(name, values, rest);
        RestsEach(Tokens(values(name)), values, rest);
      }
      RestsEach(ts, values, rest);
      forall name | name in rest ensures name !in circle {
        assert RestsIn([Ref(name)], values, rest, 0);
      }
      assert Circular(circle, values) && Mentions(ts, circle) && circle !! rest;
    }
  }

  // ---------------------------------------------------------------------------
  // Ranked variables
  // ---------------------------------------------------------------------------

  ghost predicate Below(names: set<string>, ranks: imap<string, nat>, h: nat) {
    forall name :: name in names ==> name in ranks && ranks[name] < h
  }

  /** No ranked variable refers to itself, however indirectly: its value refers to lower ranks only. */
  ghost predicate Ranked(values: Values, ranks: imap<string, nat>) {
    forall name :: name in ranks ==> Below(Names(Tokens(values(name))), ranks, ranks[name])
  }

  /** All variables that the text leads to are ranked; others need not be. */
  ghost predicate Grounded(ts: seq<Token>, values: Values, ranks: imap<string, nat>) {
    Ranked(values, ranks) && Within(ts, ranks.Keys)
  }

  /** One more than the highest rank referred to; 0 without references. */
  ghost function Height(ts: seq<Token>, ranks: imap<string, nat>): nat
    requires Within(ts, ranks.Keys)
  {
    if ts == [] then 0
    else
      var h := Height(ts[1..], ranks);
      if ts[0].Ref? && ranks[ts[0].name] + 1 > h then ranks[ts[0].name] + 1 else h
  }

  lemma {:induction false} HeightBound(ts: seq<Token>, ranks: imap<string, nat>, h: nat)
    requires Within(ts, ranks.Keys)
    ensures Height(ts, ranks) <= h <==> Below(Names(ts), ranks, h)
  {
    if ts != [] {
      HeightBound(ts[1..], ranks, h);
    }
  }

  function Max(a: nat, b: nat): nat { if a > b then a else b }

  lemma {:induction false} HeightConcat(ts: seq<Token>, us: seq<Token>, ranks: imap<string, nat>)
    requires Within(ts, ranks.Keys) && Within(us, ranks.Keys)
    ensures Within(ts + us, ranks.Keys) && Height(ts + us, ranks) == Max(Height(ts, ranks), Height(us, ranks))
  {
    NamesConcat(ts, us);
    if ts == [] {
      assert ts + us == us;
    } else {
      assert (ts + us)[1..] == ts[1..] + us;
      HeightConcat(ts[1..], us, ranks);
    }
  }

  /** Every pass lowers the height, until nothing refers to anything. */
  lemma {:induction false} ExpandLowers(ts: seq<Token>, values: Values, ranks: imap<string, nat>)
    requires Grounded(ts, values, ranks)
    ensures Grounded(Expand(ts, values), values, ranks)
    ensures Height(ts, ranks) > 0 ==> Height(Expand(ts, values), ranks) < Height(ts, ranks)
    ensures Height(ts, ranks) == 0 ==> Expand(ts, values) == ts
    decreases |ts|
  {
    if ts != [] {
      ExpandLowers(ts[1..], values, ranks);
      match ts[0]
      case Char(_) => HeightConcat([ts[0]], Expand(ts[1..], values), ranks);
      case Ref(name) =>
        HeightBound(Tokens(values(name)), ranks, ranks[name]);
        HeightConcat(Tokens(values(name)), Expand(ts[1..], values), ranks);
    }
  }

  lemma {:induction false} ExpandNLowers(ts: seq<Token>, values: Values, ranks: imap<string, nat>, k: nat)
    requires Grounded(ts, values, ranks)
    ensures Grounded(ExpandN(ts, values, k), values, ranks)
    ensures Height(ExpandN(ts, values, k), ranks) <= (if k < Height(ts, ranks) then Height(ts, ranks) - k else 0)
  {
    if k > 0 {
      ExpandNLowers(ts, values, ranks, k - 1);
      ExpandLowers(ExpandN(ts, values, k - 1), values, ranks);
    }
  }

  /** For ranked text the condition under which passes follow the tokens is a finite one. */
  lemma FollowsInTime(s: string, values: Values, ranks: imap<string, nat>)
    requires Grounded(Tokens(s), values, ranks)
    ensures Follows(s, values) <==> forall k: nat :: k <= Height(Tokens(s), ranks) ==> NothingFuses(s, values, k)
  {
    var h := Height(Tokens(s), ranks);
    ExpandNLowers(Tokens(s), values, ranks, h);
    ExpandLowers(ExpandN(Tokens(s), values, h), values, ranks);
    if forall k: nat :: k <= h ==> NothingFuses(s, values, k) {
      forall k: nat ensures NothingFuses(s, values, k) {
        if k > h {
          IterateFixed((us: seq<Token>) => Expand(us, values), Tokens(s), h, k);
          assert NothingFuses(s, values, h);
        }
      }
    }
  }

  /** Ranks up to the variables of a set: values refer to the set and to lower ranks only. */
  ghost predicate RankedTo(values: Values, ranks: imap<string, nat>, rest: iset<string>) {
    forall name {:trigger LowerOrRest(name, values, ranks, rest)} ::
      name in ranks ==> LowerOrRest(name, values, ranks, rest)
  }

  ghost predicate LowerOrRest(name: string, values: Values, ranks: imap<string, nat>, rest: iset<string>)
    requires name in ranks
  {
    forall m :: m in Names(Tokens(values(name))) ==> m in rest || (m in ranks && ranks[m] < ranks[name])
  }

  ghost predicate RanksTo(ts: seq<Token>, values: Values, rest: iset<string>, ranks: imap<string, nat>) {
    RankedTo(values, ranks, rest) && Within(ts, ranks.Keys + rest)
  }

  ghost predicate Rankable(ts: seq<Token>, values: Values, rest: iset<string>) {
    exists ranks :: RanksTo(ts, values, rest, ranks)
  }

  /** A part of text that comes to rest in k steps does so too. */
  lemma {:induction false} PartRests(ts: seq<Token>, values: Values, rest: iset<string>, name: string, k: nat)
    requires name in Names(ts) && RestsIn(ts, values, rest, k)
    ensures RestsIn([Ref(name)], values, rest, k)
  {
    assert ts == [ts[0]] + ts[1..];
    RestsInConcat([ts[0]], ts[1..], values, rest, k);
    if ts[0] != Ref(name) {
      PartRests(ts[1..], values, rest, name, k);
    }
  }

  ghost function Least(name: string, values: Values, rest: iset<string>, k: nat): (r: nat)
    requires Closed(rest, values) && RestsIn([Ref(name)], values, rest, k)
    ensures RestsIn([Ref(name)], values, rest, r)
    ensures forall j: nat :: RestsIn([Ref(name)], values, rest, j) ==> r <= j
  {
    if k > 0 && RestsIn([Ref(name)], values, rest, k - 1) then Least(name, values, rest, k - 1)
    else
      NotBefore([Ref(name)], values, rest, k);
      k
  }

  lemma NotBefore(ts: seq<Token>, values: Values, rest: iset<string>, k: nat)
    requires Closed(rest, values) && (k > 0 ==> !RestsIn(ts, values, rest, k - 1))
    ensures forall j: nat :: RestsIn(ts, values, rest, j) ==> k <= j
  {
    forall j: nat | RestsIn(ts, values, rest, j) ensures k <= j {
      if j < k {
        RestsStay(ts, values, rest, j, k - 1);
      }
    }
  }

  /** The number of expansions after which a reference has come to rest. */
  ghost function Steps(name: string, values: Values, rest: iset<string>): (r: nat)
    requires Closed(rest, values) && Rests([Ref(name)], values, rest)
    ensures RestsIn([Ref(name)], values, rest, r)
    ensures forall j: nat :: RestsIn([Ref(name)], values, rest, j) ==> r <= j
  {
    var k: nat :| RestsIn([Ref(name)], values, rest, k);
    Least(name, values, rest, k)
  }

  lemma NotYetAtRest(name: string, values: Values, rest: iset<string>, m: string)
    requires Closed(rest, values) && m in Names(Tokens(values(name))) && m !in rest
    ensures !RestsIn([Ref(name)], values, rest, 0)
  {
    assert name in Names([Ref(name)]);
  }

  lemma StepsBelow(name: string, values: Values, rest: iset<string>, m: string)
    requires Closed(rest, values) && Rests([Ref(name)], values, rest) && m in Names(Tokens(values(name))) && m !in rest
    ensures Rests([Ref(m)], values, rest) && Steps(m, values, rest) < Steps(name, values, rest)
  {
    var k := Steps(name, values, rest);
    assert k > 0 by {
      NotYetAtRest(name, values, rest, m);
    }
    ValueRests(name, values, rest, m, k - 1);
    StepsAtMost(m, values, rest, k - 1);
  }

  lemma ValueRests(name: string, values: Values, rest: iset<string>, m: string, k: nat)
    requires RestsIn([Ref(name)], values, rest, k + 1) && m in Names(Tokens(values(name)))
    ensures RestsIn([Ref(m)], values, rest, k)
  {
    ExpandRef(name, values, k);
    PartRests(Tokens(values(name)), values, rest, m, k);
  }

  lemma StepsAtMost(name: string, values: Values, rest: iset<string>, k: nat)
    requires Closed(rest, values) && RestsIn([Ref(name)], values, rest, k)
    ensures Rests([Ref(name)], values, rest) && Steps(name, values, rest) <= k
  {
  }

  lemma {:induction false} RankedRests(name: string, values: Values, rest: iset<string>, ranks: imap<string, nat>)
    requires Closed(rest, values) && RankedTo(values, ranks, rest) && name in ranks
    ensures Rests([Ref(name)], values, rest)
    decreases ranks[name]
  {
    assert LowerOrRest(name, values, ranks, rest);
    forall m | m in Names(Tokens(values(name))) ensures Rests([Ref(m)], values, rest) {
      if m in rest {
        assert RestsIn([Ref(m)], values, rest, 0);
      } else {
        RankedRests(m, values, rest, ranks);
      }
    }
    RestsEach(Tokens(values(name)), values, rest);
    RestsRef(name, values, rest);
  }

  lemma RankableRests(ts: seq<Token>, values: Values, rest: iset<string>, ranks: imap<string, nat>)
    requires Closed(rest, values) && RanksTo(ts, values, rest, ranks)
    ensures Rests(ts, values, rest)
  {
    forall name | name in Names(ts) ensures Rests([Ref(name)], values, rest) {
      if name in rest {
        assert RestsIn([Ref(name)], values, rest, 0);
      } else {
        RankedRests(name, values, rest, ranks);
      }
    }
    RestsEach(ts, values, rest);
  }

  /** References come to rest exactly when the variables they lead to can be ranked. */
  lemma RanksIff(ts: seq<Token>, values: Values, rest: iset<string>)
    requires Closed(rest, values)
    ensures Rests(ts, values, rest) <==> Rankable(ts, values, rest)
  {
    if Rests(ts, values, rest) {
      var ranks: imap<string, nat> := imap name | Rests([Ref(name)], values, rest) :: Steps(name, values, rest);
      forall name | name in ranks ensures LowerOrRest(name, values, ranks, rest) {
        forall m | m in Names(Tokens(values(name))) && m !in rest ensures m in ranks && ranks[m] < ranks[name] {
          StepsBelow(name, values, rest, m);
        }
      }
      RestsEach(ts, values, rest);
      assert RanksTo(ts, values, rest, ranks);
    }
    if ranks :| RanksTo(ts, values, rest, ranks) {
      RankableRests(ts, values, rest, ranks);
    }
  }

  /** With no variable to rest at, ranks are those of grounded text. */
  lemma RanksToNothing(ts: seq<Token>, values: Values, ranks: imap<string, nat>)
    ensures RanksTo(ts, values, iset{}, ranks) <==> Grounded(ts, values, ranks)
  {
    if RanksTo(ts, values, iset{}, ranks) {
      forall name | name in ranks ensures Below(Names(Tokens(values(name))), ranks, ranks[name]) {
        assert LowerOrRest(name, values, ranks, iset{});
      }
    }
    if Grounded(ts, values, ranks) {
      forall name | name in ranks ensures LowerOrRest(name, values, ranks, iset{}) {
        assert Below(Names(Tokens(values(name))), ranks, ranks[name]);
      }
    }
  }

  ghost predicate Groundable(ts: seq<Token>, values: Values) { exists ranks :: Grounded(ts, values, ranks) }

  lemma GroundableIff(ts: seq<Token>, values: Values)
    ensures Groundable(ts, values) <==> Rankable(ts, values, iset{})
  {
    if Groundable(ts, values) {
      var ranks :| Grounded(ts, values, ranks);
      RanksToNothing(ts, values, ranks);
      assert RanksTo(ts, values, iset{}, ranks);
    }
    if Rankable(ts, values, iset{}) {
      var ranks :| RanksTo(ts, values, iset{}, ranks);
      RanksToNothing(ts, values, ranks);
      assert Grounded(ts, values, ranks);
    }
  }

  /** Full recursive expansion: every reference is replaced by the full expansion of its value. */
  ghost function Full(ts: seq<Token>, values: Values, ranks: imap<string, nat>): seq<Token>
    requires Grounded(ts, values, ranks)
    decreases Height(ts, ranks), |ts|
  {
    if ts == [] then []
    else
      (match ts[0]
       case Char(_) => [ts[0]]
       case Ref(name) =>
         HeightBound(Tokens(values(name)), ranks, ranks[name]);
         Full(Tokens(values(name)), values, ranks)) + Full(ts[1..], values, ranks)
  }

  lemma AssociativeTokens(a: seq<Token>, b: seq<Token>, c: seq<Token>)
    ensures a + (b + c) == (a + b) + c
  {
  }

  lemma {:induction false} FullConcat(ts: seq<Token>, us: seq<Token>, values: Values, ranks: imap<string, nat>)
    requires Grounded(ts, values, ranks) && Grounded(us, values, ranks)
    ensures Grounded(ts + us, values, ranks)
    ensures Full(ts + us, values, ranks) == Full(ts, values, ranks) + Full(us, values, ranks)
    decreases |ts|
  {
    NamesConcat(ts, us);
    if ts == [] {
      assert ts + us == us;
    } else {
      assert (ts + us)[1..] == ts[1..] + us;
      FullConcat(ts[1..], us, values, ranks);
      if ts[0].Char? {
        AssociativeTokens([ts[0]], Full(ts[1..], values, ranks), Full(us, values, ranks));
      } else {
        AssociativeTokens(Full(Tokens(values(ts[0].name)), values, ranks), Full(ts[1..], values, ranks),
            Full(us, values, ranks));
      }
    }
  }

  /** A pass does not change what the full expansion is. */
  lemma {:induction false} FullOfExpand(ts: seq<Token>, values: Values, ranks: imap<string, nat>)
    requires Grounded(ts, values, ranks)
    ensures Grounded(Expand(ts, values), values, ranks)
    ensures Full(Expand(ts, values), values, ranks) == Full(ts, values, ranks)
    decreases |ts|
  {
    if ts != [] {
      FullOfExpand(ts[1..], values, ranks);
      match ts[0]
      case Char(_) => FullConcat([ts[0]], Expand(ts[1..], values), values, ranks);
      case Ref(name) => FullConcat(Tokens(values(name)), Expand(ts[1..], values), values, ranks);
    }
  }

  lemma {:induction false} FullOfExpandN(ts: seq<Token>, values: Values, ranks: imap<string, nat>, k: nat)
    requires Grounded(ts, values, ranks)
    ensures Grounded(ExpandN(ts, values, k), values, ranks)
    ensures Full(ExpandN(ts, values, k), values, ranks) == Full(ts, values, ranks)
  {
    if k > 0 {
      FullOfExpandN(ts, values, ranks, k - 1);
      var us := ExpandN(ts, values, k - 1);
      FullOfExpand(us, values, ranks);
      assert ExpandN(ts, values, k) == Expand(us, values);
    }
  }

  lemma {:induction false} FullOfPlain(ts: seq<Token>, values: Values, ranks: imap<string, nat>)
    requires Grounded(ts, values, ranks) && Height(ts, ranks) == 0
    ensures Full(ts, values, ranks) == ts && Plain(ts)
    decreases |ts|
  {
    if ts != [] {
      FullOfPlain(ts[1..], values, ranks);
    }
  }

  // ---------------------------------------------------------------------------
  // Text that substitution does not change
  // ---------------------------------------------------------------------------

  predicate FixedAt(ts: seq<Token>, values: Values, k: nat) {
    Expand(ExpandN(ts, values, k), values) == ExpandN(ts, values, k)
  }

  /** After some number of expansions a further one changes nothing. */
  ghost predicate Settled(ts: seq<Token>, values: Values) { exists k: nat :: FixedAt(ts, values, k) }

  predicate GoneIn(ts: seq<Token>, values: Values, k: nat) { ExpandN(ts, values, k) == [] }

  /** After some number of expansions nothing is left. */
  ghost predicate Vanishes(ts: seq<Token>, values: Values) { exists k: nat :: GoneIn(ts, values, k) }

  ghost predicate KeepsBetween(name: string, values: Values, a: seq<Token>, b: seq<Token>) {
    Tokens(values(name)) == a + ([Ref(name)] + b) && Vanishes(a, values) && Vanishes(b, values)
  }

  /** The variable stays what it is: its value is a reference to itself, between texts that vanish. */
  ghost predicate Keeps(name: string, values: Values) {
    exists a, b :: KeepsBetween(name, values, a, b)
  }

  /** The variables that need not be substituted for the text to stop changing. */
  ghost function Calm(values: Values): iset<string> {
    iset name | Vanishes([Ref(name)], values) || Keeps(name, values)
  }

  lemma {:induction false} GoneStays(ts: seq<Token>, values: Values, j: nat, k: nat)
    requires j <= k && GoneIn(ts, values, j)
    ensures GoneIn(ts, values, k)
  {
    if j < k {
      GoneStays(ts, values, j, k - 1);
    }
  }

  lemma VanishesBoth(ts: seq<Token>, us: seq<Token>, values: Values)
    ensures Vanishes(ts + us, values) <==> Vanishes(ts, values) && Vanishes(us, values)
  {
    if k: nat :| GoneIn(ts + us, values, k) {
      ExpandNConcat(ts, us, values, k);
      assert GoneIn(ts, values, k) && GoneIn(us, values, k);
    }
    if Vanishes(ts, values) && Vanishes(us, values) {
      var i: nat :| GoneIn(ts, values, i);
      var j: nat :| GoneIn(us, values, j);
      GoneInBoth(ts, us, values, i, j, i + j);
    }
  }

  lemma GoneInBoth(ts: seq<Token>, us: seq<Token>, values: Values, i: nat, j: nat, k: nat)
    requires GoneIn(ts, values, i) && GoneIn(us, values, j) && i <= k && j <= k
    ensures GoneIn(ts + us, values, k)
  {
    GoneStays(ts, values, i, k);
    GoneStays(us, values, j, k);
    ExpandNConcat(ts, us, values, k);
  }

  lemma VanishesNext(ts: seq<Token>, values: Values)
    ensures Vanishes(Expand(ts, values), values) <==> Vanishes(ts, values)
  {
    if k: nat :| GoneIn(ts, values, k) {
      GoneStays(ts, values, k, k + 1);
      ExpandNFirst(ts, values, k);
      assert GoneIn(Expand(ts, values), values, k);
    }
    if k: nat :| GoneIn(Expand(ts, values), values, k) {
      ExpandNFirst(ts, values, k);
      assert GoneIn(ts, values, k + 1);
    }
  }

  lemma {:induction false} CharStays(c: char, values: Values, k: nat)
    ensures ExpandN([Char(c)], values, k) == [Char(c)]
  {
    if k > 0 {
      CharStays(c, values, k - 1);
      var t := [Char(c)];
      assert t[1..] == [] && Expand(t, values) == [Char(c)] + [];
    }
  }

  /** What of the text never vanishes. */
  ghost function Core(ts: seq<Token>, values: Values): seq<Token> {
    if ts == [] then []
    else (if Vanishes([ts[0]], values) then [] else [ts[0]]) + Core(ts[1..], values)
  }

  lemma {:induction false} CoreConcat(ts: seq<Token>, us: seq<Token>, values: Values)
    ensures Core(ts + us, values) == Core(ts, values) + Core(us, values)
  {
    if ts == [] {
      assert ts + us == us;
    } else {
      assert (ts + us)[1..] == ts[1..] + us;
      CoreConcat(ts[1..], us, values);
    }
  }

  lemma {:induction false} CoreEmpty(ts: seq<Token>, values: Values)
    ensures Core(ts, values) == [] <==> Vanishes(ts, values)
  {
    if ts == [] {
      assert GoneIn(ts, values, 0);
    } else {
      CoreEmpty(ts[1..], values);
      VanishesBoth([ts[0]], ts[1..], values);
      assert ts == [ts[0]] + ts[1..];
    }
  }

  /** Nothing of the core is lost by an expansion. */
  lemma {:induction false} CoreGrows(ts: seq<Token>, values: Values)
    ensures |Core(Expand(ts, values), values)| >= |Core(ts, values)|
  {
    if ts != [] {
      CoreOfExpand(ts, values);
      CoreGrows(ts[1..], values);
    }
  }

  /** The core of an expansion, token by token. */
  lemma CoreOfExpand(ts: seq<Token>, values: Values)
    requires ts != []
    ensures Core(Expand(ts, values), values)
         == Core(Expand([ts[0]], values), values) + Core(Expand(ts[1..], values), values)
    ensures Core(ts, values) == Core([ts[0]], values) + Core(ts[1..], values)
    ensures |Core(Expand([ts[0]], values), values)| >= |Core([ts[0]], values)|
  {
    var t := [ts[0]];
    assert ts == t + ts[1..];
    ExpandConcat(t, ts[1..], values);
    CoreConcat(Expand(t, values), Expand(ts[1..], values), values);
    CoreConcat(t, ts[1..], values);
    CoreEmpty(t, values);
    CoreEmpty(Expand(t, values), values);
    VanishesNext(t, values);
    assert |Core(t, values)| <= 1;
  }

  lemma SameParts<T>(a: seq<T>, b: seq<T>, c: seq<T>, d: seq<T>)
    requires a + b == c + d && |a| >= |c| && |b| >= |d|
    ensures a == c && b == d
  {
    assert |a + b| == |c + d|;
    assert a == (a + b)[..|a|] && b == (a + b)[|a|..];
  }

  /** When the core of the whole stays as it is, so does that of each part. */
  lemma {:induction false} CoreFixed(ts: seq<Token>, values: Values, name: string)
    requires Core(Expand(ts, values), values) == Core(ts, values) && name in Names(ts)
    ensures Core(Tokens(values(name)), values) == Core([Ref(name)], values)
  {
    CoreOfExpand(ts, values);
    CoreGrows(ts[1..], values);
    SameParts(Core(Expand([ts[0]], values), values), Core(Expand(ts[1..], values), values),
              Core([ts[0]], values), Core(ts[1..], values));
    if ts[0] == Ref(name) {
      ExpandRef(name, values, 0);
      assert Expand([Ref(name)], values) == Tokens(values(name));
    } else {
      CoreFixed(ts[1..], values, name);
    }
  }

  lemma {:induction false} SplitAtCore(ts: seq<Token>, values: Values, name: string)
    returns (a: seq<Token>, b: seq<Token>)
    requires Core(ts, values) == [Ref(name)]
    ensures ts == a + ([Ref(name)] + b) && Vanishes(a, values) && Vanishes(b, values)
  {
    if Vanishes([ts[0]], values) {
      a, b := SplitAtCore(ts[1..], values, name);
      VanishesBoth([ts[0]], a, values);
      AssociativeTokens([ts[0]], a, [Ref(name)] + b);
      a := [ts[0]] + a;
    } else {
      a, b := [], ts[1..];
      assert Core(ts, values)[0] == ts[0] && |Core(ts[1..], values)| == 0;
      CoreEmpty(ts[1..], values);
      assert GoneIn(a, values, 0);
      assert a + ([Ref(name)] + b) == [Ref(name)] + b;
    }
  }

  /** Text that an expansion does not change mentions calm variables only. */
  lemma FixedIsCalm(us: seq<Token>, values: Values)
    requires Expand(us, values) == us
    ensures Within(us, Calm(values))
  {
    forall name | name in Names(us) ensures name in Calm(values) {
      if !Vanishes([Ref(name)], values) {
        CoreFixed(us, values, name);
        assert [Ref(name)][1..] == [];
        assert Core([Ref(name)], values) == [Ref(name)];
        var a, b := SplitAtCore(Tokens(values(name)), values, name);
        assert KeepsBetween(name, values, a, b);
      }
    }
  }

  lemma {:induction false} VanishesEach(ts: seq<Token>, values: Values, name: string)
    requires Vanishes(ts, values) && name in Names(ts)
    ensures Vanishes([Ref(name)], values)
  {
    assert ts == [ts[0]] + ts[1..];
    VanishesBoth([ts[0]], ts[1..], values);
    if ts[0] != Ref(name) {
      VanishesEach(ts[1..], values, name);
    }
  }

  lemma CalmIsClosed(values: Values)
    ensures Closed(Calm(values), values)
  {
    forall name, m | name in Calm(values) && m in Names(Tokens(values(name))) ensures m in Calm(values) {
      if Vanishes([Ref(name)], values) {
        VanishesNext([Ref(name)], values);
        ExpandRef(name, values, 0);
        assert Expand([Ref(name)], values) == Tokens(values(name));
        VanishesEach(Tokens(values(name)), values, m);
      } else {
        var a, b :| KeepsBetween(name, values, a, b);
        NamesConcat(a, [Ref(name)] + b);
        NamesConcat([Ref(name)], b);
        if m in Names(a) {
          VanishesEach(a, values, m);
        } else if m in Names(b) {
          VanishesEach(b, values, m);
        } else {
          assert Names([Ref(name)]) == {name};
        }
      }
    }
  }

  lemma FixedNext(ts: seq<Token>, values: Values, k: nat)
    ensures FixedAt(ts, values, k) <==> ExpandN(ts, values, k + 1) == ExpandN(ts, values, k)
  {
  }

  lemma FixedStays(ts: seq<Token>, values: Values, h: nat, k: nat)
    requires FixedAt(ts, values, h) && h <= k
    ensures ExpandN(ts, values, k) == ExpandN(ts, values, h)
  {
    IterateFixed((us: seq<Token>) => Expand(us, values), ts, h, k);
  }

  lemma FixedBoth(ts: seq<Token>, us: seq<Token>, values: Values, i: nat, j: nat, k: nat)
    requires FixedAt(ts, values, i) && FixedAt(us, values, j) && i <= k && j <= k
    ensures FixedAt(ts + us, values, k)
  {
    FixedStays(ts, values, i, k);
    FixedStays(ts, values, i, k + 1);
    FixedStays(us, values, j, k);
    FixedStays(us, values, j, k + 1);
    ExpandNConcat(ts, us, values, k);
    ExpandNConcat(ts, us, values, k + 1);
    FixedNext(ts + us, values, k);
  }

  lemma KeepsStops(name: string, values: Values, a: seq<Token>, b: seq<Token>)
    requires KeepsBetween(name, values, a, b)
    ensures Settled([Ref(name)], values)
  {
    var i: nat :| GoneIn(a, values, i);
    var j: nat :| GoneIn(b, values, j);
    KeptAt(name, values, a, b, i, j, i + j);
  }

  lemma KeptAt(name: string, values: Values, a: seq<Token>, b: seq<Token>, i: nat, j: nat, k: nat)
    requires Tokens(values(name)) == a + ([Ref(name)] + b)
    requires GoneIn(a, values, i) && GoneIn(b, values, j) && i <= k && j <= k
    ensures FixedAt([Ref(name)], values, k)
  {
    GoneStays(a, values, i, k);
    GoneStays(b, values, j, k);
    ExpandRef(name, values, k);
    ExpandNConcat(a, [Ref(name)] + b, values, k);
    ExpandNConcat([Ref(name)], b, values, k);
    Between(ExpandN(a, values, k), ExpandN([Ref(name)], values, k), ExpandN(b, values, k));
    FixedNext([Ref(name)], values, k);
  }

  lemma Between(a: seq<Token>, x: seq<Token>, b: seq<Token>)
    requires a == [] && b == []
    ensures a + (x + b) == x
  {
  }

  lemma CalmTokenStops(t: Token, values: Values)
    requires t.Ref? ==> t.name in Calm(values)
    ensures Settled([t], values)
  {
    match t
    case Char(c) =>
      CharStays(c, values, 1);
      assert FixedAt([t], values, 0);
    case Ref(name) =>
      if k: nat :| GoneIn([t], values, k) {
        assert FixedAt([t], values, k);
      } else {
        var a, b :| KeepsBetween(name, values, a, b);
        KeepsStops(name, values, a, b);
      }
  }

  lemma {:induction false} CalmStops(us: seq<Token>, values: Values)
    requires Within(us, Calm(values))
    ensures Settled(us, values)
  {
    if us == [] {
      assert FixedAt(us, values, 0);
    } else {
      assert us == [us[0]] + us[1..];
      CalmTokenStops(us[0], values);
      CalmStops(us[1..], values);
      var i: nat :| FixedAt([us[0]], values, i);
      var j: nat :| FixedAt(us[1..], values, j);
      FixedBoth([us[0]], us[1..], values, i, j, i + j);
    }
  }

  /** Expansions stop changing the text exactly when they leave only calm variables in it. */
  lemma SettledIff(ts: seq<Token>, values: Values)
    ensures Settled(ts, values) <==> Rests(ts, values, Calm(values))
  {
    if k: nat :| FixedAt(ts, values, k) {
      FixedIsCalm(ExpandN(ts, values, k), values);
      assert RestsIn(ts, values, Calm(values), k);
    }
    if k: nat :| RestsIn(ts, values, Calm(values), k) {
      var us := ExpandN(ts, values, k);
      CalmStops(us, values);
      var j: nat :| FixedAt(us, values, j);
      IterateAdd((us: seq<Token>) => Expand(us, values), ts, k, j);
      assert FixedAt(ts, values, k + j);
    }
  }

  // ---------------------------------------------------------------------------
  // Substitution until nothing changes
  // ---------------------------------------------------------------------------

  /** The values an environment gives, the empty string for a variable it does not have. */
  function ValuesOf(layers: seq<map<string, string>>): Values {
    (name: string) => match Answer(layers, name) case Some(v) => v case None => ""
  }

  lemma PassChar(c: char, b: string, values: Values)
    requires c == '$' ==> b == [] || !IsWord(b[0])
    ensures Pass([c] + b, values) == [c] + Pass(b, values)
  {
    assert ([c] + b)[1..] == b;
  }

  lemma PassRef(name: string, b: string, values: Values)
    requires IsName(name) && (b == [] || !IsWord(b[0]))
    ensures Pass(['$'] + (name + b), values) == values(name) + Pass(b, values)
  {
    assert (['$'] + (name + b))[1..] == name + b;
    WordRunIs(name, b);
  }

  /** Text that does not go on with a word is substituted by itself. */
  lemma {:induction false} PassConcat(a: string, t: string, values: Values)
    requires t == [] || !IsWord(t[0])
    ensures Pass(a + t, values) == Pass(a, values) + Pass(t, values)
    decreases |a|
  {
    if a == [] {
      assert a + t == t;
    } else {
      var (token, rest) := FirstToken(a);
      PassConcat(rest, t, values);
      match token
      case Char(c) => CharConcat(c, rest, t, values);
      case Ref(name) => RefConcat(name, rest, t, values);
    }
  }

  lemma CharConcat(c: char, rest: string, t: string, values: Values)
    requires (t == [] || !IsWord(t[0])) && (c == '$' ==> rest == [] || !IsWord(rest[0]))
    requires Pass(rest + t, values) == Pass(rest, values) + Pass(t, values)
    ensures Pass([c] + rest + t, values) == Pass([c] + rest, values) + Pass(t, values)
  {
    PassChar(c, rest, values);
    PassChar(c, rest + t, values);
    Associative([c], rest, t);
    Associative([c], Pass(rest, values), Pass(t, values));
  }

  lemma RefConcat(name: string, rest: string, t: string, values: Values)
    requires IsName(name) && (t == [] || !IsWord(t[0])) && (rest == [] || !IsWord(rest[0]))
    requires Pass(rest + t, values) == Pass(rest, values) + Pass(t, values)
    ensures Pass(['$'] + (name + rest) + t, values) == Pass(['$'] + (name + rest), values) + Pass(t, values)
  {
    PassRef(name, rest, values);
    PassRef(name, rest + t, values);
    Associative(name, rest, t);
    Associative(['$'], name + rest, t);
    Associative(values(name), Pass(rest, values), Pass(t, values));
  }

  /** What becomes of a reference between any two texts: nothing when no layer has the variable, and otherwise the
      value in the first layer that does; `$n` is the number of layers. */
  lemma RefBecomes(layers: seq<map<string, string>>, a: string, name: string, b: string)
    requires IsName(name) && (b == [] || !IsWord(b[0]))
    ensures var values, s := ValuesOf(layers), a + (['$'] + (name + b));
            && (name == "n" ==> Pass(s, values) == Pass(a, values) + (Decimal(|layers|) + Pass(b, values)))
            && (name != "n" && Nowhere(layers, name) ==> Pass(s, values) == Pass(a, values) + Pass(b, values))
            && forall i: nat :: name != "n" && FirstAt(layers, name, i) ==>
                 Pass(s, values) == Pass(a, values) + (layers[i][name] + Pass(b, values))
  {
    var values := ValuesOf(layers);
    PassConcat(a, ['$'] + (name + b), values);
    PassRef(name, b, values);
    FirstMatchIs(layers, name);
    assert "" + Pass(b, values) == Pass(b, values);
  }

  /** For example: a variable that has a value, and behind a space one that has none. */
  lemma ValueAndNothing(layers: seq<map<string, string>>, first: string, second: string, value: string)
    requires IsName(first) && IsName(second) && first != "n" && second != "n" && first != second
    requires layers == [map[first := value]]
    ensures Pass(['$'] + (first + ([' '] + (['$'] + second))), ValuesOf(layers)) == value + " "
  {
    var values, rest := ValuesOf(layers), [' '] + (['$'] + second);
    assert FirstAt(layers, first, 0) && Nowhere(layers, second);
    assert second + [] == second && [] + (['$'] + (first + rest)) == ['$'] + (first + rest);
    RefBecomes(layers, [], first, rest);
    RefBecomes(layers, [' '], second, []);
    PlainPass(values);
  }

  lemma PlainPass(values: Values)
    ensures Pass([], values) == [] && Pass([' '], values) == [' ']
  {
    assert [' '][1..] == [];
  }

  function WithoutRefs(ts: seq<Token>): seq<Token> {
    if ts == [] then [] else (if ts[0].Char? then [ts[0]] else []) + WithoutRefs(ts[1..])
  }

  /** No layer has any of the variables in the text. */
  ghost predicate NoneHas(layers: seq<map<string, string>>, s: string) {
    forall name :: Ref(name) in Tokens(s) ==> name != "n" && Nowhere(layers, name)
  }

  lemma {:induction false} WithoutRefsCanonical(ts: seq<Token>)
    requires Canonical(ts)
    ensures Canonical(WithoutRefs(ts)) && (StartsWord(WithoutRefs(ts)) ==> StartsWord(ts))
    ensures forall i :: 0 <= i < |WithoutRefs(ts)| ==> WithoutRefs(ts)[i].Char?
  {
    if ts != [] {
      var rest := WithoutRefs(ts[1..]);
      WithoutRefsCanonical(ts[1..]);
      match ts[0]
      case Char(c) => assert WithoutRefs(ts) == [Char(c)] + rest && ([Char(c)] + rest)[1..] == rest;
      case Ref(name) => assert WithoutRefs(ts) == rest;
    }
  }

  lemma {:induction false} ExpandToNothing(ts: seq<Token>, values: Values)
    requires forall i :: 0 <= i < |ts| && ts[i].Ref? ==> values(ts[i].name) == ""
    ensures Expand(ts, values) == WithoutRefs(ts)
  {
    if ts != [] {
      ExpandToNothing(ts[1..], values);
    }
  }

  lemma {:induction false} WithoutRefsOfChars(ts: seq<Token>)
    requires forall i :: 0 <= i < |ts| ==> ts[i].Char?
    ensures WithoutRefs(ts) == ts
  {
    if ts != [] {
      WithoutRefsOfChars(ts[1..]);
    }
  }

  /** Then the first pass leaves out the references, and the second changes nothing. */
  lemma NoneHasPasses(layers: seq<map<string, string>>, s: string)
    requires NoneHas(layers, s)
    ensures var values, t := ValuesOf(layers), Spelled(WithoutRefs(Tokens(s)));
            && Pass(s, values) == t && Pass(t, values) == t
            && Passes(s, values, 1) == t && Passes(s, values, 2) == t && SettledAt(s, values, 1)
  {
    var values, ts := ValuesOf(layers), WithoutRefs(Tokens(s));
    forall i | 0 <= i < |Tokens(s)| && Tokens(s)[i].Ref? ensures values(Tokens(s)[i].name) == "" {
      assert Ref(Tokens(s)[i].name) in Tokens(s);
      FirstMatchIs(layers, Tokens(s)[i].name);
    }
    PassIsExpand(s, values);
    ExpandToNothing(Tokens(s), values);
    TokensCanonical(s);
    WithoutRefsCanonical(Tokens(s));
    TokensInvertSpelled(ts);
    PassIsExpand(Spelled(ts), values);
    ExpandToNothing(ts, values);
    WithoutRefsOfChars(ts);
    assert Passes(s, values, 0) == s;
  }

  /** What the loop makes of text of which no layer has any variable. */
  ghost predicate BareResult(layers: seq<map<string, string>>, s: string, r: string, passes: nat) {
    NoneHas(layers, s) ==> r == Spelled(WithoutRefs(Tokens(s))) && passes <= 2
  }

  lemma BareAtEnd(layers: seq<map<string, string>>, s: string, passes: nat, r: string)
    requires AfterPasses(s, ValuesOf(layers), passes, r, r) && Soonest(s, ValuesOf(layers), passes)
    ensures BareResult(layers, s, r, passes)
  {
    if NoneHas(layers, s) {
      NoneHasPasses(layers, s);
      EndsAtSecond(s, ValuesOf(layers), Spelled(WithoutRefs(Tokens(s))), passes, r);
    }
  }

  lemma EndsAtSecond(s: string, values: Values, t: string, passes: nat, r: string)
    requires Pass(s, values) == t && Passes(s, values, 1) == t && Passes(s, values, 2) == t && SettledAt(s, values, 1)
    requires AfterPasses(s, values, passes, r, r) && Soonest(s, values, passes)
    ensures r == t && passes <= 2
  {
    assert passes == 0 ==> r == "" && s == "";
  }

  /** One gsub, with the environment looked up for every reference. */
  method GsubPass(env: Env, s: string, ghost values: Values) returns (r: string)
    requires env.layers != [] && env.Coherent() && values == ValuesOf(Contents(env.layers))
    modifies env`cache
    ensures env.Coherent() && Contents(env.layers) == old(Contents(env.layers))
    ensures r == Pass(s, values)
  {
    ghost var layers := Contents(env.layers);
    r := [];
    var rest := s;
    while rest != []
      invariant env.Coherent() && Contents(env.layers) == layers
      invariant r + Pass(rest, values) == Pass(s, values)
      decreases |rest|
    {
      var n := WordRun(rest[1..]);
      var piece, next := [rest[0]], rest[1..];
      if rest[0] == '$' && n > 0 {
        var value := env.Get(rest[1..][..n]);
        piece, next := if value.Some? then value.value else "", rest[1..][n..];
      }
      assert Pass(rest, values) == piece + Pass(next, values);
      Associative(r, piece, Pass(next, values));
      r := r + piece;
      rest := next;
    }
  }

  predicate SettledAt(s: string, values: Values, k: nat) { Passes(s, values, k + 1) == Passes(s, values, k) }

  /** What the two strings of the loop are. */
  predicate AfterPasses(s: string, values: Values, passes: nat, r: string, t: string) {
    t == Passes(s, values, passes) && r == if passes == 0 then "" else Passes(s, values, passes - 1)
  }

  lemma NextPass(s: string, values: Values, passes: nat, r: string, t: string)
    requires AfterPasses(s, values, passes, r, t)
    ensures AfterPasses(s, values, passes + 1, t, Pass(t, values))
  {
  }

  lemma ChangesOnlyBefore(s: string, values: Values, passes: nat, r: string, t: string, h: nat)
    requires AfterPasses(s, values, passes, r, t) && r != t && SettledAt(s, values, h)
    ensures passes <= h
  {
    if passes > 0 {
      IterateChanges((t: string) => Pass(t, values), s, h, passes - 1);
    }
  }

  /** Some pass changes nothing: otherwise the loop has no end. */
  ghost predicate LoopStops(s: string, values: Values) { exists k: nat :: SettledAt(s, values, k) }

  /** The loop was left at the first opportunity. */
  ghost predicate Soonest(s: string, values: Values, passes: nat) {
    forall k: nat :: SettledAt(s, values, k) ==> passes <= k + 1
  }

  /** For ranked text in which nothing fuses: the full expansion, within one pass more than its height. */
  ghost predicate FullResult(s: string, values: Values, ranks: imap<string, nat>, r: string, passes: nat) {
    Grounded(Tokens(s), values, ranks) && Follows(s, values) ==>
      && r == Spelled(Full(Tokens(s), values, ranks)) && Plain(Tokens(r))
      && passes <= Height(Tokens(s), ranks) + 1
  }

  lemma SoonestStays(s: string, values: Values, passes: nat, r: string, t: string)
    requires AfterPasses(s, values, passes, r, t) && r != t
    ensures Soonest(s, values, passes + 1)
  {
    forall k: nat | SettledAt(s, values, k) ensures passes + 1 <= k + 1 {
      ChangesOnlyBefore(s, values, passes, r, t, k);
    }
  }

  /** One turn of the loop. */
  lemma Turn(s: string, values: Values, passes: nat, r: string, t: string, h: nat)
    requires AfterPasses(s, values, passes, r, t) && r != t && SettledAt(s, values, h)
    ensures AfterPasses(s, values, passes + 1, t, Pass(t, values)) && Soonest(s, values, passes + 1) && passes <= h
  {
    NextPass(s, values, passes, r, t);
    SoonestStays(s, values, passes, r, t);
    ChangesOnlyBefore(s, values, passes, r, t, h);
  }

  /** The loop ends whenever some pass changes nothing, after the first such pass; and when the variables
      that the text leads to can be ranked and no substitution makes a new reference out of pieces, at the
      full expansion. */
  method InterpolateWith(env: Env, s: string, ghost values: Values) returns (r: string, passes: nat)
    requires env.layers != [] && env.Coherent() && values == ValuesOf(Contents(env.layers))
    requires LoopStops(s, values)
    modifies env`cache
    ensures env.Coherent()
    ensures AfterPasses(s, values, passes, r, r) && Pass(r, values) == r && Soonest(s, values, passes)
    ensures forall ranks :: FullResult(s, values, ranks, r, passes)
    ensures BareResult(old(Contents(env.layers)), s, r, passes)
  {
    ghost var layers := Contents(env.layers);
    ghost var h: nat :| SettledAt(s, values, h);
    r := "";
    var t := s;
    passes := 0;
    while r != t
      invariant env.Coherent() && Contents(env.layers) == layers
      invariant AfterPasses(s, values, passes, r, t) && Soonest(s, values, passes)
      decreases h + 1 - passes
    {
      Turn(s, values, passes, r, t, h);
      r := t;
      t := GsubPass(env, r, values);
      passes := passes + 1;
    }
    ResultAtEnd(layers, s, passes, r);
  }

  lemma ResultAtEnd(layers: seq<map<string, string>>, s: string, passes: nat, r: string)
    requires AfterPasses(s, ValuesOf(layers), passes, r, r) && Soonest(s, ValuesOf(layers), passes)
    ensures Pass(r, ValuesOf(layers)) == r
    ensures forall ranks :: FullResult(s, ValuesOf(layers), ranks, r, passes)
    ensures BareResult(layers, s, r, passes)
  {
    var values := ValuesOf(layers);
    BareAtEnd(layers, s, passes, r);
    forall ranks ensures FullResult(s, values, ranks, r, passes) {
      if Grounded(Tokens(s), values, ranks) && Follows(s, values) {
        FullAtEnd(s, values, ranks, passes, r);
      }
    }
  }

  lemma FullAtEnd(s: string, values: Values, ranks: imap<string, nat>, passes: nat, r: string)
    requires Grounded(Tokens(s), values, ranks) && Follows(s, values)
    requires AfterPasses(s, values, passes, r, r) && Soonest(s, values, passes)
    ensures FullResult(s, values, ranks, r, passes)
  {
    Settles(s, values, ranks);
    FullWhenSettled(s, values, ranks, if passes > 0 then passes - 1 else 0);
  }

  /** After as many passes as the text is high, a pass changes nothing. */
  lemma Settles(s: string, values: Values, ranks: imap<string, nat>)
    requires Grounded(Tokens(s), values, ranks) && Follows(s, values)
    ensures SettledAt(s, values, Height(Tokens(s), ranks))
  {
    var k := Height(Tokens(s), ranks);
    var t := Passes(s, values, k);
    PassesFollow(s, values, k);
    ExpandNLowers(Tokens(s), values, ranks, k);
    ExpandLowers(Tokens(t), values, ranks);
    PassIsExpand(t, values);
    SpelledInvertsTokens(t);
  }

  /** When a pass changes nothing, the text is the full expansion. */
  lemma FullWhenSettled(s: string, values: Values, ranks: imap<string, nat>, k: nat)
    requires Grounded(Tokens(s), values, ranks) && Follows(s, values)
    requires SettledAt(s, values, k)
    ensures Passes(s, values, k) == Spelled(Full(Tokens(s), values, ranks)) && Plain(Tokens(Passes(s, values, k)))
  {
    var t := Passes(s, values, k);
    PassesFollow(s, values, k);
    PassesFollow(s, values, k + 1);
    FullOfExpandN(Tokens(s), values, ranks, k);
    ExpandLowers(Tokens(t), values, ranks);
    FullOfPlain(Tokens(t), values, ranks);
    SpelledInvertsTokens(t);
  }

  predicate PlainAfter(s: string, values: Values, k: nat) { Plain(Tokens(Passes(s, values, k))) }

  ghost predicate ReachesPlain(s: string, values: Values) { exists k: nat :: PlainAfter(s, values, k) }

  lemma ReachesPlainIff(s: string, values: Values)
    requires Follows(s, values)
    ensures ReachesPlain(s, values) <==> Rests(Tokens(s), values, iset{})
  {
    if k: nat :| RestsIn(Tokens(s), values, iset{}, k) {
      PassesFollow(s, values, k);
      assert PlainAfter(s, values, k);
    } else if k: nat :| PlainAfter(s, values, k) {
      PassesFollow(s, values, k);
      assert RestsIn(Tokens(s), values, iset{}, k);
    }
  }

  /** When the passes can reach a text without references: exactly when the variables that the text leads to
      can be ranked; or, said the other way round, when it does not lead into a circle. */
  lemma ReachesPlainExactly(s: string, values: Values)
    requires Follows(s, values)
    ensures ReachesPlain(s, values) <==> Groundable(Tokens(s), values)
    ensures !ReachesPlain(s, values) <==> InCircle(Tokens(s), values, iset{})
  {
    ReachesPlainIff(s, values);
    RanksIff(Tokens(s), values, iset{});
    CircleIff(Tokens(s), values, iset{});
    GroundableIff(Tokens(s), values);
  }

  lemma LoopFollowsStops(s: string, values: Values)
    requires Follows(s, values)
    ensures LoopStops(s, values) <==> Settled(Tokens(s), values)
  {
    if k: nat :| SettledAt(s, values, k) {
      PassesFollow(s, values, k);
      PassesFollow(s, values, k + 1);
      assert FixedAt(Tokens(s), values, k);
    } else if k: nat :| FixedAt(Tokens(s), values, k) {
      PassesFollow(s, values, k);
      PassesFollow(s, values, k + 1);
      SpelledInvertsTokens(Passes(s, values, k));
      SpelledInvertsTokens(Passes(s, values, k + 1));
      assert SettledAt(s, values, k);
    }
  }

  /** When the loop ends: exactly when the variables that the text leads to can be ranked up to calm ones,
      which vanish or keep themselves; or, said the other way round, when it does not lead into a circle of
      others. */
  lemma LoopStopsIff(s: string, values: Values)
    requires Follows(s, values)
    ensures LoopStops(s, values) <==> Rankable(Tokens(s), values, Calm(values))
    ensures !LoopStops(s, values) <==> InCircle(Tokens(s), values, Calm(values))
  {
    LoopFollowsStops(s, values);
    SettledIff(Tokens(s), values);
    CalmIsClosed(values);
    RanksIff(Tokens(s), values, Calm(values));
    CircleIff(Tokens(s), values, Calm(values));
  }

  /** A reference alone is its value. */
  lemma PassOfRef(name: string, values: Values)
    requires IsName(name)
    ensures Pass(['$'] + name, values) == values(name) && Tokens(['$'] + name) == [Ref(name)]
  {
    var s := ['$'] + name;
    assert s[1..] == name + [] && name + [] == name;
    WordRunIs(name, []);
    assert name[..|name|] == name && name[|name|..] == [];
  }

  lemma {:induction false} IterateAlternates<T>(g: T -> T, x: T, y: T, k: nat)
    requires g(x) == y && g(y) == x
    ensures Iterate(g, x, k) == if k % 2 == 0 then x else y
  {
    if k > 0 {
      IterateAlternates(g, x, y, k - 1);
      assert (k - 1) % 2 == 0 <==> k % 2 != 0;
    }
  }

  /** For example: two variables that refer to each other make every pass change the text. */
  lemma TwoInACircle(a: string, b: string, values: Values, k: nat)
    requires IsName(a) && IsName(b) && a != b && values(a) == ['$'] + b && values(b) == ['$'] + a
    ensures Passes(['$'] + a, values, k + 1) != Passes(['$'] + a, values, k)
  {
    PassOfRef(a, values);
    PassOfRef(b, values);
    var x, y := ['$'] + a, ['$'] + b;
    assert x[1..] == a && y[1..] == b;
    IterateAlternates((t: string) => Pass(t, values), x, y, k);
    IterateAlternates((t: string) => Pass(t, values), x, y, k + 1);
  }

  /** For example: a variable that is a reference to itself is in a circle, and the loop stops at it. */
  lemma SelfStops(a: string, values: Values)
    requires IsName(a) && values(a) == ['$'] + a
    ensures InCircle([Ref(a)], values, iset{}) && a in Calm(values)
    ensures Pass(['$'] + a, values) == ['$'] + a && LoopStops(['$'] + a, values)
  {
    PassOfRef(a, values);
    var circle := iset{a};
    assert a in Names([Ref(a)]);
    assert LeadsInto(a, circle, values);
    assert Circular(circle, values) && Mentions([Ref(a)], circle);
    assert GoneIn([], values, 0);
    assert [] + ([Ref(a)] + []) == [Ref(a)];
    assert KeepsBetween(a, values, [], []);
    assert SettledAt(['$'] + a, values, 0);
  }

  lemma FuseTokens(c: string, w: string)
    requires IsName(c) && IsName(w)
    ensures !Canonical([Ref(c)] + Tokens(w)) && Spelled([Ref(c)] + Tokens(w)) == ['$'] + (c + w)
  {
    var ts := [Ref(c)] + Tokens(w);
    assert ts[1..] == Tokens(w);
    TokensCanonical(w);
    SpelledInvertsTokens(w);
  }

  lemma TwoTokens(a: string, b: string)
    requires IsName(a) && IsName(b)
    ensures Tokens(['$'] + (a + (['$'] + b))) == [Ref(a), Ref(b)]
  {
    RefToken(a, ['$'] + b);
    PassOfRef(b, (name: string) => "");
  }

  /** For example: the value of `a` ends in a reference and that of `b`, right behind it, is a word. They
      run together into a reference to another variable. */
  lemma TwoFuse(a: string, b: string, c: string, w: string, values: Values)
    requires IsName(a) && IsName(b) && IsName(c) && IsName(w) && values(a) == ['$'] + c && values(b) == w
    ensures !Follows(['$'] + (a + (['$'] + b)), values)
    ensures Pass(['$'] + (a + (['$'] + b)), values) == ['$'] + (c + w)
    ensures Tokens(['$'] + (c + w)) == [Ref(c + w)]
  {
    var s := ['$'] + (a + (['$'] + b));
    TwoTokens(a, b);
    PassOfRef(c, values);
    ExpandTwo(a, b, values);
    PassIsExpand(s, values);
    FuseTokens(c, w);
    PassOfRef(c + w, values);
    assert Pass(s, values) == ['$'] + (c + w);
    assert ExpandN(Tokens(s), values, 1) == Expand(ExpandN(Tokens(s), values, 0), values);
    assert !NothingFuses(s, values, 1);
    assert !Follows(s, values);
  }

  lemma ExpandTwo(a: string, b: string, values: Values)
    ensures Expand([Ref(a), Ref(b)], values) == Tokens(values(a)) + Tokens(values(b))
  {
    var x, y := [Ref(a)], [Ref(b)];
    assert Expand(x, values) == Tokens(values(a)) && Expand(y, values) == Tokens(values(b));
    ExpandConcat(x, y, values);
    assert [Ref(a), Ref(b)] == x + y;
  }
}
