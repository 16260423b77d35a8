/** The tracer's partial evaluator: constant folding over the synthesised environment,
    with placeholder strings wherever an expression cannot be resolved. It reads the
    environment and nothing else, so it cannot change any tracer state. */
module Evaluator {
  import opened Wrappers
  import opened Values
  import opened Syntax

  const ComplexExpression := "<complex_expression>"
  const ComplexSubscript := "<complex_subscript>"
  const IndexError := "<index_error>"

  function OperatorSymbol(op: Operator): (sym: string)
    ensures sym in ["+", "-", "*", "/", "//", "%", "**", "?"]
    ensures sym == "?" <==> op.OtherOp?
  {
    match op
    case Add => "+"
    case Sub => "-"
    case Mult => "*"
    case Div => "/"
    case FloorDiv => "//"
    case Mod => "%"
    case Pow => "**"
    case OtherOp(_) => "?"
  }

  /** Distinct recognised operators get distinct symbols. */
  lemma OperatorSymbolInjective(a: Operator, b: Operator)
    requires !a.OtherOp? && OperatorSymbol(a) == OperatorSymbol(b)
    ensures a == b
  {
  }

  /** Python's `//` on integers, which rounds toward negative infinity. */
  function FloorDivInt(a: int, b: int): (q: int)
    requires b != 0
    ensures b > 0 ==> b * q <= a < b * q + b
    ensures b < 0 ==> b * q + b < a <= b * q
  {
    if b > 0 then a / b else (-a) / (-b)
  }

  /** Python's `%` on integers: the remainder takes the sign of the divisor. */
  function ModInt(a: int, b: int): (r: int)
    requires b != 0
    ensures a == b * FloorDivInt(a, b) + r
    ensures b > 0 ==> 0 <= r < b
    ensures b < 0 ==> b < r <= 0
  {
    a - b * FloorDivInt(a, b)
  }

  function Power(a: int, n: nat): int
    decreases n
  {
    if n == 0 then 1 else a * Power(a, n - 1)
  }

  /** `s * n` for a string or list `s`: `s` repeated, nothing when `n <= 0`. */
  function Repeat<T>(s: seq<T>, n: int): (r: seq<T>)
    ensures |r| == if n <= 0 then 0 else |s| * n
    decreases if n <= 0 then 0 else n
  {
    if n <= 0 then []
    else
      assert |s| * n == |s| + |s| * (n - 1);
      s + Repeat(s, n - 1)
  }

  /** `sys.maxsize` of a 64-bit build. */
  const MaxSize: int := 0x7FFF_FFFF_FFFF_FFFF

  /** A count Python can turn into an index-sized integer; repeating a string or list by
      any other count raises `OverflowError`. */
  predicate IndexSized(n: int) {
    -MaxSize - 1 <= n <= MaxSize
  }

  /** The concrete result of `l op r` that the source obtains by `eval` of the two
      operands' reprs, or None where that raises (a type mismatch, a zero divisor, the
      `?` operator) or would produce a float, which the model does not represent. */
  function Fold(l: Value, op: Operator, r: Value): (f: Option<Value>)
    ensures (op == Div || op.OtherOp?) ==> f.None?
    ensures f.Some? && op != Add && op != Mult ==> f.value.VInt?
  {
    match op
    case Add =>
      if IsNum(l) && IsNum(r) then Some(VInt(Num(l) + Num(r)))
      else if l.VStr? && r.VStr? then Some(VStr(l.s + r.s))
      else if l.VList? && r.VList? then Some(VList(l.items + r.items))
      else None
    case Sub =>
      if IsNum(l) && IsNum(r) then Some(VInt(Num(l) - Num(r))) else None
    case Mult =>
      if IsNum(l) && IsNum(r) then Some(VInt(Num(l) * Num(r)))
      else if l.VStr? && IsNum(r) && IndexSized(Num(r)) then Some(VStr(Repeat(l.s, Num(r))))
      else if IsNum(l) && r.VStr? && IndexSized(Num(l)) then Some(VStr(Repeat(r.s, Num(l))))
      else if l.VList? && IsNum(r) && IndexSized(Num(r)) then Some(VList(Repeat(l.items, Num(r))))
      else if IsNum(l) && r.VList? && IndexSized(Num(l)) then Some(VList(Repeat(r.items, Num(l))))
      else None
    case Div => None
    case FloorDiv =>
      if IsNum(l) && IsNum(r) && Num(r) != 0 then Some(VInt(FloorDivInt(Num(l), Num(r)))) else None
    case Mod =>
      if IsNum(l) && IsNum(r) && Num(r) != 0 then Some(VInt(ModInt(Num(l), Num(r)))) else None
    case Pow =>
      if IsNum(l) && IsNum(r) && Num(r) >= 0 then Some(VInt(Power(Num(l), Num(r)))) else None
    case OtherOp(_) => None
  }

  /** Folding as the source's `eval(f"{repr(l)} {op} {repr(r)}")` actually behaves: for a
      negative integer on the left of `**` the text reads `-a ** n`, which Python parses
      as `-(a ** n)`. */
  function FoldAsWritten(l: Value, op: Operator, r: Value): Option<Value> {
    if op == Pow && l.VInt? && l.i < 0 && IsNum(r) && Num(r) >= 0 then
      Some(VInt(-Power(-l.i, Num(r))))
    else
      Fold(l, op, r)
  }

  /** The text the source falls back to when folding fails. */
  function TextForm(l: Value, op: Operator, r: Value): string {
    "(" + Str(l) + " " + OperatorSymbol(op) + " " + Str(r) + ")"
  }

  function FoldOrText(l: Value, op: Operator, r: Value): Value {
    match Fold(l, op, r)
    case Some(v) => v
    case None => VStr(TextForm(l, op, r))
  }

  function LiteralValue(lit: Literal): Value {
    match lit
    case LNone => VNone
    case LBool(b) => VBool(b)
    case LInt(i) => VInt(i)
    case LStr(s) => VStr(s)
  }

  function CalleeName(f: Callee): string {
    if f.FName? then f.id else "<unknown>"
  }

  /** `base[index]`: a list indexed by an integer (Python's negative indices included),
      `<index_error>` out of range, `<complex_subscript>` for anything else. */
  function SubscriptValue(base: Value, index: Value): (v: Value)
    ensures (base.VList? && v in base.items) || v == VStr(IndexError) || v == VStr(ComplexSubscript)
  {
    if base.VList? && IsNum(index) then
      var n, i := |base.items|, Num(index);
      if -n <= i < n then base.items[if i < 0 then i + n else i] else VStr(IndexError)
    else
      VStr(ComplexSubscript)
  }

  // ---------------------------------------------------------------- dictionaries

  /** Lists and dictionaries cannot be dictionary keys. */
  predicate Hashable(v: Value) {
    !v.VList? && !v.VDict?
  }

  /** Python's key equality on hashable values: `1`, `1` and `True` are one key. */
  predicate KeyEq(a: Value, b: Value) {
    if IsNum(a) && IsNum(b) then Num(a) == Num(b) else a == b
  }

  /** `d[k]` on a dictionary's entries, None for a missing key. */
  function Lookup(es: seq<Entry>, k: Value): Option<Value>
    decreases |es|
  {
    if es == [] then None
    else if KeyEq(es[0].key, k) then Some(es[0].val)
    else Lookup(es[1..], k)
  }

  predicate HasKey(es: seq<Entry>, k: Value) {
    Lookup(es, k).Some?
  }

  /** No two entries have equal keys. */
  predicate DistinctKeys(es: seq<Entry>)
    decreases |es|
  {
    es == [] || (!HasKey(es[1..], es[0].key) && DistinctKeys(es[1..]))
  }

  /** `d[k] = v`: an existing equal key keeps its place and its original key object and
      takes the new value; a new key is appended. */
  function Insert(es: seq<Entry>, k: Value, v: Value): (r: seq<Entry>)
    ensures forall k' :: Lookup(r, k') == if KeyEq(k, k') then Some(v) else Lookup(es, k')
    ensures DistinctKeys(es) ==> DistinctKeys(r)
    ensures |r| <= |es| + 1
    decreases |es|
  {
    if es == [] then [Entry(k, v)]
    else if KeyEq(es[0].key, k) then
      var r := [Entry(es[0].key, v)] + es[1..];
      assert r[1..] == es[1..];
      r
    else
      var rest := Insert(es[1..], k, v);
      var r := [es[0]] + rest;
      assert r[1..] == rest;
      r
  }

  /** Inserting a key equal to none present appends the pair. */
  lemma {:induction false} InsertFresh(es: seq<Entry>, k: Value, v: Value)
    requires forall j :: 0 <= j < |es| ==> !KeyEq(es[j].key, k)
    ensures Insert(es, k, v) == es + [Entry(k, v)]
    decreases |es|
  {
    if es != [] {
      InsertFresh(es[1..], k, v);
      assert [es[0]] + (es[1..] + [Entry(k, v)]) == es + [Entry(k, v)];
    }
  }

  /** The dictionary built from equally long key and value lists, inserted in order. */
  function BuildEntries(ks: seq<Value>, vs: seq<Value>): (r: seq<Entry>)
    requires |ks| == |vs|
    ensures DistinctKeys(r) && |r| <= |ks|
    decreases |ks|
  {
    if ks == [] then []
    else
      var n := |ks| - 1;
      Insert(BuildEntries(ks[..n], vs[..n]), ks[n], vs[n])
  }

  function FirstUnhashable(ks: seq<Value>): (r: Option<Value>)
    ensures r.None? <==> forall j :: 0 <= j < |ks| ==> Hashable(ks[j])
    ensures r.Some? ==> !Hashable(r.value) && r.value in ks
  {
    if ks == [] then None else if !Hashable(ks[0]) then Some(ks[0]) else FirstUnhashable(ks[1..])
  }

  function TypeName(v: Value): string {
    if v.VList? then "list" else if v.VDict? then "dict" else "object"
  }

  /** `{k: v for k, v in zip(ks, vs)}`: only the common prefix is paired; an unhashable
      key raises inside `evaluate`, whose handler renders the `TypeError`. */
  function MakeDict(ks: seq<Value>, vs: seq<Value>): (v: Value)
    ensures v.VDict? ==> DistinctKeys(v.entries) && |v.entries| <= |ks| && |v.entries| <= |vs|
    ensures !v.VDict? ==> v.VStr? && exists j :: 0 <= j < |ks| && j < |vs| && !Hashable(ks[j])
  {
    var n := if |ks| <= |vs| then |ks| else |vs|;
    match FirstUnhashable(ks[..n])
    case Some(k) =>
      var j :| 0 <= j < n && ks[..n][j] == k;
      assert ks[j] == k;
      VStr("<error unhashable type: '" + TypeName(k) + "'>")
    case None => VDict(BuildEntries(ks[..n], vs[..n]))
  }

  // ---------------------------------------------------------------- evaluate

  /** The source's `evaluate`: never fails, returns a placeholder instead. */
  function Evaluate(e: Expr, env: map<string, Value>): (v: Value)
    ensures (e.Call? || e.OtherExpr?) ==> v.VStr? && v.s != ""
    decreases e
  {
    match e
    case Constant(lit) => LiteralValue(lit)
    case Name(id) => if id in env then env[id] else VStr("<unresolved " + id + ">")
    case BinOp(a, op, b) => FoldOrText(Evaluate(a, env), op, Evaluate(b, env))
    case List(elts) => VList(EvaluateAll(elts, env))
    case Dict(ks, vs) => MakeDict(EvaluateAll(ks, env), EvaluateAll(vs, env))
    case Subscript(base, index) => SubscriptValue(Evaluate(base, env), Evaluate(index, env))
    case Call(f, args) => VStr(CalleeName(f) + "(" + Join(", ", StrAll(EvaluateAll(args, env))) + ")")
    case OtherExpr(_) => VStr(ComplexExpression)
  }

  /** Evaluates a list of expressions element-wise, keeping length and order. */
  function EvaluateAll(es: seq<Expr>, env: map<string, Value>): (vs: seq<Value>)
    ensures |vs| == |es| && forall k :: 0 <= k < |es| ==> vs[k] == Evaluate(es[k], env)
    decreases es
  {
    if es == [] then [] else [Evaluate(es[0], env)] + EvaluateAll(es[1..], env)
  }

  // ---------------------------------------------------------------- properties

  /** A Name resolves to its binding, and to its `<unresolved id>` placeholder when
      unbound; a List keeps the length and order of its elements. */
  lemma EvaluateNamesAndLists(id: string, elts: seq<Expr>, env: map<string, Value>)
    ensures id in env ==> Evaluate(Name(id), env) == env[id]
    ensures id !in env ==> Evaluate(Name(id), env) == VStr("<unresolved " + id + ">")
    ensures Evaluate(List(elts), env).VList?
    ensures var vs := Evaluate(List(elts), env).items;
      |vs| == |elts| && forall k :: 0 <= k < |elts| ==> vs[k] == Evaluate(elts[k], env)
  {
  }

  /** `j` is the last position in `ks` whose key equals `k`. */
  ghost predicate LastMatch(ks: seq<Value>, k: Value, j: int) {
    0 <= j < |ks| && KeyEq(ks[j], k) && forall j' :: j < j' < |ks| ==> !KeyEq(ks[j'], k)
  }

  /** Building a dictionary from key and value lists: a key never given is absent, and
      a given key maps to the value paired with its last occurrence (last write wins). */
  lemma {:induction false} DictLastWriteWins(ks: seq<Value>, vs: seq<Value>, k: Value)
    requires |ks| == |vs|
    ensures (forall j :: 0 <= j < |ks| ==> !KeyEq(ks[j], k)) ==> Lookup(BuildEntries(ks, vs), k) == None
    ensures forall j :: LastMatch(ks, k, j) ==> Lookup(BuildEntries(ks, vs), k) == Some(vs[j])
    decreases |ks|
  {
    if ks != [] {
      var n := |ks| - 1;
      var pk, pv := ks[..n], vs[..n];
      DictLastWriteWins(pk, pv, k);
      assert BuildEntries(ks, vs) == Insert(BuildEntries(pk, pv), ks[n], vs[n]);
      forall j | LastMatch(ks, k, j)
        ensures Lookup(BuildEntries(ks, vs), k) == Some(vs[j])
      {
        if j < n {
          assert !KeyEq(ks[n], k);
          assert LastMatch(pk, k, j);
        }
      }
    }
  }

  /** Keys paired with values position by position. */
  function Zip(ks: seq<Value>, vs: seq<Value>): (r: seq<Entry>)
    requires |ks| == |vs|
    ensures |r| == |ks| && forall j :: 0 <= j < |ks| ==> r[j] == Entry(ks[j], vs[j])
  {
    seq(|ks|, j requires 0 <= j < |ks| => Entry(ks[j], vs[j]))
  }

  lemma ZipSnoc(ks: seq<Value>, vs: seq<Value>)
    requires |ks| == |vs| > 0
    ensures var n := |ks| - 1; Zip(ks, vs) == Zip(ks[..n], vs[..n]) + [Entry(ks[n], vs[n])]
  {
  }

  /** With pairwise distinct keys the dictionary pairs keys with values positionally. */
  lemma {:induction false} DictDistinctKeysPositional(ks: seq<Value>, vs: seq<Value>)
    requires |ks| == |vs|
    requires forall a, b :: 0 <= a < b < |ks| ==> !KeyEq(ks[a], ks[b])
    ensures BuildEntries(ks, vs) == Zip(ks, vs)
    decreases |ks|
  {
    if ks != [] {
      var n := |ks| - 1;
      var pk, pv := ks[..n], vs[..n];
      DictDistinctKeysPositional(pk, pv);
      var prefix := BuildEntries(pk, pv);
      forall j | 0 <= j < |prefix|
        ensures !KeyEq(prefix[j].key, ks[n])
      {
        assert prefix[j].key == ks[j];
      }
      InsertFresh(prefix, ks[n], vs[n]);
      ZipSnoc(ks, vs);
    }
  }

  /** A dictionary display uses only the common prefix of its keys and values, as
      `zip` does. */
  lemma DictUsesCommonPrefix(ks: seq<Expr>, vs: seq<Expr>, env: map<string, Value>)
    ensures var n := if |ks| <= |vs| then |ks| else |vs|;
      Evaluate(Dict(ks, vs), env) == Evaluate(Dict(ks[..n], vs[..n]), env)
  {
    var n := if |ks| <= |vs| then |ks| else |vs|;
    var ek, ev := EvaluateAll(ks, env), EvaluateAll(vs, env);
    assert Evaluate(Dict(ks, vs), env) == MakeDict(ek, ev);
    assert Evaluate(Dict(ks[..n], vs[..n]), env) == MakeDict(EvaluateAll(ks[..n], env), EvaluateAll(vs[..n], env));
    EvaluatePrefix(ks, n, env);
    EvaluatePrefix(vs, n, env);
    MakeDictCommonPrefix(ek, ev, n);
  }

  lemma EvaluatePrefix(es: seq<Expr>, n: nat, env: map<string, Value>)
    requires n <= |es|
    ensures EvaluateAll(es[..n], env) == EvaluateAll(es, env)[..n]
  {
  }

  lemma MakeDictCommonPrefix(ks: seq<Value>, vs: seq<Value>, n: nat)
    requires n == if |ks| <= |vs| then |ks| else |vs|
    ensures MakeDict(ks, vs) == MakeDict(ks[..n], vs[..n])
  {
    assert ks[..n][..n] == ks[..n] && vs[..n][..n] == vs[..n];
  }

  /** An unhashable key among the paired keys turns the display into the rendered
      `TypeError`. */
  lemma DictKeysMustBeHashable(ks: seq<Expr>, vs: seq<Expr>, env: map<string, Value>, j: nat)
    requires j < |ks| && j < |vs| && !Hashable(Evaluate(ks[j], env))
    ensures Evaluate(Dict(ks, vs), env) == VStr("<error unhashable type: 'list'>") ||
            Evaluate(Dict(ks, vs), env) == VStr("<error unhashable type: 'dict'>")
  {
    var ek, ev := EvaluateAll(ks, env), EvaluateAll(vs, env);
    assert Evaluate(Dict(ks, vs), env) == MakeDict(ek, ev);
    MakeDictUnhashable(ek, ev, j);
  }

  lemma MakeDictUnhashable(ks: seq<Value>, vs: seq<Value>, j: nat)
    requires j < |ks| && j < |vs| && !Hashable(ks[j])
    ensures MakeDict(ks, vs) == VStr("<error unhashable type: 'list'>") ||
            MakeDict(ks, vs) == VStr("<error unhashable type: 'dict'>")
  {
    var n := if |ks| <= |vs| then |ks| else |vs|;
    assert !Hashable(ks[..n][j]);
    var u := FirstUnhashable(ks[..n]);
    assert u.Some?;
    assert MakeDict(ks, vs) == VStr("<error unhashable type: '" + TypeName(u.value) + "'>");
    if u.value.VList? {
      assert TypeName(u.value) == "list";
    } else {
      assert TypeName(u.value) == "dict";
    }
  }

  /** A list indexed by an integer in range yields that element, counting from the end
      for a negative index; any other integer yields `<index_error>`; any other base or
      index yields `<complex_subscript>`. */
  lemma SubscriptIndexing(xs: seq<Value>, i: int, base: Value, index: Value)
    ensures 0 <= i < |xs| ==> SubscriptValue(VList(xs), VInt(i)) == xs[i]
    ensures 0 <= i < |xs| ==> SubscriptValue(VList(xs), VInt(i - |xs|)) == xs[i]
    ensures (i >= |xs| || i < -|xs|) ==> SubscriptValue(VList(xs), VInt(i)) == VStr(IndexError)
    ensures !(base.VList? && IsNum(index)) ==> SubscriptValue(base, index) == VStr(ComplexSubscript)
  {
  }

  /** Integer operands of `+ - *` fold to the integer result. */
  lemma IntegerArithmetic(l: Expr, r: Expr, env: map<string, Value>, a: int, b: int)
    requires Evaluate(l, env) == VInt(a) && Evaluate(r, env) == VInt(b)
    ensures Evaluate(BinOp(l, Add, r), env) == VInt(a + b)
    ensures Evaluate(BinOp(l, Sub, r), env) == VInt(a - b)
    ensures Evaluate(BinOp(l, Mult, r), env) == VInt(a * b)
  {
  }

  /** Integer operands of `//` and `%` with a non-zero divisor fold to Python's floor
      quotient and remainder (see `FloorDivInt` and `ModInt`). */
  lemma IntegerDivision(l: Expr, r: Expr, env: map<string, Value>, a: int, b: int)
    requires Evaluate(l, env) == VInt(a) && Evaluate(r, env) == VInt(b) && b != 0
    ensures Evaluate(BinOp(l, FloorDiv, r), env) == VInt(FloorDivInt(a, b))
    ensures Evaluate(BinOp(l, Mod, r), env) == VInt(ModInt(a, b))
  {
  }

  /** A string or list times an integer is that many copies when the count is
      index-sized, and the text form otherwise, where Python raises `OverflowError`. */
  lemma SequenceRepetition(l: Expr, r: Expr, env: map<string, Value>, s: Value, n: int)
    requires (s.VStr? || s.VList?) && Evaluate(l, env) == s && Evaluate(r, env) == VInt(n)
    ensures IndexSized(n) ==>
      Evaluate(BinOp(l, Mult, r), env) == if s.VStr? then VStr(Repeat(s.s, n)) else VList(Repeat(s.items, n))
    ensures !IndexSized(n) ==> Evaluate(BinOp(l, Mult, r), env) == VStr(TextForm(s, Mult, VInt(n)))
  {
  }

  /** A zero divisor makes `eval` raise; `//` returns the text form instead of a fault. */
  lemma FloorDivByZeroIsText(l: Expr, r: Expr, env: map<string, Value>, a: int)
    requires Evaluate(l, env) == VInt(a) && Evaluate(r, env) == VInt(0)
    ensures Evaluate(BinOp(l, FloorDiv, r), env) == VStr("(" + IntToString(a) + " // 0)")
  {
    ZeroDivisorText(a);
  }

  /** Likewise for `%`. */
  lemma ModByZeroIsText(l: Expr, r: Expr, env: map<string, Value>, a: int)
    requires Evaluate(l, env) == VInt(a) && Evaluate(r, env) == VInt(0)
    ensures Evaluate(BinOp(l, Mod, r), env) == VStr("(" + IntToString(a) + " % 0)")
  {
    ZeroDivisorText(a);
  }

  /** The text of `a // 0` and `a % 0`. */
  lemma ZeroDivisorText(a: int)
    ensures FoldOrText(VInt(a), FloorDiv, VInt(0)) == VStr("(" + IntToString(a) + " // 0)")
    ensures FoldOrText(VInt(a), Mod, VInt(0)) == VStr("(" + IntToString(a) + " % 0)")
  {
    assert Str(VInt(0)) == "0" by {
      assert NatToString(0) == [DigitChar(0)];
    }
    var x := IntToString(a);
    assert "(" + x + " " + "//" + " " + "0" + ")" == "(" + x + " // 0)";
    assert "(" + x + " " + "%" + " " + "0" + ")" == "(" + x + " % 0)";
  }

  /** An operator without a symbol never folds: the result is the text `(l ? r)`. */
  lemma UnknownOperatorIsText(l: Expr, r: Expr, name: string, env: map<string, Value>)
    ensures Evaluate(BinOp(l, OtherOp(name), r), env) ==
      VStr("(" + Str(Evaluate(l, env)) + " ? " + Str(Evaluate(r, env)) + ")")
  {
    UnknownOperatorText(Evaluate(l, env), name, Evaluate(r, env));
  }

  lemma UnknownOperatorText(a: Value, name: string, b: Value)
    ensures FoldOrText(a, OtherOp(name), b) == VStr("(" + Str(a) + " ? " + Str(b) + ")")
  {
    var x, y := Str(a), Str(b);
    assert "(" + x + " " + "?" + " " + y + ")" == "(" + x + " ? " + y + ")";
  }

  /** `y = z + 1` with `z` unbound: the operand stays a placeholder and the sum its text. */
  lemma UnresolvedOperand(env: map<string, Value>)
    requires "z" !in env
    ensures Evaluate(BinOp(Name("z"), Add, Constant(LInt(1))), env) == VStr("(<unresolved z> + 1)")
  {
    var z := VStr("<unresolved z>");
    assert Evaluate(BinOp(Name("z"), Add, Constant(LInt(1))), env) == VStr(TextForm(z, Add, VInt(1)));
    UnresolvedPlusOneText();
  }

  lemma UnresolvedPlusOneText()
    ensures TextForm(VStr("<unresolved z>"), Add, VInt(1)) == "(<unresolved z> + 1)"
  {
    TextFormPlusOne("<unresolved z>");
  }

  lemma TextFormPlusOne(p: string)
    ensures TextForm(VStr(p), Add, VInt(1)) == "(" + p + " + 1)"
  {
    assert Str(VInt(1)) == "1" by {
      assert NatToString(1) == [DigitChar(1)];
    }
    assert "(" + p + " " + "+" + " " + "1" + ")" == "(" + p + " + 1)";
  }

  /** Two placeholders are strings, so `+` concatenates them rather than falling back
      to the text form. */
  lemma PlaceholdersConcatenate(env: map<string, Value>)
    requires "a" !in env && "b" !in env
    ensures Evaluate(BinOp(Name("a"), Add, Name("b")), env) == VStr("<unresolved a><unresolved b>")
  {
  }

  // ---------------------------------------------------------------- the `**` finding

  lemma {:induction false} PowerPositive(a: int, n: nat)
    requires a >= 1
    ensures Power(a, n) >= 1
    decreases n
  {
    if n > 0 {
      PowerPositive(a, n - 1);
    }
  }

  /** As written, an even power of a negative integer comes out negative. */
  lemma {:induction false} AsWrittenNegativeBasePower(a: int, n: nat)
    requires a < 0 && n % 2 == 0
    ensures FoldAsWritten(VInt(a), Pow, VInt(n)).Some?
    ensures FoldAsWritten(VInt(a), Pow, VInt(n)).value.VInt?
    ensures FoldAsWritten(VInt(a), Pow, VInt(n)).value.i < 0
  {
    PowerPositive(-a, n);
  }

  /** The concrete input: `(-2) ** 2` folds to -4 as written and to 4 when corrected. */
  lemma AsWrittenSquareOfMinusTwo()
    ensures FoldAsWritten(VInt(-2), Pow, VInt(2)) == Some(VInt(-4))
    ensures Fold(VInt(-2), Pow, VInt(2)) == Some(VInt(4))
  {
  }

  /** Negating the base flips the sign of odd powers only. */
  lemma {:induction false} PowerOfNegatedBase(a: int, n: nat)
    ensures Power(-a, n) == if n % 2 == 0 then Power(a, n) else -Power(a, n)
    decreases n
  {
    if n > 0 {
      PowerOfNegatedBase(a, n - 1);
      var p := Power(a, n - 1);
      assert Power(-a, n) == -a * Power(-a, n - 1);
      if n % 2 == 0 {
        assert Power(-a, n - 1) == -p;
        assert -a * -p == a * p;
      } else {
        assert Power(-a, n - 1) == p;
        assert -a * p == -(a * p);
      }
    }
  }

  /** Even powers are never negative. */
  lemma {:induction false} EvenPowerNonNegative(a: int, n: nat)
    requires n % 2 == 0
    ensures Power(a, n) >= 0
    decreases n
  {
    if n > 0 {
      EvenPowerNonNegative(a, n - 2);
      var p := Power(a, n - 2);
      assert Power(a, n) == a * (a * p);
      assert a * (a * p) == (a * a) * p;
      assert a * a >= 0;
    }
  }

  /** Corrected folding of `a ** n` on integers is the power itself. */
  lemma FoldPowIsPower(a: int, n: nat)
    ensures Fold(VInt(a), Pow, VInt(n)) == Some(VInt(Power(a, n)))
    ensures n % 2 == 0 ==> Power(a, n) >= 0
  {
    if n % 2 == 0 {
      EvenPowerNonNegative(a, n);
    }
  }

  /** The as-written folding differs from the corrected one exactly on an even power of
      a negative integer; for an odd power `-(a ** n)` and `(-a) ** n` coincide. */
  lemma AsWrittenDiffersOnlyOnEvenPowers(l: Value, op: Operator, r: Value)
    ensures FoldAsWritten(l, op, r) != Fold(l, op, r) <==>
      op == Pow && l.VInt? && l.i < 0 && IsNum(r) && Num(r) >= 0 && Num(r) % 2 == 0
  {
    if op == Pow && l.VInt? && l.i < 0 && IsNum(r) && Num(r) >= 0 {
      var a, n := l.i, Num(r);
      PowerOfNegatedBase(-a, n);
      if n % 2 == 0 {
        PowerPositive(-a, n);
      }
    }
  }
}
