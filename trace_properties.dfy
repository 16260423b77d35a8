/** Properties of the trace semantics: input consumption, the assignment forms, the
    loop replays, and the shape of a finished trace. */
module TraceProperties {
  import opened Wrappers
  import opened Values
  import opened Syntax
  import opened Evaluator
  import opened TraceSpec

  // ---------------------------------------------------------------- inputs

  /** The values and final state of `k` consecutive `get_next_input` calls. */
  function ReadMany(st: State, k: nat): (seq<string>, State)
    decreases k
  {
    if k == 0 then ([], st)
    else
      var (v, st1) := NextInput(st);
      var (vs, st2) := ReadMany(st1, k - 1);
      ([v] + vs, st2)
  }

  /** `n` copies of `input_missing`. */
  function MissingInputs(n: nat): seq<string> {
    if n == 0 then [] else [InputMissing] + MissingInputs(n - 1)
  }

  function Min(a: int, b: int): int {
    if a <= b then a else b
  }

  /** `k` reads from `st` hand out the remaining inputs in order, then `input_missing`,
      and move the cursor past the inputs they handed out. */
  predicate ReadsInOrder(st: State, k: nat)
    requires st.counter <= |st.inputs|
  {
    var m := Min(k, |st.inputs| - st.counter);
    && ReadMany(st, k).0 == st.inputs[st.counter..st.counter + m] + MissingInputs(k - m)
    && ReadMany(st, k).1 == st.(counter := st.counter + m)
  }

  /** Inputs are handed out in order, each once; after the last one every call yields
      `input_missing` and leaves the cursor where it is. */
  lemma {:induction false} ReadManyInOrder(st: State, k: nat)
    requires st.counter <= |st.inputs|
    ensures ReadsInOrder(st, k)
    decreases k
  {
    if k > 0 {
      ReadManyInOrder(NextInput(st).1, k - 1);
      if st.counter < |st.inputs| {
        ReadStepAvailable(st, k);
      } else {
        ReadStepExhausted(st, k);
      }
    }
  }

  lemma ReadStepAvailable(st: State, k: nat)
    requires st.counter < |st.inputs| && 0 < k
    requires ReadsInOrder(NextInput(st).1, k - 1)
    ensures ReadsInOrder(st, k)
  {
    var (v, st1) := NextInput(st);
    var (vs, st2) := ReadMany(st1, k - 1);
    assert ReadMany(st, k) == ([v] + vs, st2);
    var m := Min(k, |st.inputs| - st.counter);
    var missing := MissingInputs(k - m);
    assert Min(k - 1, |st1.inputs| - st1.counter) == m - 1;
    var rest := st.inputs[st1.counter..st1.counter + (m - 1)];
    assert vs == rest + missing;
    assert st.inputs[st.counter..st.counter + m] == [v] + rest;
    SnocAssoc(v, rest, missing);
  }

  lemma ReadStepExhausted(st: State, k: nat)
    requires st.counter == |st.inputs| && 0 < k
    requires ReadsInOrder(NextInput(st).1, k - 1)
    ensures ReadsInOrder(st, k)
  {
    var (v, st1) := NextInput(st);
    assert st1 == st;
    assert MissingInputs(k) == [InputMissing] + MissingInputs(k - 1);
    assert st.inputs[st.counter..st.counter] == [];
  }

  lemma SnocAssoc<T>(v: T, a: seq<T>, b: seq<T>)
    ensures [v] + (a + b) == ([v] + a) + b
  {
  }

  // ---------------------------------------------------------------- assignments

  /** `x = input()` binds the next input as a string and logs it quoted. */
  lemma AssignFromInput(x: string, args: seq<Expr>, st: State, cap: nat)
    ensures var o := ExecStmt(Assign(TName(x), Call(FName("input"), args)), st, cap);
      var raw := if st.counter < |st.inputs| then st.inputs[st.counter] else InputMissing;
      && o.status == Normal
      && o.st.env == st.env[x := VStr(raw)]
      && o.st.steps == st.steps + [Step(AssignKind, x + " = '" + raw + "'")]
      && o.st.counter == (if st.counter < |st.inputs| then st.counter + 1 else st.counter)
  {
  }

  /** `x = int(input())` on an input that is a rendered integer binds that integer. */
  lemma AssignIntInputRoundTrip(x: string, args: seq<Expr>, more: seq<Expr>, n: int, st: State, cap: nat)
    requires st.counter < |st.inputs| && st.inputs[st.counter] == IntToString(n)
    ensures var o := ExecStmt(Assign(TName(x), Call(FName("int"), [Call(FName("input"), args)] + more)), st, cap);
      && o.status == Normal
      && o.st.env == st.env[x := VInt(n)]
      && o.st.steps == st.steps + [Step(AssignKind, x + " = " + IntToString(n))]
      && o.st.counter == st.counter + 1
  {
    ParseIntRoundTrip(n);
  }

  /** `x = int(input())` after the inputs ran out binds the string `error`. */
  lemma AssignIntOfMissingInput(x: string, args: seq<Expr>, more: seq<Expr>, st: State, cap: nat)
    requires st.counter >= |st.inputs|
    ensures var o := ExecStmt(Assign(TName(x), Call(FName("int"), [Call(FName("input"), args)] + more)), st, cap);
      && o.status == Normal
      && o.st.env == st.env[x := VStr("error")]
      && o.st.steps == st.steps + [Step(AssignKind, x + " = error")]
      && o.st.counter == st.counter
  {
    MissingInputIsNotInt();
    assert x + " = " + Str(VStr("error")) == x + " = error";
  }

  /** `x = int(input())` binds the converted next input: the integer when `int()`
      accepts the text, the string `error` when it does not (a non-numeric input, or
      `input_missing` once the inputs ran out). */
  lemma AssignIntFromInput(x: string, args: seq<Expr>, more: seq<Expr>, st: State, cap: nat)
    ensures var o := ExecStmt(Assign(TName(x), Call(FName("int"), [Call(FName("input"), args)] + more)), st, cap);
      var raw := if st.counter < |st.inputs| then st.inputs[st.counter] else InputMissing;
      && o.status == Normal
      && o.st.env == st.env[x := IntConversion(raw)]
      && o.st.steps == st.steps + [Step(AssignKind, x + " = " + Str(IntConversion(raw)))]
      && o.st.counter == (if st.counter < |st.inputs| then st.counter + 1 else st.counter)
  {
  }

  /** The conversion accepts surrounding whitespace, a sign and leading zeros. */
  lemma IntConversionAccepts()
    ensures IntConversion(" 7") == VInt(7)
    ensures IntConversion("+7") == VInt(7)
    ensures IntConversion("007") == VInt(7)
    ensures IntConversion("-7\n") == VInt(-7)
  {
    assert DigitsValue("7") == 7;
    assert AllSpace(" ") && " " + "" + "7" + "" == " 7";
    ConvertDigits(" ", "", "7", "", 7);
    assert "" + "+" + "7" + "" == "+7";
    ConvertDigits("", "+", "7", "", 7);
    assert "007"[..2] == "00" && "00"[..1] == "0";
    assert DigitsValue("007") == 7;
    assert "" + "" + "007" + "" == "007";
    ConvertDigits("", "", "007", "", 7);
    assert AllSpace("\n") && "" + "-" + "7" + "\n" == "-7\n";
    ConvertDigits("", "-", "7", "\n", -7);
  }

  lemma ConvertDigits(w1: string, sign: string, d: string, w2: string, n: int)
    requires AllSpace(w1) && IsSign(sign) && d != [] && AllDigits(d) && AllSpace(w2)
    requires Signed(sign, DigitsValue(d)) == n
    ensures IntConversion(w1 + sign + d + w2) == VInt(n)
  {
    ParseIntAccepts(w1, sign, d, w2);
  }

  /** Text that is not an optionally signed number converts to `error`. */
  lemma IntConversionRejects()
    ensures IntConversion("abc") == VStr("error")
    ensures IntConversion("7 7") == VStr("error")
  {
    assert TrimStart("abc") == "abc" && TrimEnd("abc") == "abc" && !IsDigit('a');
    assert TrimStart("7 7") == "7 7" && TrimEnd("7 7") == "7 7" && !IsDigit(' ');
  }

  /** The right-hand sides `visit_Assign` treats specially: `input(...)`, and
      `int(c(...))` whose inner callee is `input` or has no `id`. */
  predicate SpecialAssignValue(e: Expr) {
    || IsCallTo(e, "input")
    || (IsCallTo(e, "int") && |e.args| > 0 && e.args[0].Call?
        && (e.args[0].func.FOther? || e.args[0].func.id == "input"))
  }

  /** Any other `x = e` binds the value of `e` and logs it, reading no input. */
  lemma AssignEvaluates(x: string, e: Expr, st: State, cap: nat)
    requires !SpecialAssignValue(e)
    ensures var v := Evaluate(e, st.env);
      ExecStmt(Assign(TName(x), e), st, cap)
        == Outcome(Normal, st.(env := st.env[x := v], steps := st.steps + [Step(AssignKind, x + " = " + Str(v))]))
  {
  }

  lemma MissingInputIsNotInt()
    ensures ParseInt(InputMissing) == None
  {
    assert TrimStart(InputMissing) == InputMissing;
    assert TrimEnd(InputMissing) == InputMissing;
    assert !IsDigit(InputMissing[0]) && !IsDigit(InputMissing[1]);
  }

  /** Statements after a list that ended normally continue from its final state. */
  lemma {:induction false} ExecBlockAppend(a: seq<Stmt>, b: seq<Stmt>, st: State, cap: nat)
    ensures ExecBlock(a + b, st, cap)
         == var o := ExecBlock(a, st, cap); if o.status.Normal? then ExecBlock(b, o.st, cap) else o
    decreases |a|
  {
    if a == [] {
      assert a + b == b;
    } else {
      assert (a + b)[0] == a[0] && (a + b)[1..] == a[1..] + b;
      var o := ExecStmt(a[0], st, cap);
      if o.status.Normal? {
        ExecBlockAppend(a[1..], b, o.st, cap);
      }
    }
  }

  /** An exception escaping a statement discards every step logged before it, by any
      statement: the whole trace is the one error step. */
  lemma RaisedCollapses(pre: seq<Stmt>, s: Stmt, rest: seq<Stmt>, inputs: seq<string>, cap: nat, message: string)
    requires ExecBlock(pre, Initial(inputs), cap).status == Normal
    requires ExecStmt(s, ExecBlock(pre, Initial(inputs), cap).st, cap).status == Raised(message)
    ensures Trace(Parsed(Module(pre + [s] + rest)), inputs, cap) == Finished(ErrorTrace(message))
  {
    var o := ExecBlock(pre, Initial(inputs), cap);
    assert pre + [s] + rest == pre + ([s] + rest);
    ExecBlockAppend(pre, [s] + rest, Initial(inputs), cap);
    assert ([s] + rest)[0] == s;
    assert ExecBlock([s] + rest, o.st, cap) == ExecStmt(s, o.st, cap);
  }

  /** `x = int(f.g())`: reading `.id` of a callee that is not a plain name raises, and
      the whole trace collapses to that one error, whatever was logged before. */
  lemma IntOfUnnamedCallCollapses(pre: seq<Stmt>, x: string, kind: string, args: seq<Expr>, more: seq<Expr>,
                                  rest: seq<Stmt>, inputs: seq<string>, cap: nat)
    requires ExecBlock(pre, Initial(inputs), cap).status == Normal
    ensures Trace(Parsed(Module(pre + [Assign(TName(x), Call(FName("int"), [Call(FOther(kind), args)] + more))] + rest)), inputs, cap)
         == Finished(ErrorTrace(NoIdMessage(kind)))
  {
    var s := Assign(TName(x), Call(FName("int"), [Call(FOther(kind), args)] + more));
    var o := ExecBlock(pre, Initial(inputs), cap);
    assert ExecStmt(s, o.st, cap) == ExecAssign(s.target, s.value, o.st);
    RaisedCollapses(pre, s, rest, inputs, cap, NoIdMessage(kind));
  }

  /** `for a, b in ...`: a target without an `id` collapses the trace to one error,
      whatever was logged before. */
  lemma ForWithoutNameCollapses(pre: seq<Stmt>, kind: string, iter: Expr, body: seq<Stmt>, orelse: seq<Stmt>,
                                rest: seq<Stmt>, inputs: seq<string>, cap: nat)
    requires ExecBlock(pre, Initial(inputs), cap).status == Normal
    ensures Trace(Parsed(Module(pre + [For(TOther(kind), iter, body, orelse)] + rest)), inputs, cap)
         == Finished(ErrorTrace(NoIdMessage(kind)))
  {
    var s := For(TOther(kind), iter, body, orelse);
    var o := ExecBlock(pre, Initial(inputs), cap);
    assert ExecStmt(s, o.st, cap) == ExecForStmt(TOther(kind), iter, body, o.st, cap);
    RaisedCollapses(pre, s, rest, inputs, cap, NoIdMessage(kind));
  }

  // ---------------------------------------------------------------- if

  /** `visit_If` logs the test and visits the body whether or not the test holds; the
      `else` branch is never visited. */
  lemma IfVisitsBodyOnly(test: Expr, body: seq<Stmt>, orelse: seq<Stmt>, st: State, cap: nat)
    ensures ExecStmt(If(test, body, orelse), st, cap) == ExecStmt(If(test, body, []), st, cap)
    ensures ExecStmt(If(test, body, orelse), st, cap)
         == ExecBlock(body, Emit(st, IfKind, "if " + Str(Evaluate(test, st.env)) + ":"), cap)
  {
  }

  // ---------------------------------------------------------------- for

  /** A `for` over anything but a list logs its header and nothing else. */
  lemma ForOverNonList(t: string, iter: Expr, body: seq<Stmt>, orelse: seq<Stmt>, st: State, cap: nat)
    requires !Evaluate(iter, st.env).VList?
    ensures ExecStmt(For(TName(t), iter, body, orelse), st, cap)
         == Outcome(Normal, Emit(st, ForKind, "for " + t + " in " + Str(Evaluate(iter, st.env)) + ":"))
  {
  }

  /** A `for` over a list logs its header, then iterates over the list's elements. */
  lemma ForOverList(t: string, iter: Expr, body: seq<Stmt>, st: State, cap: nat)
    requires Evaluate(iter, st.env).VList?
    ensures var it := Evaluate(iter, st.env);
      ExecForStmt(TName(t), iter, body, st, cap)
        == ExecFor(t, it.items, body, Emit(st, ForKind, "for " + t + " in " + Str(it) + ":"), cap)
  {
  }

  /** The bodies whose iterations are spelled out below: empty, or `print(t)` alone. */
  function SimpleBody(t: string, printed: bool): seq<Stmt> {
    if printed then [ExprStmt(Call(FName("print"), [Name(t)]))] else []
  }

  /** The steps one iteration binding `v` to `t` emits around such a body. */
  function ElementSteps(t: string, v: Value, printed: bool): seq<Step> {
    [Step(AssignKind, t + " = " + Str(v))]
      + (if printed then [Step(PrintKind, Str(v))] else [])
      + (if t == "i" then [Step(PrintKind, "Print i: " + Str(v))] else [])
  }

  function IterationSteps(t: string, xs: seq<Value>, printed: bool): seq<Step>
    decreases xs
  {
    if xs == [] then [] else ElementSteps(t, xs[0], printed) + IterationSteps(t, xs[1..], printed)
  }

  /** The state after iterating `t` over `xs` around such a body. */
  function SimpleLoop(t: string, xs: seq<Value>, printed: bool, st: State): State
    decreases xs
  {
    if xs == [] then st
    else SimpleLoop(t, xs[1..], printed, st.(env := st.env[t := xs[0]], steps := st.steps + ElementSteps(t, xs[0], printed)))
  }

  lemma {:induction false} ForSimpleBodyIsSimpleLoop(t: string, xs: seq<Value>, printed: bool, st: State, cap: nat)
    ensures ExecFor(t, xs, SimpleBody(t, printed), st, cap) == Outcome(Normal, SimpleLoop(t, xs, printed, st))
    decreases xs
  {
    if xs != [] {
      SimpleBodyIteration(t, xs, printed, st, cap);
      ForSimpleBodyIsSimpleLoop(t, xs[1..], printed,
        st.(env := st.env[t := xs[0]], steps := st.steps + ElementSteps(t, xs[0], printed)), cap);
    }
  }

  lemma {:induction false} SimpleLoopState(t: string, xs: seq<Value>, printed: bool, st: State)
    ensures SimpleLoop(t, xs, printed, st)
         == st.(env := if xs == [] then st.env else st.env[t := xs[|xs| - 1]],
                steps := st.steps + IterationSteps(t, xs, printed))
    decreases xs
  {
    if xs != [] {
      var st2 := st.(env := st.env[t := xs[0]], steps := st.steps + ElementSteps(t, xs[0], printed));
      SimpleLoopState(t, xs[1..], printed, st2);
      assert IterationSteps(t, xs, printed) == ElementSteps(t, xs[0], printed) + IterationSteps(t, xs[1..], printed);
      AppendAssoc(st.steps, ElementSteps(t, xs[0], printed), IterationSteps(t, xs[1..], printed));
      if xs[1..] != [] {
        assert xs[1..][|xs[1..]| - 1] == xs[|xs| - 1];
        UpdateTwice(st.env, t, xs[0], xs[|xs| - 1]);
      }
    }
  }

  /** With an empty body, or the body `print(t)`, iterating a list emits per element its
      `assign` step, the printed element, and a `Print i:` step when the target is `i`,
      and leaves the last element bound. */
  lemma ForSimpleBodySteps(t: string, xs: seq<Value>, printed: bool, st: State, cap: nat)
    ensures ExecFor(t, xs, SimpleBody(t, printed), st, cap)
         == Outcome(Normal, st.(env := if xs == [] then st.env else st.env[t := xs[|xs| - 1]],
                                steps := st.steps + IterationSteps(t, xs, printed)))
  {
    ForSimpleBodyIsSimpleLoop(t, xs, printed, st, cap);
    SimpleLoopState(t, xs, printed, st);
  }

  lemma AppendAssoc<T>(a: seq<T>, b: seq<T>, c: seq<T>)
    ensures a + (b + c) == (a + b) + c
  {
  }

  lemma UpdateTwice(m: map<string, Value>, k: string, a: Value, b: Value)
    ensures m[k := a][k := b] == m[k := b]
  {
  }

  /** What the body `print(t)` does once `t` is bound to `v`. */
  lemma PrintBodyStep(t: string, v: Value, st: State, cap: nat)
    requires t in st.env && st.env[t] == v
    ensures ExecBlock(SimpleBody(t, true), st, cap) == Outcome(Normal, Emit(st, PrintKind, Str(v)))
  {
    var p := ExprStmt(Call(FName("print"), [Name(t)]));
    assert EvaluateAll([Name(t)], st.env) == [v];
    assert StrAll([v]) == [Str(v)];
    assert ExecStmt(p, st, cap) == Outcome(Normal, Emit(st, PrintKind, Str(v)));
    assert [p][1..] == [];
  }

  lemma SimpleBodyIteration(t: string, xs: seq<Value>, printed: bool, st: State, cap: nat)
    requires xs != []
    ensures ExecFor(t, xs, SimpleBody(t, printed), st, cap)
         == ExecFor(t, xs[1..], SimpleBody(t, printed),
                    st.(env := st.env[t := xs[0]], steps := st.steps + ElementSteps(t, xs[0], printed)), cap)
  {
    var v := xs[0];
    var body := SimpleBody(t, printed);
    var st1 := Bind(st, t, v, t + " = " + Str(v));
    var a := [Step(AssignKind, t + " = " + Str(v))];
    var b := if printed then [Step(PrintKind, Str(v))] else [];
    var o := ExecBlock(body, st1, cap);
    if printed {
      PrintBodyStep(t, v, st1, cap);
    } else {
      assert o == Outcome(Normal, st1);
    }
    assert o.st == st1.(steps := st1.steps + b);
    AppendAssoc(st.steps, a, b);
    var st2 := if t == "i" then Emit(o.st, PrintKind, "Print i: " + Str(v)) else o.st;
    var c := if t == "i" then [Step(PrintKind, "Print i: " + Str(v))] else [];
    assert st2.steps == (st.steps + (a + b)) + c;
    AppendAssoc(st.steps, a + b, c);
    assert ExecFor(t, xs, body, st, cap) == ExecFor(t, xs[1..], body, st2, cap);
  }

  /** After a `for` loop that ends normally, its target holds the last element, provided
      the body does not rebind it. */
  lemma {:induction false} ForLeavesLastElement(t: string, xs: seq<Value>, body: seq<Stmt>, st: State, cap: nat)
    requires xs != [] && t !in WritesBlock(body)
    requires ExecFor(t, xs, body, st, cap).status == Normal
    ensures var env := ExecFor(t, xs, body, st, cap).st.env; t in env && env[t] == xs[|xs| - 1]
    decreases xs
  {
    var st1 := Bind(st, t, xs[0], t + " = " + Str(xs[0]));
    var o := ExecBlock(body, st1, cap);
    assert t in st1.env - WritesBlock(body) && (st1.env - WritesBlock(body))[t] == xs[0];
    assert t in o.st.env && o.st.env[t] == xs[0];
    var st2 := if t == "i" then Emit(o.st, PrintKind, "Print i: " + Str(xs[0])) else o.st;
    assert ExecFor(t, xs, body, st, cap) == ExecFor(t, xs[1..], body, st2, cap);
    if xs[1..] != [] {
      ForLeavesLastElement(t, xs[1..], body, st2, cap);
      assert xs[1..][|xs[1..]| - 1] == xs[|xs| - 1];
    }
  }

  // ---------------------------------------------------------------- while

  /** A `while` whose first test value is falsy logs its header and nothing else. */
  lemma WhileFalsyTest(test: Expr, body: seq<Stmt>, orelse: seq<Stmt>, st: State, cap: nat)
    requires !Truthy(Evaluate(test, st.env))
    ensures ExecStmt(While(test, body, orelse), st, cap)
         == Outcome(Normal, Emit(st, WhileKind, "while " + Str(Evaluate(test, st.env)) + ":"))
  {
    var tv := Evaluate(test, st.env);
    var st1 := Emit(st, WhileKind, "while " + Str(tv) + ":");
    assert ExecStmt(While(test, body, orelse), st, cap) == ExecWhileStmt(test, body, st, cap);
    assert ExecWhileStmt(test, body, st, cap) == ExecWhile(test, body, tv, st1, cap, cap);
    assert ExecWhile(test, body, tv, st1, cap, cap) == Outcome(Normal, st1);
  }

  /** Tests whose placeholder value is a non-empty string in every environment. */
  predicate AlwaysTruthy(test: Expr) {
    test.Call? || test.OtherExpr?
  }

  lemma AlwaysTruthyValue(test: Expr, env: map<string, Value>)
    requires AlwaysTruthy(test)
    ensures Truthy(Evaluate(test, env))
  {
  }

  /** A replayed `while` whose test is a call or an unsupported expression never ends
      normally: it raises from its body or reaches the cap. */
  lemma {:induction false} AlwaysTruthyReplay(test: Expr, body: seq<Stmt>, tv: Value, st: State, cap: nat, fuel: nat)
    requires AlwaysTruthy(test) && Truthy(tv)
    ensures !ExecWhile(test, body, tv, st, cap, fuel).status.Normal?
    decreases fuel
  {
    if fuel > 0 {
      var o := ExecBlock(body, st, cap);
      if o.status.Normal? {
        AlwaysTruthyValue(test, o.st.env);
        AlwaysTruthyReplay(test, body, Evaluate(test, o.st.env), o.st, cap, fuel - 1);
      }
    }
  }

  lemma WhileAlwaysTruthyNeverFinishes(test: Expr, body: seq<Stmt>, orelse: seq<Stmt>, st: State, cap: nat)
    requires AlwaysTruthy(test)
    ensures !ExecStmt(While(test, body, orelse), st, cap).status.Normal?
  {
    AlwaysTruthyValue(test, st.env);
    var tv := Evaluate(test, st.env);
    AlwaysTruthyReplay(test, body, tv, Emit(st, WhileKind, "while " + Str(tv) + ":"), cap, cap);
  }

  /** A replay that ends normally stops at a falsy test: the test, evaluated in the
      final environment, is falsy. */
  lemma {:induction false} WhileExitsOnFalsyTest(test: Expr, body: seq<Stmt>, tv: Value, st: State, cap: nat, fuel: nat)
    requires tv == Evaluate(test, st.env)
    ensures ExitsOnFalsy(test, ExecWhile(test, body, tv, st, cap, fuel))
    decreases fuel, 1
  {
    if !Truthy(tv) {
      WhileFalsyStops(test, body, tv, st, cap, fuel);
    } else if fuel == 0 {
      WhileOutOfFuel(test, body, tv, st, cap);
    } else {
      WhileRestExits(test, body, ExecBlock(body, st, cap), cap, fuel - 1);
      WhileExitStep(test, body, tv, st, cap, fuel);
    }
  }

  lemma {:induction false} WhileRestExits(test: Expr, body: seq<Stmt>, o: Outcome, cap: nat, fuel: nat)
    ensures RestExits(test, body, o, cap, fuel)
    decreases fuel, 2
  {
    if o.status.Normal? {
      WhileExitsOnFalsyTest(test, body, Evaluate(test, o.st.env), o.st, cap, fuel);
    }
  }

  /** The outcome of a replay that ended normally has a falsy test. */
  predicate ExitsOnFalsy(test: Expr, o: Outcome) {
    o.status.Normal? ==> !Truthy(Evaluate(test, o.st.env))
  }

  /** After a first body run `o` that ended normally, the remainder exits on a falsy test. */
  predicate RestExits(test: Expr, body: seq<Stmt>, o: Outcome, cap: nat, fuel: nat) {
    o.status.Normal? ==> ExitsOnFalsy(test, Rest(test, body, o, cap, fuel))
  }

  /** A replay with a truthy test ends as its remainder after the first body run. */
  lemma WhileExitStep(test: Expr, body: seq<Stmt>, tv: Value, st: State, cap: nat, fuel: nat)
    requires Truthy(tv) && fuel > 0
    requires RestExits(test, body, ExecBlock(body, st, cap), cap, fuel - 1)
    ensures ExitsOnFalsy(test, ExecWhile(test, body, tv, st, cap, fuel))
  {
    WhileUnfold(test, body, tv, st, cap, fuel);
  }

  /** A `while` statement that ends normally leaves its test falsy. */
  lemma WhileEndsWithFalsyTest(test: Expr, body: seq<Stmt>, orelse: seq<Stmt>, st: State, cap: nat)
    ensures ExitsOnFalsy(test, ExecStmt(While(test, body, orelse), st, cap))
  {
    var tv := Evaluate(test, st.env);
    var st1 := Emit(st, WhileKind, "while " + Str(tv) + ":");
    assert ExecStmt(While(test, body, orelse), st, cap) == ExecWhile(test, body, tv, st1, cap, cap);
    WhileExitsOnFalsyTest(test, body, tv, st1, cap, cap);
  }

  // ---------------------------------------------------------------- iteration cap

  /* A run that did not reach the cap is the same under any larger cap: the cap only
     decides when to give up on a replay, never what a finished replay does. */

  lemma {:induction false} StmtCapMonotone(s: Stmt, st: State, cap: nat, cap': nat)
    requires cap <= cap' && !ExecStmt(s, st, cap).status.CapReached?
    ensures ExecStmt(s, st, cap') == ExecStmt(s, st, cap)
    decreases StmtSize(s), 1
  {
    match s
    case Assign(_, _) =>
    case ExprStmt(_) =>
    case If(test, body, _) =>
      BlockCapMonotone(body, Emit(st, IfKind, "if " + Str(Evaluate(test, st.env)) + ":"), cap, cap');
    case For(target, iter, body, _) => ForStmtCapMonotone(target, iter, body, st, cap, cap');
    case While(test, body, _) => WhileStmtCapMonotone(test, body, st, cap, cap');
    case OtherStmt(_, nested) => BlockCapMonotone(nested, st, cap, cap');
  }

  lemma {:induction false} BlockCapMonotone(ss: seq<Stmt>, st: State, cap: nat, cap': nat)
    requires cap <= cap' && !ExecBlock(ss, st, cap).status.CapReached?
    ensures ExecBlock(ss, st, cap') == ExecBlock(ss, st, cap)
    decreases BlockSize(ss), 2
  {
    if ss != [] {
      var o := ExecStmt(ss[0], st, cap);
      StmtCapMonotone(ss[0], st, cap, cap');
      if o.status.Normal? {
        BlockCapMonotone(ss[1..], o.st, cap, cap');
      }
    }
  }

  lemma {:induction false} ForStmtCapMonotone(target: Target, iter: Expr, body: seq<Stmt>, st: State, cap: nat, cap': nat)
    requires cap <= cap' && !ExecForStmt(target, iter, body, st, cap).status.CapReached?
    ensures ExecForStmt(target, iter, body, st, cap') == ExecForStmt(target, iter, body, st, cap)
    decreases BlockSize(body), 4
  {
    if target.TName? {
      var it := Evaluate(iter, st.env);
      if it.VList? {
        ForCapMonotone(target.id, it.items, body, Emit(st, ForKind, "for " + target.id + " in " + Str(it) + ":"), cap, cap');
      }
    }
  }

  lemma {:induction false} ForCapMonotone(t: string, elems: seq<Value>, body: seq<Stmt>, st: State, cap: nat, cap': nat)
    requires cap <= cap' && !ExecFor(t, elems, body, st, cap).status.CapReached?
    ensures ExecFor(t, elems, body, st, cap') == ExecFor(t, elems, body, st, cap)
    decreases BlockSize(body), 3, |elems|
  {
    if elems != [] {
      var v := elems[0];
      var st1 := Bind(st, t, v, t + " = " + Str(v));
      var o := ExecBlock(body, st1, cap);
      BlockCapMonotone(body, st1, cap, cap');
      if o.status.Normal? {
        var st2 := if t == "i" then Emit(o.st, PrintKind, "Print i: " + Str(v)) else o.st;
        ForCapMonotone(t, elems[1..], body, st2, cap, cap');
      }
    }
  }

  lemma {:induction false} WhileStmtCapMonotone(test: Expr, body: seq<Stmt>, st: State, cap: nat, cap': nat)
    requires cap <= cap' && !ExecWhileStmt(test, body, st, cap).status.CapReached?
    ensures ExecWhileStmt(test, body, st, cap') == ExecWhileStmt(test, body, st, cap)
    decreases BlockSize(body), 4
  {
    var tv := Evaluate(test, st.env);
    WhileCapMonotone(test, body, tv, Emit(st, WhileKind, "while " + Str(tv) + ":"), cap, cap', cap, cap');
  }

  /** More cap and more fuel change nothing about a replay that stopped on its own. */
  lemma {:induction false} WhileCapMonotone(test: Expr, body: seq<Stmt>, tv: Value, st: State,
                                            cap: nat, cap': nat, fuel: nat, fuel': nat)
    requires cap <= cap' && fuel <= fuel'
    requires !ExecWhile(test, body, tv, st, cap, fuel).status.CapReached?
    ensures ExecWhile(test, body, tv, st, cap', fuel') == ExecWhile(test, body, tv, st, cap, fuel)
    decreases BlockSize(body), 3, fuel, 1
  {
    WhileStep(test, body, tv, st, cap, cap', fuel, fuel');
    if Truthy(tv) {
      BlockCapMonotone(body, st, cap, cap');
      WhileRestAgrees(test, body, ExecBlock(body, st, cap), cap, cap', fuel - 1, fuel' - 1);
    }
  }

  /** The remainder of a replay after a first body run `o` that ended normally. */
  function Rest(test: Expr, body: seq<Stmt>, o: Outcome, cap: nat, fuel: nat): Outcome {
    ExecWhile(test, body, Evaluate(test, o.st.env), o.st, cap, fuel)
  }

  predicate RestUncapped(test: Expr, body: seq<Stmt>, o: Outcome, cap: nat, fuel: nat) {
    o.status.Normal? ==> !Rest(test, body, o, cap, fuel).status.CapReached?
  }

  predicate RestAgrees(test: Expr, body: seq<Stmt>, o: Outcome, cap: nat, cap': nat, fuel: nat, fuel': nat) {
    o.status.Normal? ==> Rest(test, body, o, cap', fuel') == Rest(test, body, o, cap, fuel)
  }

  /** What follows a first body run that did not reach the cap is the same with more cap
      and more fuel. */
  lemma {:induction false} WhileRestAgrees(test: Expr, body: seq<Stmt>, o: Outcome,
                                           cap: nat, cap': nat, fuel: nat, fuel': nat)
    requires cap <= cap' && fuel <= fuel'
    requires RestUncapped(test, body, o, cap, fuel)
    ensures RestAgrees(test, body, o, cap, cap', fuel, fuel')
    decreases BlockSize(body), 3, fuel, 2
  {
    if o.status.Normal? {
      WhileCapMonotone(test, body, Evaluate(test, o.st.env), o.st, cap, cap', fuel, fuel');
    }
  }

  /** Two replays that did not reach the cap agree at once when the test is falsy. With
      a truthy test, neither the first body run nor the remainder reached the cap, and the
      replays agree when their first body runs agree and so do their remainders. */
  lemma WhileStep(test: Expr, body: seq<Stmt>, tv: Value, st: State, cap: nat, cap': nat, fuel: nat, fuel': nat)
    requires fuel <= fuel' && !ExecWhile(test, body, tv, st, cap, fuel).status.CapReached?
    ensures !Truthy(tv) ==> ExecWhile(test, body, tv, st, cap', fuel') == ExecWhile(test, body, tv, st, cap, fuel)
    ensures Truthy(tv) ==> 0 < fuel <= fuel'
    ensures Truthy(tv) ==> !ExecBlock(body, st, cap).status.CapReached?
    ensures Truthy(tv) ==> RestUncapped(test, body, ExecBlock(body, st, cap), cap, fuel - 1)
    ensures Truthy(tv) && ExecBlock(body, st, cap') == ExecBlock(body, st, cap)
      && RestAgrees(test, body, ExecBlock(body, st, cap), cap, cap', fuel - 1, fuel' - 1)
      ==> ExecWhile(test, body, tv, st, cap', fuel') == ExecWhile(test, body, tv, st, cap, fuel)
  {
    if !Truthy(tv) {
      WhileFalsyStops(test, body, tv, st, cap, fuel);
      WhileFalsyStops(test, body, tv, st, cap', fuel');
    } else {
      WhileUnfold(test, body, tv, st, cap, fuel);
      WhileUnfold(test, body, tv, st, cap', fuel');
    }
  }

  /** A replay whose test is falsy stops at once. */
  lemma WhileFalsyStops(test: Expr, body: seq<Stmt>, tv: Value, st: State, cap: nat, fuel: nat)
    requires !Truthy(tv)
    ensures ExecWhile(test, body, tv, st, cap, fuel) == Outcome(Normal, st)
  {
  }

  /** A replay with a truthy test and no fuel left reaches the cap. */
  lemma WhileOutOfFuel(test: Expr, body: seq<Stmt>, tv: Value, st: State, cap: nat)
    requires Truthy(tv)
    ensures ExecWhile(test, body, tv, st, cap, 0) == Outcome(CapReached, st)
  {
  }

  /** One iteration of a replay whose test is truthy. */
  lemma WhileUnfold(test: Expr, body: seq<Stmt>, tv: Value, st: State, cap: nat, fuel: nat)
    requires Truthy(tv) && fuel > 0
    ensures var o := ExecBlock(body, st, cap);
      ExecWhile(test, body, tv, st, cap, fuel)
      == if o.status.Normal? then ExecWhile(test, body, Evaluate(test, o.st.env), o.st, cap, fuel - 1) else o
  {
  }

  /** A finished trace is the trace under every larger cap. */
  lemma CapMonotone(parsed: ParseResult, inputs: seq<string>, cap: nat, cap': nat)
    requires cap <= cap' && Trace(parsed, inputs, cap).Finished?
    ensures Trace(parsed, inputs, cap') == Trace(parsed, inputs, cap)
  {
    if parsed.Parsed? {
      BlockCapMonotone(parsed.tree.body, Initial(inputs), cap, cap');
    }
  }

  // ---------------------------------------------------------------- whole traces

  /** A finished trace is either one `error` step, or made of visitor steps only. */
  lemma TraceShape(parsed: ParseResult, inputs: seq<string>, cap: nat)
    ensures match Trace(parsed, inputs, cap)
      case CapExceeded => parsed.Parsed?
      case Finished(steps) =>
        || (|steps| == 1 && steps[0].kind == ErrorKind)
        || (parsed.Parsed? && AllVisitorSteps(steps))
  {
    if parsed.Parsed? {
      var o := ExecBlock(parsed.tree.body, Initial(inputs), cap);
    }
  }

  /** A program that does not parse yields the one error step. */
  lemma ParseFailureTrace(message: string, inputs: seq<string>, cap: nat)
    ensures Trace(ParseFailure(message), inputs, cap)
         == Finished([Step(ErrorKind, "Error generating trace: " + message)])
  {
  }

  /** `x = 3 + 4` then `print(x)`. */
  lemma SequentialScenario(inputs: seq<string>, cap: nat)
    ensures Trace(Parsed(Module([
        Assign(TName("x"), BinOp(Constant(LInt(3)), Add, Constant(LInt(4)))),
        ExprStmt(Call(FName("print"), [Name("x")]))])), inputs, cap)
      == Finished([Step(AssignKind, "x = 7"), Step(PrintKind, "7")])
  {
    var s1 := Assign(TName("x"), BinOp(Constant(LInt(3)), Add, Constant(LInt(4))));
    var s2 := ExprStmt(Call(FName("print"), [Name("x")]));
    var st0 := Initial(inputs);
    assert Evaluate(s1.value, st0.env) == VInt(7);
    assert Str(VInt(7)) == "7" by {
      assert NatToString(7) == [DigitChar(7)];
    }
    var st1 := Bind(st0, "x", VInt(7), "x = 7");
    assert "x" + " = " + Str(VInt(7)) == "x = 7";
    assert ExecAssign(s1.target, s1.value, st0) == Outcome(Normal, st1);
    assert ExecStmt(s1, st0, cap) == Outcome(Normal, st1);
    assert EvaluateAll([Name("x")], st1.env) == [VInt(7)];
    assert ExecStmt(s2, st1, cap) == Outcome(Normal, Emit(st1, PrintKind, "7"));
    assert [s1, s2][1..] == [s2];
    assert ExecBlock([s2], st1, cap) == Outcome(Normal, Emit(st1, PrintKind, "7"));
  }

  /** `x = input()` with the single input `5`. */
  lemma InputScenario(cap: nat)
    ensures Trace(Parsed(Module([Assign(TName("x"), Call(FName("input"), []))])), ["5"], cap)
         == Finished([Step(AssignKind, "x = '5'")])
  {
    var s1 := Assign(TName("x"), Call(FName("input"), []));
    var st1 := Bind(Initial(["5"]).(counter := 1), "x", VStr("5"), "x = '5'");
    assert "x" + " = '" + "5" + "'" == "x = '5'";
    assert ExecAssign(s1.target, s1.value, Initial(["5"])) == Outcome(Normal, st1);
    assert ExecStmt(s1, Initial(["5"]), cap) == Outcome(Normal, st1);
    assert ExecBlock([s1], Initial(["5"]), cap) == Outcome(Normal, st1);
  }

  /** The steps `i = k`, `k` and `Print i: k` of one iteration of the scenario below. */
  lemma DigitIteration(k: nat)
    requires k < 10
    ensures var c := [DigitChar(k)];
      ElementSteps("i", VInt(k), true)
        == [Step(AssignKind, "i = " + c), Step(PrintKind, c), Step(PrintKind, "Print i: " + c)]
  {
    var c := [DigitChar(k)];
    assert Str(VInt(k)) == c by {
      assert IntToString(k) == NatToString(k);
    }
    assert "i" + " = " == "i = ";
    var a, p, q := Step(AssignKind, "i = " + c), Step(PrintKind, c), Step(PrintKind, "Print i: " + c);
    assert ElementSteps("i", VInt(k), true) == [a] + [p] + [q];
  }

  function OneTwoThree(): seq<Value> {
    [VInt(1), VInt(2), VInt(3)]
  }

  lemma OneTwoThreeRendered()
    ensures Str(VList(OneTwoThree())) == "[1, 2, 3]"
  {
    var xs := OneTwoThree();
    assert Repr(VInt(1)) == "1" && Repr(VInt(2)) == "2" && Repr(VInt(3)) == "3";
    assert ReprItems(xs[2..]) == "3";
    assert ReprItems(xs[1..]) == "2" + ", " + "3";
    assert ReprItems(xs) == "1" + ", " + ("2" + ", " + "3");
  }

  lemma OneTwoThreeIterations()
    ensures IterationSteps("i", OneTwoThree(), true)
         == [Step(AssignKind, "i = 1"), Step(PrintKind, "1"), Step(PrintKind, "Print i: 1"),
             Step(AssignKind, "i = 2"), Step(PrintKind, "2"), Step(PrintKind, "Print i: 2"),
             Step(AssignKind, "i = 3"), Step(PrintKind, "3"), Step(PrintKind, "Print i: 3")]
  {
    var xs := OneTwoThree();
    assert [DigitChar(1)] == "1" && [DigitChar(2)] == "2" && [DigitChar(3)] == "3";
    assert "i = " + "1" == "i = 1" && "i = " + "2" == "i = 2" && "i = " + "3" == "i = 3";
    assert "Print i: " + "1" == "Print i: 1" && "Print i: " + "2" == "Print i: 2" && "Print i: " + "3" == "Print i: 3";
    DigitIteration(1);
    DigitIteration(2);
    DigitIteration(3);
    assert IterationSteps("i", xs[2..], true) == ElementSteps("i", VInt(3), true);
    assert IterationSteps("i", xs[1..], true) == ElementSteps("i", VInt(2), true) + ElementSteps("i", VInt(3), true);
    assert IterationSteps("i", xs, true)
        == ElementSteps("i", VInt(1), true) + (ElementSteps("i", VInt(2), true) + ElementSteps("i", VInt(3), true));
  }

  /** A one-statement program that ends normally reports that statement's steps. */
  lemma SingleStatementTrace(s: Stmt, inputs: seq<string>, cap: nat)
    requires ExecStmt(s, Initial(inputs), cap).status == Normal
    ensures Trace(Parsed(Module([s])), inputs, cap) == Finished(ExecStmt(s, Initial(inputs), cap).st.steps)
  {
    assert ExecBlock([s], Initial(inputs), cap) == ExecStmt(s, Initial(inputs), cap);
  }

  /** A program made of one `for t in [e1, ..., en]: print(t)`. */
  lemma ForPrintTrace(t: string, elts: seq<Expr>, inputs: seq<string>, cap: nat)
    ensures var xs := EvaluateAll(elts, map[]);
      Trace(Parsed(Module([For(TName(t), List(elts), SimpleBody(t, true), [])])), inputs, cap)
        == Finished([Step(ForKind, "for " + t + " in " + Str(VList(xs)) + ":")] + IterationSteps(t, xs, true))
  {
    var s := For(TName(t), List(elts), SimpleBody(t, true), []);
    var xs := EvaluateAll(elts, map[]);
    var st1 := Emit(Initial(inputs), ForKind, "for " + t + " in " + Str(VList(xs)) + ":");
    var header := [Step(ForKind, "for " + t + " in " + Str(VList(xs)) + ":")];
    assert st1.steps == header;
    ForListStmt(t, elts, Initial(inputs), cap);
    ForSimpleBodySteps(t, xs, true, st1, cap);
    var o := ExecStmt(s, Initial(inputs), cap);
    assert o.status == Normal && o.st.steps == header + IterationSteps(t, xs, true);
    SingleStatementTrace(s, inputs, cap);
  }

  lemma ForListStmt(t: string, elts: seq<Expr>, st0: State, cap: nat)
    ensures var xs := EvaluateAll(elts, st0.env);
      ExecStmt(For(TName(t), List(elts), SimpleBody(t, true), []), st0, cap)
        == ExecFor(t, xs, SimpleBody(t, true), Emit(st0, ForKind, "for " + t + " in " + Str(VList(xs)) + ":"), cap)
  {
    var s := For(TName(t), List(elts), SimpleBody(t, true), []);
    assert ExecStmt(s, st0, cap) == ExecForStmt(TName(t), List(elts), SimpleBody(t, true), st0, cap);
    ForOverList(t, List(elts), SimpleBody(t, true), st0, cap);
  }

  /** `for i in [1, 2, 3]: print(i)`. */
  lemma ForPrintScenario(inputs: seq<string>, cap: nat)
    ensures Trace(Parsed(Module([
        For(TName("i"), List([Constant(LInt(1)), Constant(LInt(2)), Constant(LInt(3))]),
            [ExprStmt(Call(FName("print"), [Name("i")]))], [])])), inputs, cap)
      == Finished([Step(ForKind, "for i in [1, 2, 3]:"),
                   Step(AssignKind, "i = 1"), Step(PrintKind, "1"), Step(PrintKind, "Print i: 1"),
                   Step(AssignKind, "i = 2"), Step(PrintKind, "2"), Step(PrintKind, "Print i: 2"),
                   Step(AssignKind, "i = 3"), Step(PrintKind, "3"), Step(PrintKind, "Print i: 3")])
  {
    var elts := [Constant(LInt(1)), Constant(LInt(2)), Constant(LInt(3))];
    var xs := OneTwoThree();
    assert EvaluateAll(elts, map[]) == xs;
    ForPrintTrace("i", elts, inputs, cap);
    assert SimpleBody("i", true) == [ExprStmt(Call(FName("print"), [Name("i")]))];
    OneTwoThreeHeader();
    OneTwoThreeSteps([Step(ForKind, "for " + "i" + " in " + Str(VList(xs)) + ":")]);
  }

  lemma OneTwoThreeSteps(header: seq<Step>)
    requires header == [Step(ForKind, "for i in [1, 2, 3]:")]
    ensures header + IterationSteps("i", OneTwoThree(), true)
         == [Step(ForKind, "for i in [1, 2, 3]:"),
             Step(AssignKind, "i = 1"), Step(PrintKind, "1"), Step(PrintKind, "Print i: 1"),
             Step(AssignKind, "i = 2"), Step(PrintKind, "2"), Step(PrintKind, "Print i: 2"),
             Step(AssignKind, "i = 3"), Step(PrintKind, "3"), Step(PrintKind, "Print i: 3")]
  {
    OneTwoThreeIterations();
  }

  lemma OneTwoThreeHeader()
    ensures "for " + "i" + " in " + Str(VList(OneTwoThree())) + ":" == "for i in [1, 2, 3]:"
  {
    OneTwoThreeRendered();
    assert "for " + "i" + " in " + "[1, 2, 3]" + ":" == "for i in [1, 2, 3]:";
  }
}
