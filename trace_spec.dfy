/** The meaning of `generate_trace`: a functional big-step description of what each
    `SimpleTracer` visitor does to the tracer's state (environment, input cursor, step
    log), and of the whole run. The class in module Tracer is proved to follow it. */
module TraceSpec {
  import opened Wrappers
  import opened Values
  import opened Syntax
  import opened Evaluator

  /** The `type` field of a step record. */
  datatype Kind = AssignKind | PrintKind | IfKind | ForKind | WhileKind | InfoKind | ErrorKind

  /** One step record `{type, content}`. */
  datatype Step = Step(kind: Kind, content: string)

  /** The kinds the statement visitors emit; `info` and `error` come only from outside. */
  predicate VisitorKind(k: Kind) {
    !k.InfoKind? && !k.ErrorKind?
  }

  predicate AllVisitorSteps(steps: seq<Step>) {
    forall s :: s in steps ==> VisitorKind(s.kind)
  }

  const InputMissing := "input_missing"

  /** The tracer's fields: `variables`, `inputs`, `input_counter` and `steps`. */
  datatype State = State(env: map<string, Value>, inputs: seq<string>, counter: nat, steps: seq<Step>)

  function Initial(inputs: seq<string>): State {
    State(map[], inputs, 0, [])
  }

  /** How a visited statement ended: normally, by an exception escaping the visitor
      (with its message), or by a `while` replay reaching the iteration cap. */
  datatype Status = Normal | Raised(message: string) | CapReached

  datatype Outcome = Outcome(status: Status, st: State)

  /** What every visitor keeps: the inputs, a cursor that only moves forward and stays
      within the inputs, a step log that is only appended to, with visitor kinds only. */
  ghost predicate Follows(st: State, st': State) {
    && st'.inputs == st.inputs
    && st.counter <= st'.counter
    && (st.counter <= |st.inputs| ==> st'.counter <= |st'.inputs|)
    && st.steps <= st'.steps
    && (AllVisitorSteps(st.steps) ==> AllVisitorSteps(st'.steps))
  }

  /** `get_next_input`: the next unread input, or `input_missing` once all are read. */
  function NextInput(st: State): (r: (string, State))
    ensures r.1 == st.(counter := r.1.counter)
    ensures st.counter <= r.1.counter <= st.counter + 1
    ensures st.counter <= |st.inputs| ==> r.1.counter <= |st.inputs|
  {
    if st.counter < |st.inputs| then (st.inputs[st.counter], st.(counter := st.counter + 1))
    else (InputMissing, st)
  }

  function Emit(st: State, kind: Kind, content: string): State {
    st.(steps := st.steps + [Step(kind, content)])
  }

  /** `self.variables[x] = v` followed by the `assign` step. */
  function Bind(st: State, x: string, v: Value, content: string): (st': State)
    ensures Follows(st, st') && st'.env - {x} == st.env - {x}
  {
    Emit(st.(env := st.env[x := v]), AssignKind, content)
  }

  predicate IsCallTo(e: Expr, name: string) {
    e.Call? && e.func.FName? && e.func.id == name
  }

  /** The `AttributeError` raised when `.id` is read from a node that has none. */
  function NoIdMessage(kind: string): string {
    "'" + kind + "' object has no attribute 'id'"
  }

  /** `int(value)` on an input string, with the source's fallback to `'error'`. */
  function IntConversion(raw: string): Value {
    match ParseInt(raw)
    case Some(n) => VInt(n)
    case None => VStr("error")
  }

  /** The names a statement can bind in the environment. */
  function WritesStmt(s: Stmt): set<string>
    decreases s
  {
    match s
    case Assign(TName(x), _) => {x}
    case Assign(TOther(_), _) => {}
    case ExprStmt(_) => {}
    case If(_, b, _) => WritesBlock(b)
    case For(TName(t), _, b, _) => {t} + WritesBlock(b)
    case For(TOther(_), _, _, _) => {}
    case While(_, b, _) => WritesBlock(b)
    case OtherStmt(_, n) => WritesBlock(n)
  }

  function WritesBlock(ss: seq<Stmt>): set<string>
    decreases ss
  {
    if ss == [] then {} else WritesStmt(ss[0]) + WritesBlock(ss[1..])
  }

  /** `visit_Assign`. */
  function ExecAssign(target: Target, value: Expr, st: State): (o: Outcome)
    ensures Follows(st, o.st)
    ensures o.st.env - WritesStmt(Assign(target, value)) == st.env - WritesStmt(Assign(target, value))
  {
    match target
    case TOther(_) => Outcome(Normal, st)
    case TName(x) =>
      if IsCallTo(value, "input") then
        var (raw, st1) := NextInput(st);
        Outcome(Normal, Bind(st1, x, VStr(raw), x + " = '" + raw + "'"))
      else if IsCallTo(value, "int") && |value.args| > 0 && value.args[0].Call? && value.args[0].func.FOther? then
        Outcome(Raised(NoIdMessage(value.args[0].func.kind)), st)
      else if IsCallTo(value, "int") && |value.args| > 0 && IsCallTo(value.args[0], "input") then
        var (raw, st1) := NextInput(st);
        var v := IntConversion(raw);
        Outcome(Normal, Bind(st1, x, v, x + " = " + Str(v)))
      else
        var v := Evaluate(value, st.env);
        Outcome(Normal, Bind(st, x, v, x + " = " + Str(v)))
  }

  /** `visit_Expr`: only a call to `print` leaves a step. */
  function ExecExpr(value: Expr, st: State): (st': State)
    ensures Follows(st, st') && st'.env == st.env
  {
    if IsCallTo(value, "print") then
      Emit(st, PrintKind, Join(" ", StrAll(EvaluateAll(value.args, st.env))))
    else
      st
  }

  /** Visiting one statement. */
  function ExecStmt(s: Stmt, st: State, cap: nat): (o: Outcome)
    ensures Follows(st, o.st)
    ensures o.st.env - WritesStmt(s) == st.env - WritesStmt(s)
    decreases StmtSize(s), 1
  {
    match s
    case Assign(target, value) => ExecAssign(target, value, st)
    case ExprStmt(value) => Outcome(Normal, ExecExpr(value, st))
    case If(test, body, _) =>
      ExecBlock(body, Emit(st, IfKind, "if " + Str(Evaluate(test, st.env)) + ":"), cap)
    case For(target, iter, body, _) => ExecForStmt(target, iter, body, st, cap)
    case While(test, body, _) => ExecWhileStmt(test, body, st, cap)
    case OtherStmt(_, nested) => ExecBlock(nested, st, cap)
  }

  /** Visiting statements in order; an exception or the cap stops the rest. */
  function ExecBlock(ss: seq<Stmt>, st: State, cap: nat): (o: Outcome)
    ensures Follows(st, o.st)
    ensures o.st.env - WritesBlock(ss) == st.env - WritesBlock(ss)
    decreases BlockSize(ss), 2
  {
    if ss == [] then Outcome(Normal, st)
    else
      var o := ExecStmt(ss[0], st, cap);
      FrameWiden(o.st.env, st.env, WritesStmt(ss[0]), WritesBlock(ss));
      if !o.status.Normal? then o
      else
        var o2 := ExecBlock(ss[1..], o.st, cap);
        FrameWiden(o2.st.env, o.st.env, WritesBlock(ss[1..]), WritesBlock(ss));
        o2
  }

  /** `visit_For`: a target without an `id` raises; a non-list iterable is logged only. */
  function ExecForStmt(target: Target, iter: Expr, body: seq<Stmt>, st: State, cap: nat): (o: Outcome)
    ensures Follows(st, o.st)
    ensures o.st.env - WritesStmt(For(target, iter, body, [])) == st.env - WritesStmt(For(target, iter, body, []))
    decreases BlockSize(body), 4
  {
    if target.TOther? then Outcome(Raised(NoIdMessage(target.kind)), st)
    else
      var t := target.id;
      var it := Evaluate(iter, st.env);
      var st1 := Emit(st, ForKind, "for " + t + " in " + Str(it) + ":");
      if it.VList? then ExecFor(t, it.items, body, st1, cap) else Outcome(Normal, st1)
  }

  /** `visit_While`: log the first test value, then replay with the full cap. */
  function ExecWhileStmt(test: Expr, body: seq<Stmt>, st: State, cap: nat): (o: Outcome)
    ensures Follows(st, o.st)
    ensures o.st.env - WritesBlock(body) == st.env - WritesBlock(body)
    decreases BlockSize(body), 4
  {
    var tv := Evaluate(test, st.env);
    ExecWhile(test, body, tv, Emit(st, WhileKind, "while " + Str(tv) + ":"), cap, cap)
  }

  /** Agreement outside a set of names implies agreement outside any larger set. */
  lemma FrameWiden(m1: map<string, Value>, m2: map<string, Value>, a: set<string>, c: set<string>)
    requires m1 - a == m2 - a
    requires a <= c
    ensures m1 - c == m2 - c
  {
    assert m1 - c == (m1 - a) - c;
    assert m2 - c == (m2 - a) - c;
  }

  /** The iterations of `for t in <list>`: bind, log, visit the body, and log the extra
      `Print i:` step when the target is `i`. */
  function ExecFor(t: string, elems: seq<Value>, body: seq<Stmt>, st: State, cap: nat): (o: Outcome)
    ensures Follows(st, o.st)
    ensures o.st.env - ({t} + WritesBlock(body)) == st.env - ({t} + WritesBlock(body))
    decreases BlockSize(body), 3, |elems|
  {
    if elems == [] then Outcome(Normal, st)
    else
      var v := elems[0];
      var st1 := Bind(st, t, v, t + " = " + Str(v));
      assert st1.env - {t} == st.env - {t};
      FrameWiden(st1.env, st.env, {t}, {t} + WritesBlock(body));
      var o := ExecBlock(body, st1, cap);
      FrameWiden(o.st.env, st1.env, WritesBlock(body), {t} + WritesBlock(body));
      if !o.status.Normal? then o
      else
        var st2 := if t == "i" then Emit(o.st, PrintKind, "Print i: " + Str(v)) else o.st;
        ExecFor(t, elems[1..], body, st2, cap)
  }

  /** The replay of `while test:` with test value `tv`, allowed `fuel` more iterations. */
  function ExecWhile(test: Expr, body: seq<Stmt>, tv: Value, st: State, cap: nat, fuel: nat): (o: Outcome)
    ensures Follows(st, o.st)
    ensures o.st.env - WritesBlock(body) == st.env - WritesBlock(body)
    decreases BlockSize(body), 3, fuel
  {
    if !Truthy(tv) then Outcome(Normal, st)
    else if fuel == 0 then Outcome(CapReached, st)
    else
      var o := ExecBlock(body, st, cap);
      if !o.status.Normal? then o
      else ExecWhile(test, body, Evaluate(test, o.st.env), o.st, cap, fuel - 1)
  }

  /** What `generate_trace` returns; `CapExceeded` where the source would still be
      replaying a `while` loop after `cap` iterations. */
  datatype TraceResult = Finished(steps: seq<Step>) | CapExceeded

  function ErrorTrace(message: string): seq<Step> {
    [Step(ErrorKind, "Error generating trace: " + message)]
  }

  /** `generate_trace`: a parse failure or an escaping exception collapses the trace to
      one `error` step. */
  function Trace(parsed: ParseResult, inputs: seq<string>, cap: nat): TraceResult {
    match parsed
    case ParseFailure(message) => Finished(ErrorTrace(message))
    case Parsed(tree) =>
      var o := ExecBlock(tree.body, Initial(inputs), cap);
      match o.status
      case Normal => Finished(o.st.steps)
      case Raised(message) => Finished(ErrorTrace(message))
      case CapReached => CapExceeded
  }

  /** The trace the `/run` route reports: an empty trace becomes one `info` step. */
  function ReportedTrace(steps: seq<Step>): (r: seq<Step>)
    ensures |r| >= 1 && (steps != [] ==> r == steps)
    ensures steps == [] ==> r[0].kind == InfoKind
  {
    if steps != [] then steps else [Step(InfoKind, "No trace available.")]
  }
}
