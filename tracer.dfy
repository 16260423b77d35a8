/** `SimpleTracer` and `generate_trace`: the visitor object whose methods update its
    fields in place. Every visitor is proved to move the object's state exactly as the
    corresponding function of module TraceSpec says. */
module Tracer {
  import opened Values
  import opened Syntax
  import opened Evaluator
  import opened TraceSpec

  class SimpleTracer {
    var steps: seq<Step>
    var variables: map<string, Value>
    const inputs: seq<string>
    var inputCounter: nat
    /** The number of `while` iterations replayed before giving up. */
    const cap: nat

    function Snapshot(): State
      reads this
    {
      State(variables, inputs, inputCounter, steps)
    }

    /** The cursor never passes the end of the inputs. */
    ghost predicate Valid()
      reads this
    {
      inputCounter <= |inputs|
    }

    constructor (inputs: seq<string>, cap: nat)
      ensures Valid() && Snapshot() == Initial(inputs) && this.cap == cap
    {
      steps := [];
      variables := map[];
      this.inputs := inputs;
      inputCounter := 0;
      this.cap := cap;
    }

    /** `get_next_input`. */
    method GetNextInput() returns (v: string)
      requires Valid()
      modifies this
      ensures Valid()
      ensures (v, Snapshot()) == NextInput(old(Snapshot()))
      ensures inputCounter == old(inputCounter) <==> old(inputCounter) == |inputs|
    {
      if inputCounter < |inputs| {
        v := inputs[inputCounter];
        inputCounter := inputCounter + 1;
      } else {
        v := InputMissing;
      }
    }

    /** `visit_Assign`. */
    method VisitAssign(target: Target, value: Expr) returns (status: Status)
      requires Valid()
      modifies this
      ensures Valid()
      ensures Outcome(status, Snapshot()) == ExecAssign(target, value, old(Snapshot()))
    {
      status := Normal;
      if target.TName? {
        var name := target.id;
        if value.Call? && value.func.FName? {
          var funcName := value.func.id;
          if funcName == "input" {
            var v := GetNextInput();
            variables := variables[name := VStr(v)];
            steps := steps + [Step(AssignKind, name + " = '" + v + "'")];
            return;
          } else if funcName == "int" && |value.args| > 0 && value.args[0].Call? {
            var inner := value.args[0];
            if inner.func.FOther? {
              status := Raised(NoIdMessage(inner.func.kind));
              return;
            }
            if inner.func.id == "input" {
              var raw := GetNextInput();
              var converted := IntConversion(raw);
              variables := variables[name := converted];
              steps := steps + [Step(AssignKind, name + " = " + Str(converted))];
              return;
            }
          }
        }
        var v := Evaluate(value, variables);
        variables := variables[name := v];
        steps := steps + [Step(AssignKind, name + " = " + Str(v))];
      }
    }

    /** `visit_Expr`: the arguments of `print` are evaluated and rendered in order. */
    method VisitExpr(value: Expr)
      requires Valid()
      modifies this
      ensures Valid()
      ensures Snapshot() == ExecExpr(value, old(Snapshot()))
    {
      if IsCallTo(value, "print") {
        var parts: seq<string> := [];
        for k := 0 to |value.args|
          invariant |parts| == k
          invariant forall j :: 0 <= j < k ==> parts[j] == Str(Evaluate(value.args[j], variables))
        {
          parts := parts + [Str(Evaluate(value.args[k], variables))];
        }
        assert parts == StrAll(EvaluateAll(value.args, variables));
        steps := steps + [Step(PrintKind, Join(" ", parts))];
      }
    }

    /** `visit_If`: the test is logged and the body visited whatever the test's value. */
    method VisitIf(s: Stmt) returns (status: Status)
      requires s.If? && Valid()
      modifies this
      ensures Valid()
      ensures Outcome(status, Snapshot()) == ExecStmt(s, old(Snapshot()), cap)
      decreases StmtSize(s), 0
    {
      var testResult := Evaluate(s.test, variables);
      steps := steps + [Step(IfKind, "if " + Str(testResult) + ":")];
      status := VisitBlock(s.body);
    }

    /** `visit_For`. */
    method VisitFor(s: Stmt) returns (status: Status)
      requires s.For? && Valid()
      modifies this
      ensures Valid()
      ensures Outcome(status, Snapshot()) == ExecStmt(s, old(Snapshot()), cap)
      decreases StmtSize(s), 0
    {
      if s.target.TOther? {
        return Raised(NoIdMessage(s.target.kind));
      }
      var target := s.target.id;
      var iterObj := Evaluate(s.iter, variables);
      steps := steps + [Step(ForKind, "for " + target + " in " + Str(iterObj) + ":")];
      status := Normal;
      if iterObj.VList? {
        status := IterateFor(target, iterObj.items, s.body);
      }
    }

    /** The loop of `visit_For` over the elements of a list. */
    method IterateFor(target: string, values: seq<Value>, body: seq<Stmt>) returns (status: Status)
      requires Valid()
      modifies this
      ensures Valid()
      ensures Outcome(status, Snapshot()) == ExecFor(target, values, body, old(Snapshot()), cap)
      decreases BlockSize(body), 3
    {
      status := Normal;
      var k := 0;
      while k < |values|
        invariant 0 <= k <= |values| && Valid() && status == Normal
        invariant ExecFor(target, values, body, old(Snapshot()), cap) == ExecFor(target, values[k..], body, Snapshot(), cap)
        decreases |values| - k
      {
        var value := values[k];
        assert values[k..][1..] == values[k + 1..];
        ghost var before := Snapshot();
        variables := variables[target := value];
        steps := steps + [Step(AssignKind, target + " = " + Str(value))];
        assert Snapshot() == Bind(before, target, value, target + " = " + Str(value));
        status := VisitBlock(body);
        if !status.Normal? {
          assert ExecFor(target, values[k..], body, before, cap) == Outcome(status, Snapshot());
          return;
        }
        if target == "i" {
          steps := steps + [Step(PrintKind, "Print i: " + Str(value))];
        }
        k := k + 1;
      }
      assert values[k..] == [];
    }

    /** `visit_While`: the body is replayed while the re-evaluated test is truthy, for at
        most `cap` iterations. */
    method VisitWhile(s: Stmt) returns (status: Status)
      requires s.While? && Valid()
      modifies this
      ensures Valid()
      ensures Outcome(status, Snapshot()) == ExecStmt(s, old(Snapshot()), cap)
      decreases StmtSize(s), 0
    {
      var testResult := Evaluate(s.test, variables);
      steps := steps + [Step(WhileKind, "while " + Str(testResult) + ":")];
      status := ReplayWhile(s.test, s.body, testResult);
    }

    /** The loop of `visit_While`: replay the body while the re-evaluated test is truthy. */
    method ReplayWhile(test: Expr, body: seq<Stmt>, first: Value) returns (status: Status)
      requires Valid()
      modifies this
      ensures Valid()
      ensures Outcome(status, Snapshot()) == ExecWhile(test, body, first, old(Snapshot()), cap, cap)
      decreases BlockSize(body), 3
    {
      var testResult := first;
      var fuel := cap;
      status := Normal;
      while Truthy(testResult)
        invariant Valid() && status == Normal
        invariant ExecWhile(test, body, first, old(Snapshot()), cap, cap)
               == ExecWhile(test, body, testResult, Snapshot(), cap, fuel)
        decreases fuel
      {
        if fuel == 0 {
          return CapReached;
        }
        ghost var before := Snapshot();
        status := VisitBlock(body);
        if !status.Normal? {
          assert ExecWhile(test, body, testResult, before, cap, fuel) == Outcome(status, Snapshot());
          return;
        }
        testResult := Evaluate(test, variables);
        fuel := fuel - 1;
      }
    }

    /** `visit`: dispatch on the statement's class; any other statement has its nested
        statements visited in order. */
    method Visit(s: Stmt) returns (status: Status)
      requires Valid()
      modifies this
      ensures Valid()
      ensures Outcome(status, Snapshot()) == ExecStmt(s, old(Snapshot()), cap)
      decreases StmtSize(s), 1
    {
      match s
      case Assign(target, value) =>
        status := VisitAssign(target, value);
      case ExprStmt(value) =>
        VisitExpr(value);
        status := Normal;
      case If(_, _, _) =>
        status := VisitIf(s);
      case For(_, _, _, _) =>
        status := VisitFor(s);
      case While(_, _, _) =>
        status := VisitWhile(s);
      case OtherStmt(_, nested) =>
        status := VisitBlock(nested);
    }

    /** Visiting a statement list in order, stopping at the first abnormal end. */
    method VisitBlock(ss: seq<Stmt>) returns (status: Status)
      requires Valid()
      modifies this
      ensures Valid()
      ensures Outcome(status, Snapshot()) == ExecBlock(ss, old(Snapshot()), cap)
      decreases BlockSize(ss), 2
    {
      status := Normal;
      var k := 0;
      while k < |ss|
        invariant 0 <= k <= |ss| && Valid() && status == Normal
        invariant ExecBlock(ss, old(Snapshot()), cap) == ExecBlock(ss[k..], Snapshot(), cap)
        decreases |ss| - k
      {
        ElementSize(ss, k);
        assert ss[k..][1..] == ss[k + 1..];
        ghost var before := Snapshot();
        status := Visit(ss[k]);
        assert ExecBlock(ss[k..], before, cap)
            == if status.Normal? then ExecBlock(ss[k + 1..], Snapshot(), cap) else Outcome(status, Snapshot());
        if !status.Normal? {
          return;
        }
        k := k + 1;
      }
      assert ss[k..] == [];
    }
  }

  /** `generate_trace(code, inputs)`, for a program the parser has already handled. */
  method GenerateTrace(parsed: ParseResult, inputs: seq<string>, cap: nat) returns (r: TraceResult)
    ensures r == Trace(parsed, inputs, cap)
  {
    match parsed
    case ParseFailure(message) =>
      r := Finished(ErrorTrace(message));
    case Parsed(tree) =>
      var tracer := new SimpleTracer(inputs, cap);
      var status := tracer.VisitBlock(tree.body);
      match status
      case Normal => r := Finished(tracer.steps);
      case Raised(message) => r := Finished(ErrorTrace(message));
      case CapReached => r := CapExceeded;
  }
}
