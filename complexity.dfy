/** `estimate_time_complexity`: the deepest nesting of `for`/`while` loops in a module,
    and the label it is reported under. */
module Complexity {
  import opened Values
  import opened Syntax

  function Max(a: nat, b: nat): nat {
    if a >= b then a else b
  }

  /** The greatest number of loops on a path from `s` down into its nested statements. */
  function StmtDepth(s: Stmt): nat
    decreases StmtSize(s), 1
  {
    ChildrenSmaller(s);
    (if IsLoop(s) then 1 else 0) + BlockDepth(Children(s))
  }

  /** The deepest of a statement list; sibling statements do not add up. */
  function BlockDepth(ss: seq<Stmt>): nat
    decreases BlockSize(ss), 2
  {
    if ss == [] then 0 else Max(StmtDepth(ss[0]), BlockDepth(ss[1..]))
  }

  /** The nonlocal `loop_depth` after a visit that reached nesting `d` below a node met
      at nesting `current`, when it held `best` before: raised only if a loop was met. */
  function Reached(best: nat, current: nat, d: nat): nat {
    if d == 0 then best else Max(best, current + d)
  }

  /** The inner `analyze(node, current_depth)` on a statement. */
  method Analyze(s: Stmt, current: nat, best: nat) returns (best': nat)
    ensures best' == Reached(best, current, StmtDepth(s))
    decreases StmtSize(s), 1
  {
    var depth := current;
    best' := best;
    if IsLoop(s) {
      depth := depth + 1;
      best' := Max(best', depth);
    }
    ChildrenSmaller(s);
    best' := AnalyzeChildren(Children(s), depth, best');
  }

  /** The loop of `analyze` over `ast.iter_child_nodes(node)`. */
  method AnalyzeChildren(ss: seq<Stmt>, current: nat, best: nat) returns (best': nat)
    ensures best' == Reached(best, current, BlockDepth(ss))
    decreases BlockSize(ss), 2
  {
    best' := best;
    var k := 0;
    while k < |ss|
      invariant 0 <= k <= |ss|
      invariant best' == Reached(best, current, BlockDepth(ss[..k]))
      decreases |ss| - k
    {
      ElementSize(ss, k);
      best' := Analyze(ss[k], current, best');
      assert ss[..k + 1] == ss[..k] + [ss[k]];
      BlockDepthAppend(ss[..k], [ss[k]]);
      k := k + 1;
    }
    assert ss[..k] == ss;
  }

  /** The label for a nesting depth. */
  function Label(depth: nat): string {
    if depth == 0 then "O(1)"
    else if depth == 1 then "O(n)"
    else if depth == 2 then "O(n^2)"
    else if depth == 3 then "O(n^3)"
    else "O(n^" + NatToString(depth) + ")"
  }

  /** `estimate_time_complexity(code)` on what the parser produced. */
  method EstimateTimeComplexity(parsed: ParseResult) returns (estimate: string)
    ensures parsed.ParseFailure? ==> estimate == "O(?)"
    ensures parsed.Parsed? ==> estimate == Label(BlockDepth(parsed.tree.body))
  {
    match parsed
    case ParseFailure(_) =>
      estimate := "O(?)";
    case Parsed(tree) =>
      var loopDepth := AnalyzeChildren(tree.body, 0, 0);
      estimate := Label(loopDepth);
  }

  // ---------------------------------------------------------------- depth as paths

  /** A root-to-node path below `s`: the index of the child taken at each level. */
  ghost predicate ValidPath(s: Stmt, p: seq<nat>)
    decreases |p|
  {
    p == [] || (p[0] < |Children(s)| && ValidPath(Children(s)[p[0]], p[1..]))
  }

  /** The number of loop nodes on a path, `s` included. */
  ghost function PathLoops(s: Stmt, p: seq<nat>): nat
    requires ValidPath(s, p)
    decreases |p|
  {
    (if IsLoop(s) then 1 else 0) + (if p == [] then 0 else PathLoops(Children(s)[p[0]], p[1..]))
  }

  lemma {:induction false} BlockDepthBound(ss: seq<Stmt>, k: nat)
    requires k < |ss|
    ensures StmtDepth(ss[k]) <= BlockDepth(ss)
    decreases k
  {
    if k > 0 {
      BlockDepthBound(ss[1..], k - 1);
    }
  }

  /** No path has more loops than the depth. */
  lemma {:induction false} PathBound(s: Stmt, p: seq<nat>)
    requires ValidPath(s, p)
    ensures PathLoops(s, p) <= StmtDepth(s)
    decreases |p|
  {
    if p != [] {
      PathBound(Children(s)[p[0]], p[1..]);
      BlockDepthBound(Children(s), p[0]);
    }
  }

  /** The position of a deepest statement in a non-empty list. */
  function DeepestIndex(ss: seq<Stmt>): (k: nat)
    requires ss != []
    ensures k < |ss| && StmtDepth(ss[k]) == BlockDepth(ss)
    decreases |ss|
  {
    if |ss| == 1 || StmtDepth(ss[0]) >= BlockDepth(ss[1..]) then 0 else 1 + DeepestIndex(ss[1..])
  }

  /** A path attaining the depth: so the depth is the maximum over all paths. */
  ghost function DeepestPath(s: Stmt): (p: seq<nat>)
    ensures ValidPath(s, p) && PathLoops(s, p) == StmtDepth(s)
    decreases StmtSize(s)
  {
    ChildrenSmaller(s);
    if BlockDepth(Children(s)) == 0 then []
    else
      var k := DeepestIndex(Children(s));
      ElementSize(Children(s), k);
      var q := DeepestPath(Children(s)[k]);
      assert ([k] + q)[1..] == q;
      [k] + q
  }

  // ---------------------------------------------------------------- structure

  /** Sibling statement lists combine by maximum, not by sum. */
  lemma {:induction false} BlockDepthAppend(a: seq<Stmt>, b: seq<Stmt>)
    ensures BlockDepth(a + b) == Max(BlockDepth(a), BlockDepth(b))
    decreases |a|
  {
    if a == [] {
      assert a + b == b;
    } else {
      assert (a + b)[0] == a[0] && (a + b)[1..] == a[1..] + b;
      BlockDepthAppend(a[1..], b);
    }
  }

  /** Whether any loop node occurs in `s` or below it. */
  predicate ContainsLoop(s: Stmt)
    decreases StmtSize(s), 1
  {
    ChildrenSmaller(s);
    IsLoop(s) || BlockContainsLoop(Children(s))
  }

  predicate BlockContainsLoop(ss: seq<Stmt>)
    decreases BlockSize(ss), 2
  {
    ss != [] && (ContainsLoop(ss[0]) || BlockContainsLoop(ss[1..]))
  }

  /** Depth zero, and so `O(1)`, exactly when there is no loop at all. */
  lemma {:induction false} DepthZeroIffLoopFree(s: Stmt)
    ensures StmtDepth(s) == 0 <==> !ContainsLoop(s)
    decreases StmtSize(s), 1
  {
    ChildrenSmaller(s);
    BlockDepthZeroIffLoopFree(Children(s));
  }

  lemma {:induction false} BlockDepthZeroIffLoopFree(ss: seq<Stmt>)
    ensures BlockDepth(ss) == 0 <==> !BlockContainsLoop(ss)
    decreases BlockSize(ss), 2
  {
    if ss != [] {
      DepthZeroIffLoopFree(ss[0]);
      BlockDepthZeroIffLoopFree(ss[1..]);
    }
  }

  // ---------------------------------------------------------------- labels

  /** The four named labels agree with the general `O(n^k)` form. */
  lemma LabelFormat(depth: nat)
    ensures depth >= 2 ==> Label(depth) == "O(n^" + NatToString(depth) + ")"
  {
    if 2 <= depth <= 3 {
      assert NatToString(depth) == [DigitChar(depth)];
    }
  }

  /** Different depths get different labels, and none is the parse-failure label. */
  lemma LabelInjective(a: nat, b: nat)
    ensures Label(a) == Label(b) ==> a == b
    ensures Label(a) != "O(?)"
  {
    LabelFormat(a);
    LabelFormat(b);
    if Label(a) == Label(b) && a >= 2 && b >= 2 {
      var sa := NatToString(a);
      var sb := NatToString(b);
      assert "O(n^" + sa + ")" == "O(n^" + sb + ")";
      assert sa == ("O(n^" + sa + ")")[4..|sa| + 4];
      assert sb == ("O(n^" + sb + ")")[4..|sb| + 4];
      NatToStringRoundTrip(a);
      NatToStringRoundTrip(b);
    }
  }

  /** Two sibling loops are still linear. */
  lemma SiblingLoopsAreLinear(t: Expr, x: Target, it: Expr)
    ensures BlockDepth([While(t, [], []), For(x, it, [], [])]) == 1
    ensures Label(BlockDepth([While(t, [], []), For(x, it, [], [])])) == "O(n)"
  {
    var w := While(t, [], []);
    var f := For(x, it, [], []);
    assert Children(w) == [] && Children(f) == [];
    assert StmtDepth(w) == 1 && StmtDepth(f) == 1;
    assert [w, f][1..] == [f] && [f][1..] == [];
    assert BlockDepth([f]) == 1;
  }

  /** A loop inside a loop is quadratic. */
  lemma NestedLoopsAreQuadratic(t: Expr, x: Target, it: Expr)
    ensures Label(BlockDepth([For(x, it, [While(t, [], [])], [])])) == "O(n^2)"
  {
    var w := While(t, [], []);
    var f := For(x, it, [w], []);
    assert Children(w) == [] && StmtDepth(w) == 1;
    assert [w][1..] == [] && BlockDepth([w]) == 1;
    assert Children(f) == [w] && StmtDepth(f) == 2;
    assert [f][1..] == [] && BlockDepth([f]) == 2;
  }
}
