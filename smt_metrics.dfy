/**
 * Metrics of the last formula of an SMT-LIB script: the number of
 * constraints, the histogram of node types over the distinct reachable
 * nodes, the path-based depth, and the composite complexity score.
 */
module SmtMetrics {
  import opened SmtFormula

  /** Number of constraints: the number of arguments of a top-level
      conjunction, 1 for any other formula. */
  function CountConstraints(formula: Node): (c: nat)
    ensures formula.Op? && formula.op == And ==> c == |formula.args|
    ensures !(formula.Op? && formula.op == And) ==> c == 1
    ensures c == 0 <==> formula == Op(And, [])
  {
    if formula.Op? && formula.op == And then |formula.args| else 1
  }

  /** The visited nodes are the finished ones, all of whose reachable
      nodes are visited too, and the `pending` ancestors of the node being
      walked. */
  ghost predicate ClosedExcept(visited: set<Node>, pending: set<Node>) {
    && pending <= visited
    && forall v {:trigger Subterms(v)} :: v in visited && v !in pending ==> Subterms(v) <= visited
  }

  /** A node shallower than every pending ancestor is not one of them, so
      if it is visited, it is finished. */
  lemma VisitedIsFinished(visited: set<Node>, pending: set<Node>, node: Node)
    requires ClosedExcept(visited, pending) && node in visited
    requires forall p {:trigger AstDepth(p)} :: p in pending ==> AstDepth(node) < AstDepth(p)
    ensures Subterms(node) <= visited
  {
    assert AstDepth(node) >= 1;
    assert node !in pending;
  }

  /** Once all its reachable nodes are visited, a node stops being pending. */
  lemma FinishNode(visited: set<Node>, pending: set<Node>, node: Node)
    requires ClosedExcept(visited, pending + {node}) && Subterms(node) <= visited
    requires pending <= visited
    ensures ClosedExcept(visited, pending)
  {
  }

  /** The nodes reachable from the first `k` arguments. */
  ghost function ReachedFromFirst(args: seq<Node>, k: nat): set<Node>
    requires k <= |args|
  {
    if k == 0 then {} else ReachedFromFirst(args, k - 1) + Subterms(args[k - 1])
  }

  lemma {:induction false} ReachedFromAll(args: seq<Node>, k: nat)
    requires k <= |args|
    ensures ReachedFromFirst(args, k) == SubtermsOfSeq(args[..k])
  {
    if k > 0 {
      ReachedFromAll(args, k - 1);
      assert args[..k][..k - 1] == args[..k - 1];
    }
  }

  lemma ReachedStep(start: set<Node>, prev: set<Node>, next: set<Node>, args: seq<Node>, k: nat)
    requires 0 < k <= |args|
    requires prev == start + ReachedFromFirst(args, k - 1)
    requires next == prev + Subterms(args[k - 1])
    ensures next == start + ReachedFromFirst(args, k)
  {
  }

  /** The state of the operator-statistics walk: the histogram built so
      far and the set of nodes already visited. */
  class StatisticsWalk {
    var stats: map<NodeType, nat>
    var visited: set<Node>

    /** Every visited node has been counted, once. */
    ghost predicate Valid()
      reads this
    {
      stats == Histogram(visited)
    }

    constructor ()
      ensures Valid() && ClosedExcept(visited, {})
      ensures visited == {} && stats == map[]
    {
      stats := map[];
      visited := {};
    }

    /** Visits `node` unless it was visited before, counting it under its
        node type, then walks its arguments. Afterwards every node
        reachable from `node` is visited, and counted exactly once. */
    method Walk(node: Node, ghost pending: set<Node>)
      requires Valid() && ClosedExcept(visited, pending)
      requires forall p {:trigger AstDepth(p)} :: p in pending ==> AstDepth(node) < AstDepth(p)
      modifies this
      ensures Valid() && ClosedExcept(visited, pending)
      ensures visited == old(visited) + Subterms(node)
      decreases node, 1
    {
      if node in visited {
        VisitedIsFinished(visited, pending, node);
        return;
      }
      HistogramInsert(visited, node);
      var op := TypeOf(node);
      stats := stats[op := Count(stats, op) + 1];
      visited := visited + {node};
      if node.Op? {
        WalkArguments(node, pending + {node});
      }
      FinishNode(visited, pending, node);
    }

    /** Walks the arguments of `node` in order, `node` itself being pending.
        Afterwards every node reachable from an argument is visited. */
    method WalkArguments(node: Node, ghost pending: set<Node>)
      requires node.Op? && Valid() && ClosedExcept(visited, pending)
      requires forall p {:trigger AstDepth(p)} :: p in pending ==> AstDepth(node) <= AstDepth(p)
      modifies this
      ensures Valid() && ClosedExcept(visited, pending)
      ensures visited == old(visited) + SubtermsOfSeq(node.args)
      decreases node, 0
    {
      var args := node.args;
      var i := 0;
      while i < |args|
        invariant 0 <= i <= |args|
        invariant Valid() && ClosedExcept(visited, pending)
        invariant visited == old(visited) + ReachedFromFirst(args, i)
      {
        ArgumentShallower(node, i);
        ghost var prev := visited;
        Walk(args[i], pending);
        i := i + 1;
        ReachedStep(old(visited), prev, visited, args, i);
      }
      ReachedFromAll(args, i);
      assert args[..i] == args;
    }
  }

  /** The histogram of node types over the distinct nodes reachable from
      the formula: a node shared by several parents is counted once. */
  method OperatorStatistics(formula: Node) returns (stats: map<NodeType, nat>)
    ensures stats == Histogram(Subterms(formula))
  {
    var walk := new StatisticsWalk();
    walk.Walk(formula, {});
    assert walk.visited == Subterms(formula);
    stats := walk.stats;
  }

  /** For each node type, the statistics give the number of distinct
      reachable nodes of that type; every type present has at least one;
      and the counts add up to the number of distinct reachable nodes,
      which is at least one, the root. */
  lemma OperatorStatisticsMeaning(formula: Node)
    ensures forall t :: Count(Histogram(Subterms(formula)), t) == |NodesOfType(Subterms(formula), t)|
    ensures forall t :: t in Histogram(Subterms(formula)) ==> Histogram(Subterms(formula))[t] >= 1
    ensures SumValues(Histogram(Subterms(formula))) == |Subterms(formula)| >= 1
  {
    HistogramCounts(Subterms(formula));
    HistogramTotal(Subterms(formula));
  }

  /** Number of free variables of a quantifier-free formula: its distinct
      symbols, which is the histogram's count for symbols. */
  function CountVariables(formula: Node): (v: nat)
    ensures v == Count(Histogram(Subterms(formula)), SymbolType)
  {
    HistogramCounts(Subterms(formula));
    |NodesOfType(Subterms(formula), SymbolType)|
  }

  /** The complexity score: either 0.0 or the base-2 logarithm of a
      positive integer. */
  datatype Score = Zero | Log2Of(argument: nat)

  /** The product the score takes the logarithm of: variables times
      constraints times the total of the operator statistics times the depth. */
  function ComplexityProduct(variables: nat, formula: Node): int {
    variables * CountConstraints(formula) * |Subterms(formula)| * AstDepth(formula)
  }

  /** The guard returns 0.0 exactly when the product is not positive,
      which, since the operator total and the depth are at least one,
      happens exactly when there are no variables or no constraints.
      Otherwise the score is the base-2 logarithm of a product of at least
      one, which is also 0.0 when the product is 1 (a lone symbol). */
  function EstimatedComplexity(variables: nat, formula: Node): (s: Score)
    ensures s == Zero <==> variables == 0 || CountConstraints(formula) == 0
    ensures s.Log2Of? ==> s.argument == ComplexityProduct(variables, formula) >= 1
  {
    var product := ComplexityProduct(variables, formula);
    ProductZero(variables, CountConstraints(formula), |Subterms(formula)|, AstDepth(formula));
    if product <= 0 then Zero else Log2Of(product)
  }

  /** A lone Boolean symbol passes the guard with a product of 1, so its
      score is log2(1), that is 0.0, reached through the logarithm. */
  lemma LoneSymbolScore(x: string)
    ensures Subterms(Sym(x)) == {Sym(x)}
    ensures EstimatedComplexity(1, Sym(x)) == Log2Of(1)
  {
    assert AstDepth(Sym(x)) == 1;
  }

  lemma ProductZero(a: nat, b: nat, c: nat, d: nat)
    requires c >= 1 && d >= 1
    ensures a * b * c * d >= 0
    ensures a * b * c * d == 0 <==> a == 0 || b == 0
  {
    var ab := a * b;
    assert ab >= 0;
    assert ab * c >= 0;
    assert ab * c * d >= 0;
    if a != 0 && b != 0 {
      assert ab >= 1;
      assert ab * c >= 1;
      assert ab * c * d >= 1;
    }
  }
}
