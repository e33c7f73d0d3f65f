/**
 * Formulas as the SMT analyzer sees them: rooted DAGs of operator, symbol
 * and constant nodes. The solver library hash-conses its formula nodes, so
 * two nodes are the same object exactly when they are structurally equal;
 * a datatype value therefore stands for a node, and a set of values for a
 * set of visited nodes.
 *
 * This module defines the specification the analyzer is proved against:
 * the set of nodes reachable from a root, the histogram of their node
 * types, and the path-based depth.
 */
module SmtFormula {

  datatype Operator =
    | And | Or | Not | Implies | Iff | Ite | Equals | LE | LT | Plus | Minus | Times | Div
    | OtherOperator(name: string)

  datatype Constant = BoolConst(b: bool) | IntConst(i: int) | RealConst(r: real)

  datatype Node =
    | Op(op: Operator, args: seq<Node>)
    | Sym(name: string)
    | Const(value: Constant)

  /** The node type the histogram is keyed by. */
  datatype NodeType =
    | OperatorType(op: Operator)
    | SymbolType
    | BoolConstantType
    | IntConstantType
    | RealConstantType

  function TypeOf(n: Node): NodeType {
    match n
    case Op(op, _) => OperatorType(op)
    case Sym(_) => SymbolType
    case Const(BoolConst(_)) => BoolConstantType
    case Const(IntConst(_)) => IntConstantType
    case Const(RealConst(_)) => RealConstantType
  }

  // ---------------------------------------------------------------------
  // Reachable nodes

  /** Every node reachable from `n`, `n` included; a node shared by several
      parents is one element of the set. */
  function Subterms(n: Node): (s: set<Node>)
    ensures n in s
  {
    match n
    case Op(_, args) => {n} + SubtermsOfSeq(args)
    case _ => {n}
  }

  /** The nodes reachable from any of the given children. */
  function SubtermsOfSeq(args: seq<Node>): set<Node> {
    if |args| == 0 then {}
    else SubtermsOfSeq(args[..|args| - 1]) + Subterms(args[|args| - 1])
  }

  lemma {:induction false} SubtermsOfSeqContains(args: seq<Node>, i: nat)
    requires i < |args|
    ensures Subterms(args[i]) <= SubtermsOfSeq(args)
  {
    if i < |args| - 1 {
      SubtermsOfSeqContains(args[..|args| - 1], i);
    }
  }

  // ---------------------------------------------------------------------
  // Depth

  /** Path-based depth: 1 for symbols and constants, otherwise one more
      than the deepest argument (an operator without arguments has depth 1). */
  function AstDepth(n: Node): (d: nat)
    ensures d >= 1
  {
    match n
    case Op(_, args) => 1 + MaxDepth(args)
    case _ => 1
  }

  /** The largest depth among the arguments, 0 when there are none. */
  function MaxDepth(args: seq<Node>): (m: nat)
    ensures |args| == 0 ==> m == 0
  {
    if |args| == 0 then 0
    else
      var rest := MaxDepth(args[..|args| - 1]);
      var last := AstDepth(args[|args| - 1]);
      if rest >= last then rest else last
  }

  /** No argument is deeper than the largest depth. */
  lemma {:induction false} MaxDepthBound(args: seq<Node>, i: nat)
    requires i < |args|
    ensures AstDepth(args[i]) <= MaxDepth(args)
  {
    var n := |args| - 1;
    if i < n {
      MaxDepthBound(args[..n], i);
      assert args[..n][i] == args[i];
    }
  }

  /** An operator is strictly deeper than each of its arguments. */
  lemma ArgumentShallower(n: Node, i: nat)
    requires n.Op? && i < |n.args|
    ensures AstDepth(n.args[i]) < AstDepth(n)
  {
    MaxDepthBound(n.args, i);
  }

  /** The largest depth is the depth of one of the arguments. */
  lemma {:induction false} MaxDepthAttained(args: seq<Node>)
    requires |args| > 0
    ensures exists i :: 0 <= i < |args| && MaxDepth(args) == AstDepth(args[i])
  {
    var n := |args| - 1;
    var init := args[..n];
    if MaxDepth(init) >= AstDepth(args[n]) && n > 0 {
      MaxDepthAttained(init);
      var j :| 0 <= j < n && MaxDepth(init) == AstDepth(init[j]);
      assert init[j] == args[j];
    } else {
      assert MaxDepth(args) == AstDepth(args[n]);
    }
  }

  /** The three cases of the depth: symbols, constants and operators
      without arguments have depth 1, and an operator with arguments is
      one deeper than its deepest argument. */
  lemma AstDepthCases(n: Node)
    ensures AstDepth(n) == 1 <==> !n.Op? || |n.args| == 0
    ensures n.Op? && |n.args| > 0 ==>
              exists i :: 0 <= i < |n.args| && AstDepth(n) == 1 + AstDepth(n.args[i])
  {
    if n.Op? && |n.args| > 0 {
      assert AstDepth(n.args[0]) >= 1;
      MaxDepthAttained(n.args);
    }
  }

  /** Depth never grows going down the DAG. */
  lemma {:induction false} SubtermDepth(n: Node, m: Node)
    requires m in Subterms(n)
    ensures AstDepth(m) <= AstDepth(n)
    decreases n, 1
  {
    if m != n {
      SubtermsOfSeqDepth(n.args, m);
      var i :| 0 <= i < |n.args| && AstDepth(m) <= AstDepth(n.args[i]);
      ArgumentShallower(n, i);
    }
  }

  lemma {:induction false} SubtermsOfSeqDepth(args: seq<Node>, m: Node)
    requires m in SubtermsOfSeq(args)
    ensures exists i :: 0 <= i < |args| && AstDepth(m) <= AstDepth(args[i])
    decreases args, 0
  {
    var k := |args| - 1;
    if m in Subterms(args[k]) {
      SubtermDepth(args[k], m);
    } else {
      SubtermsOfSeqDepth(args[..k], m);
      var i :| 0 <= i < k && AstDepth(m) <= AstDepth(args[..k][i]);
      assert args[..k][i] == args[i];
    }
  }

  /** An operator is not reachable from its own arguments. */
  lemma NotBelowItself(op: Operator, args: seq<Node>)
    ensures Op(op, args) !in SubtermsOfSeq(args)
  {
    var n := Op(op, args);
    if n in SubtermsOfSeq(args) {
      SubtermsOfSeqDepth(args, n);
      var i :| 0 <= i < |args| && AstDepth(n) <= AstDepth(args[i]);
      ArgumentShallower(n, i);
    }
  }

  /** A strict ancestor is never reachable from its descendant. */
  lemma DeeperIsNotSubterm(n: Node, m: Node)
    requires AstDepth(n) < AstDepth(m)
    ensures m !in Subterms(n)
  {
    if m in Subterms(n) {
      SubtermDepth(n, m);
    }
  }

  /** The depth is at most the number of distinct reachable nodes: the
      nodes on a deepest path are pairwise distinct. */
  lemma {:induction false} DepthAtMostSubterms(n: Node)
    ensures AstDepth(n) <= |Subterms(n)|
  {
    if n.Op? && |n.args| > 0 {
      MaxDepthAttained(n.args);
      var i :| 0 <= i < |n.args| && MaxDepth(n.args) == AstDepth(n.args[i]);
      var c := n.args[i];
      DepthAtMostSubterms(c);
      SubtermsOfSeqContains(n.args, i);
      DeeperIsNotSubterm(c, n);
      assert Subterms(c) + {n} <= Subterms(n);
      assert |Subterms(c) + {n}| == |Subterms(c)| + 1;
      SubsetCardinality(Subterms(c) + {n}, Subterms(n));
    }
  }

  lemma {:induction false} SubsetCardinality<T>(a: set<T>, b: set<T>)
    requires a <= b
    ensures |a| <= |b|
    decreases |a|
  {
    if a != {} {
      var x :| x in a;
      SubsetCardinality(a - {x}, b - {x});
    }
  }

  // ---------------------------------------------------------------------
  // Histogram of node types

  function NodesOfType(s: set<Node>, t: NodeType): set<Node> {
    set m | m in s && TypeOf(m) == t
  }

  function TypesIn(s: set<Node>): set<NodeType> {
    set m | m in s :: TypeOf(m)
  }

  /** For each node type present in `s`, the number of nodes of that type. */
  function Histogram(s: set<Node>): map<NodeType, nat> {
    map t | t in TypesIn(s) :: |NodesOfType(s, t)|
  }

  /** Histogram lookup with a default of 0. */
  function Count(h: map<NodeType, nat>, t: NodeType): nat {
    if t in h then h[t] else 0
  }

  /** The histogram's count of one node type. */
  lemma HistogramLookup(s: set<Node>, t: NodeType)
    ensures Count(Histogram(s), t) == |NodesOfType(s, t)|
    ensures t in Histogram(s) ==> Histogram(s)[t] >= 1
  {
    if t in TypesIn(s) {
      var m :| m in s && TypeOf(m) == t;
      assert m in NodesOfType(s, t);
    } else {
      assert NodesOfType(s, t) == {};
    }
  }

  /** Every node type gets the number of nodes of that type, and every
      type present has at least one. */
  lemma HistogramCounts(s: set<Node>)
    ensures forall t :: Count(Histogram(s), t) == |NodesOfType(s, t)|
    ensures forall t :: t in Histogram(s) ==> Histogram(s)[t] >= 1
  {
    forall t
      ensures Count(Histogram(s), t) == |NodesOfType(s, t)|
      ensures t in Histogram(s) ==> Histogram(s)[t] >= 1
    {
      HistogramLookup(s, t);
    }
  }

  /** Adding one unvisited node adds one to its type's count. */
  lemma HistogramInsert(s: set<Node>, n: Node)
    requires n !in s
    ensures Histogram(s + {n}) == Histogram(s)[TypeOf(n) := Count(Histogram(s), TypeOf(n)) + 1]
  {
    var t0 := TypeOf(n);
    var h, h' := Histogram(s), Histogram(s + {n});
    var e := h[t0 := Count(h, t0) + 1];
    assert TypesIn(s + {n}) == TypesIn(s) + {t0};
    assert h'.Keys == e.Keys;
    forall t | t in h'
      ensures h'[t] == e[t]
    {
      HistogramLookup(s, t);
      NodesOfTypeInsert(s, n, t);
    }
  }

  lemma NodesOfTypeInsert(s: set<Node>, n: Node, t: NodeType)
    requires n !in s
    ensures |NodesOfType(s + {n}, t)| == |NodesOfType(s, t)| + (if TypeOf(n) == t then 1 else 0)
  {
    if TypeOf(n) == t {
      assert NodesOfType(s + {n}, t) == NodesOfType(s, t) + {n};
    } else {
      assert NodesOfType(s + {n}, t) == NodesOfType(s, t);
    }
  }

  /** Sum of the histogram's values. */
  ghost function SumValues(h: map<NodeType, nat>): nat
    decreases |h|
  {
    if h == map[] then 0
    else
      var t :| t in h;
      assert |h - {t}| < |h| by {
        assert (h - {t}).Keys == h.Keys - {t};
      }
      h[t] + SumValues(h - {t})
  }

  lemma HistogramRemoveType(s: set<Node>, t: NodeType)
    ensures Histogram(s) - {t} == Histogram(s - NodesOfType(s, t))
  {
    var rest := s - NodesOfType(s, t);
    assert TypesIn(rest) == TypesIn(s) - {t};
    forall t' | t' in TypesIn(rest)
      ensures NodesOfType(rest, t') == NodesOfType(s, t')
    {
    }
  }

  lemma SumValuesUnfold(h: map<NodeType, nat>)
    requires h != map[]
    ensures exists t :: t in h && SumValues(h) == h[t] + SumValues(h - {t})
  {
  }

  /** The histogram's values add up to the number of nodes. */
  lemma {:induction false} HistogramTotal(s: set<Node>)
    ensures SumValues(Histogram(s)) == |s|
    decreases |s|
  {
    var h := Histogram(s);
    if s == {} {
      assert TypesIn(s) == {};
      assert h == map[];
    } else {
      var m :| m in s;
      assert TypeOf(m) in h;
      SumValuesUnfold(h);
      var t :| t in h && SumValues(h) == h[t] + SumValues(h - {t});
      var rest := s - NodesOfType(s, t);
      HistogramLookup(s, t);
      SplitByType(s, t);
      HistogramRemoveType(s, t);
      HistogramTotal(rest);
    }
  }

  /** Taking out the nodes of one type splits the set's size. */
  lemma SplitByType(s: set<Node>, t: NodeType)
    ensures |s| == |s - NodesOfType(s, t)| + |NodesOfType(s, t)|
  {
    var ofType := NodesOfType(s, t);
    assert s == (s - ofType) + ofType;
  }

  /** A child given twice is one node: repeating an argument does not
      change the histogram of the reachable nodes. */
  lemma RepeatedArgumentCountedOnce(op: Operator, args: seq<Node>, c: Node)
    requires c in args
    ensures Histogram(Subterms(Op(op, args + [c]))) == Histogram(Subterms(Op(op, args)))
  {
    var r1, r2 := Op(op, args + [c]), Op(op, args);
    var i :| 0 <= i < |args| && args[i] == c;
    SubtermsOfSeqContains(args, i);
    assert (args + [c])[..|args|] == args;
    var below := SubtermsOfSeq(args);
    assert SubtermsOfSeq(args + [c]) == below;
    NotBelowItself(op, args + [c]);
    NotBelowItself(op, args);
    assert Subterms(r1) == below + {r1};
    assert Subterms(r2) == below + {r2};
    HistogramInsert(below, r1);
    HistogramInsert(below, r2);
  }

  /** The formula (and (or x y) (or x y)) with the disjunction shared by
      both conjuncts. */
  function SharedDisjunction(x: string, y: string): Node {
    var d := Op(Or, [Sym(x), Sym(y)]);
    Op(And, [d, d])
  }

  lemma SharedDisjunctionSubterms(x: string, y: string)
    ensures Subterms(SharedDisjunction(x, y))
         == {SharedDisjunction(x, y), Op(Or, [Sym(x), Sym(y)]), Sym(x), Sym(y)}
  {
    var a, b := Sym(x), Sym(y);
    var d := Op(Or, [a, b]);
    assert [a, b][..1] == [a];
    assert [a][..0] == [];
    assert SubtermsOfSeq([a]) == {a};
    assert SubtermsOfSeq([a, b]) == {a, b};
    assert [d, d][..1] == [d];
    assert [d][..0] == [];
    assert SubtermsOfSeq([d]) == {d, a, b};
    assert SubtermsOfSeq([d, d]) == {d, a, b};
  }

  /** For two distinct symbols, the statistics of the shared disjunction
      count two symbols, one disjunction and one conjunction: the shared
      node is counted once. */
  lemma SharedDisjunctionCounts(x: string, y: string)
    requires x != y
    ensures Histogram(Subterms(SharedDisjunction(x, y)))
         == map[SymbolType := 2, OperatorType(Or) := 1, OperatorType(And) := 1]
  {
    var a, b := Sym(x), Sym(y);
    var d := Op(Or, [a, b]);
    var f := SharedDisjunction(x, y);
    SharedDisjunctionSubterms(x, y);
    TwoSymbolsHistogram(x, y);
    HistogramInsert({a, b}, d);
    assert {a, b} + {d} == {a, b, d};
    assert Histogram({a, b, d}) == map[SymbolType := 2, OperatorType(Or) := 1];
    HistogramInsert({a, b, d}, f);
    assert {a, b, d} + {f} == Subterms(f);
  }

  lemma TwoSymbolsHistogram(x: string, y: string)
    requires x != y
    ensures Histogram({Sym(x), Sym(y)}) == map[SymbolType := 2]
  {
    var a, b := Sym(x), Sym(y);
    var none: set<Node> := {};
    assert TypesIn(none) == {};
    assert Histogram(none) == map[];
    HistogramInsert(none, a);
    assert none + {a} == {a};
    assert Histogram({a}) == map[SymbolType := 1];
    HistogramInsert({a}, b);
    assert {a} + {b} == {a, b};
  }

  /** The depth of the shared disjunction is 3: the path and, or, symbol. */
  lemma SharedDisjunctionDepth(x: string, y: string)
    ensures AstDepth(SharedDisjunction(x, y)) == 3
  {
    var a, b := Sym(x), Sym(y);
    var d := Op(Or, [a, b]);
    assert [a, b][..1] == [a];
    assert [a][..0] == [];
    assert MaxDepth([a]) == 1;
    assert MaxDepth([a, b]) == 1;
    assert AstDepth(d) == 2;
    assert [d, d][..1] == [d];
    assert [d][..0] == [];
    assert MaxDepth([d]) == 2;
    assert MaxDepth([d, d]) == 2;
  }
}
