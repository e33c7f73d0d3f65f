/**
 * Planning metrics of a parsed planning problem: the number of ground
 * operators, the branching factor, the operator density, the ratio of
 * positive to negative effects and the composite complexity score.
 *
 * The problem is plain data: its action schemas, the number of objects of
 * each type (subtypes included, as the planning library's type lookup
 * reports it) and the number of all objects of the problem.
 */
module PddlMetrics {

  type TypeName = string

  /** A typed parameter of an action schema. */
  datatype Parameter = Parameter(name: string, typ: TypeName)

  /** The value an effect assigns: a boolean literal, a numeric constant,
      or any other expression (a fluent, a sum, a conditional value, ...). */
  datatype EffValue = True | False | Const(value: real) | Other

  /** An action schema. Durative actions keep one effect list per timing;
      any other kind of action only contributes its parameters. */
  datatype Action =
    | Instantaneous(params: seq<Parameter>, effects: seq<EffValue>)
    | Durative(params: seq<Parameter>, timedEffects: seq<seq<EffValue>>)
    | OtherKind(params: seq<Parameter>)

  datatype Problem = Problem(actions: seq<Action>, objectsOfType: map<TypeName, nat>, allObjects: nat)

  /** Number of objects whose type is `t` or a subtype of it; a type the
      lookup does not know has none. */
  function ObjectCount(p: Problem, t: TypeName): nat {
    if t in p.objectsOfType then p.objectsOfType[t] else 0
  }

  // ---------------------------------------------------------------------
  // Grounding count

  /** The factor one parameter contributes to its schema's ground count:
      the number of objects of its type, where an empty type counts as one. */
  function Factor(p: Problem, param: Parameter): (f: nat)
    ensures f >= 1
    ensures ObjectCount(p, param.typ) == 0 ==> f == 1
    ensures ObjectCount(p, param.typ) > 0 ==> f == ObjectCount(p, param.typ)
  {
    if ObjectCount(p, param.typ) > 0 then ObjectCount(p, param.typ) else 1
  }

  /** Number of ground instances of a schema with these parameters. */
  function Combinations(p: Problem, params: seq<Parameter>): (c: nat)
    ensures c >= 1
    ensures |params| == 0 ==> c == 1
  {
    if |params| == 0 then 1
    else
      var c0 := Combinations(p, params[..|params| - 1]);
      var f := Factor(p, params[|params| - 1]);
      assert c0 * f >= c0 * 1;
      c0 * f
  }

  /** Sum of the ground counts of the given schemas. */
  function GroundTotal(p: Problem, actions: seq<Action>): (g: nat)
    ensures g >= |actions|
    ensures |actions| == 0 ==> g == 0
  {
    if |actions| == 0 then 0
    else GroundTotal(p, actions[..|actions| - 1]) + Combinations(p, actions[|actions| - 1].params)
  }

  /** The ground operator count of the whole problem. */
  function GroundOperators(p: Problem): nat {
    GroundTotal(p, p.actions)
  }

  /** Sums the per-schema products of the parameters' object counts, each
      floored at one, as nested loops over schemas and parameters. */
  method CountGroundOperators(p: Problem) returns (total: nat)
    ensures total == GroundOperators(p)
  {
    total := 0;
    var i := 0;
    while i < |p.actions|
      invariant 0 <= i <= |p.actions|
      invariant total == GroundTotal(p, p.actions[..i])
    {
      var action := p.actions[i];
      var combinations := 1;
      var j := 0;
      while j < |action.params|
        invariant 0 <= j <= |action.params|
        invariant combinations == Combinations(p, action.params[..j])
      {
        var numObjects := ObjectCount(p, action.params[j].typ);
        combinations := combinations * (if numObjects > 0 then numObjects else 1);
        CombinationsStep(p, action.params, j);
        assert combinations == Combinations(p, action.params[..j + 1]);
        j := j + 1;
      }
      assert action.params[..j] == action.params;
      total := total + combinations;
      GroundTotalStep(p, p.actions, i);
      assert total == GroundTotal(p, p.actions[..i + 1]);
      i := i + 1;
    }
    assert p.actions[..i] == p.actions;
  }

  lemma CombinationsStep(p: Problem, params: seq<Parameter>, j: nat)
    requires j < |params|
    ensures Combinations(p, params[..j + 1]) == Combinations(p, params[..j]) * Factor(p, params[j])
  {
    assert params[..j + 1][..j] == params[..j];
  }

  lemma GroundTotalStep(p: Problem, actions: seq<Action>, i: nat)
    requires i < |actions|
    ensures GroundTotal(p, actions[..i + 1]) == GroundTotal(p, actions[..i]) + Combinations(p, actions[i].params)
  {
    assert actions[..i + 1][..i] == actions[..i];
  }

  /** The unfloored product of the parameters' object counts. */
  function RawProduct(p: Problem, params: seq<Parameter>): nat {
    if |params| == 0 then 1
    else RawProduct(p, params[..|params| - 1]) * ObjectCount(p, params[|params| - 1].typ)
  }

  /** The parameters whose type has at least one object, in order. */
  function Populated(p: Problem, params: seq<Parameter>): (q: seq<Parameter>)
    ensures forall i :: 0 <= i < |q| ==> ObjectCount(p, q[i].typ) > 0
  {
    if |params| == 0 then []
    else
      var last := params[|params| - 1];
      Populated(p, params[..|params| - 1]) + (if ObjectCount(p, last.typ) > 0 then [last] else [])
  }

  /** A parameter of an empty type is neutral: the floored product equals
      the plain product over the parameters whose type has objects. */
  lemma {:induction false} EmptyTypesAreNeutral(p: Problem, params: seq<Parameter>)
    ensures Combinations(p, params) == RawProduct(p, Populated(p, params))
  {
    if |params| > 0 {
      var init, last := params[..|params| - 1], params[|params| - 1];
      EmptyTypesAreNeutral(p, init);
      var q := Populated(p, init);
      if ObjectCount(p, last.typ) > 0 {
        assert (q + [last])[..|q + [last]| - 1] == q;
      } else {
        assert q + [] == q;
      }
    }
  }

  lemma {:induction false} GroundTotalAppend(p: Problem, a: seq<Action>, b: seq<Action>)
    ensures GroundTotal(p, a + b) == GroundTotal(p, a) + GroundTotal(p, b)
    decreases |b|
  {
    if |b| == 0 {
      assert a + b == a;
    } else {
      var init := b[..|b| - 1];
      assert (a + b)[..|a + b| - 1] == a + init;
      GroundTotalAppend(p, a, init);
    }
  }

  /** The ground count does not depend on the order of the schemas. */
  lemma {:induction false} GroundTotalReorder(p: Problem, a: seq<Action>, b: seq<Action>)
    requires multiset(a) == multiset(b)
    ensures GroundTotal(p, a) == GroundTotal(p, b)
    decreases |a|
  {
    if |a| == 0 {
      assert |b| == |multiset(b)| == 0;
    } else {
      var init, x := a[..|a| - 1], a[|a| - 1];
      assert a == init + [x];
      assert x in multiset(b);
      var k :| 0 <= k < |b| && b[k] == x;
      var rest := b[..k] + b[k + 1..];
      RemoveOccurrence(init, b, k);
      GroundTotalReorder(p, init, rest);
      GroundTotalExtract(p, b, k);
    }
  }

  /** Removing one occurrence of the last element of `init + [b[k]]` from
      both sides keeps the multisets equal. */
  lemma RemoveOccurrence<T>(init: seq<T>, b: seq<T>, k: nat)
    requires k < |b| && multiset(init + [b[k]]) == multiset(b)
    ensures multiset(init) == multiset(b[..k] + b[k + 1..])
  {
    var left, right := b[..k], b[k + 1..];
    assert b == left + [b[k]] + right;
    assert multiset(b) == multiset(left + right) + multiset{b[k]};
    MultisetCancel(multiset(init), multiset(left + right), b[k]);
  }

  /** The schema at position `k` contributes its ground count wherever it stands. */
  lemma GroundTotalExtract(p: Problem, b: seq<Action>, k: nat)
    requires k < |b|
    ensures GroundTotal(p, b) == GroundTotal(p, b[..k] + b[k + 1..]) + Combinations(p, b[k].params)
  {
    var left, right := b[..k], b[k + 1..];
    assert b == left + [b[k]] + right;
    GroundTotalAppend(p, left + [b[k]], right);
    GroundTotalAppend(p, left, [b[k]]);
    GroundTotalAppend(p, left, right);
    assert [b[k]][..0] == [];
  }

  lemma MultisetCancel<T>(m1: multiset<T>, m2: multiset<T>, x: T)
    requires m1 + multiset{x} == m2 + multiset{x}
    ensures m1 == m2
  {
    forall y | true
      ensures m1[y] == m2[y]
    {
      assert (m1 + multiset{x})[y] == (m2 + multiset{x})[y];
    }
  }

  // ---------------------------------------------------------------------
  // Branching factor and operator density

  /** Average number of ground operators per schema; 1 without schemas. */
  function BranchingFactor(p: Problem): (b: real)
    ensures |p.actions| > 0 ==> b * (|p.actions| as real) == GroundOperators(p) as real
    ensures |p.actions| == 0 ==> b == 1.0
    ensures b >= 1.0
  {
    var n := |p.actions|;
    if n > 0 then
      var g := GroundOperators(p);
      Quotient(g as real, n as real);
      g as real / n as real
    else 1.0
  }

  /** Ground operators per object; 1 when the problem has no objects. */
  function OperatorDensity(p: Problem): (d: real)
    ensures p.allObjects > 0 ==> d * (p.allObjects as real) == GroundOperators(p) as real
    ensures p.allObjects == 0 ==> d == 1.0
    ensures d >= 0.0
    ensures d > 0.0 <==> |p.actions| > 0 || p.allObjects == 0
  {
    var n := p.allObjects;
    if n > 0 then
      var g := GroundOperators(p);
      assert g > 0 <==> |p.actions| > 0;
      Quotient(g as real, n as real);
      g as real / n as real
    else 1.0
  }

  /** The facts about a quotient of non-negative reals the ratios rely on. */
  lemma Quotient(g: real, n: real)
    requires g >= 0.0 && n > 0.0
    ensures (g / n) * n == g
    ensures g / n >= 0.0
    ensures g / n > 0.0 <==> g > 0.0
    ensures g >= n ==> g / n >= 1.0
  {
  }

  /** Reordering the schemas changes neither the branching factor nor the density. */
  lemma ReorderedActionsKeepRatios(p: Problem, q: Problem)
    requires multiset(p.actions) == multiset(q.actions)
    requires p.objectsOfType == q.objectsOfType && p.allObjects == q.allObjects
    ensures BranchingFactor(p) == BranchingFactor(q)
    ensures OperatorDensity(p) == OperatorDensity(q)
  {
    GroundTotalReorder(p, p.actions, q.actions);
    assert GroundTotal(p, q.actions) == GroundTotal(q, q.actions) by {
      GroundTotalSameCounts(p, q, q.actions);
    }
    assert |p.actions| == |multiset(p.actions)| == |multiset(q.actions)| == |q.actions|;
  }

  lemma {:induction false} GroundTotalSameCounts(p: Problem, q: Problem, actions: seq<Action>)
    requires p.objectsOfType == q.objectsOfType
    ensures GroundTotal(p, actions) == GroundTotal(q, actions)
  {
    if |actions| > 0 {
      GroundTotalSameCounts(p, q, actions[..|actions| - 1]);
      CombinationsSameCounts(p, q, actions[|actions| - 1].params);
    }
  }

  lemma {:induction false} CombinationsSameCounts(p: Problem, q: Problem, params: seq<Parameter>)
    requires p.objectsOfType == q.objectsOfType
    ensures Combinations(p, params) == Combinations(q, params)
  {
    if |params| > 0 {
      CombinationsSameCounts(p, q, params[..|params| - 1]);
    }
  }

  /** Two schemas, one with a parameter of a type with three objects and
      one without parameters: four ground operators, branching factor 2. */
  lemma TwoSchemaExample(objects: nat)
    ensures var p := Problem([Instantaneous([Parameter("x", "t")], []), Instantaneous([], [])], map["t" := 3], objects);
            GroundOperators(p) == 4 && BranchingFactor(p) == 2.0
  {
    var p := Problem([Instantaneous([Parameter("x", "t")], []), Instantaneous([], [])], map["t" := 3], objects);
    assert [Parameter("x", "t")][..0] == [];
    assert Combinations(p, [Parameter("x", "t")]) == 3;
    assert p.actions[..1][..0] == [];
    assert GroundTotal(p, p.actions[..1]) == 3;
  }

  // ---------------------------------------------------------------------
  // Effect ratio

  datatype Polarity = Positive | Negative | Uncounted

  /** How an effect value is counted: in an instantaneous action a boolean
      literal or a numeric constant (positive when greater than zero), in a
      durative action only a boolean literal. */
  function Classify(v: EffValue, instantaneous: bool): (pol: Polarity)
    ensures pol == Positive <==> v == True || (instantaneous && v.Const? && v.value > 0.0)
    ensures pol == Negative <==> v == False || (instantaneous && v.Const? && v.value <= 0.0)
  {
    match v
    case True => Positive
    case False => Negative
    case Const(c) => if !instantaneous then Uncounted else if c > 0.0 then Positive else Negative
    case Other => Uncounted
  }

  /** Counts of positive and negative effects. */
  datatype Tally = Tally(pos: nat, neg: nat) {
    function Plus(other: Tally): Tally {
      Tally(pos + other.pos, neg + other.neg)
    }
  }

  function Unit(pol: Polarity): Tally {
    match pol
    case Positive => Tally(1, 0)
    case Negative => Tally(0, 1)
    case Uncounted => Tally(0, 0)
  }

  /** Tally of one effect list. */
  function EffectsTally(effects: seq<EffValue>, instantaneous: bool): Tally {
    if |effects| == 0 then Tally(0, 0)
    else
      EffectsTally(effects[..|effects| - 1], instantaneous)
        .Plus(Unit(Classify(effects[|effects| - 1], instantaneous)))
  }

  /** Tally of the effect lists of a durative action, over all timings. */
  function TimedTally(timed: seq<seq<EffValue>>): Tally {
    if |timed| == 0 then Tally(0, 0)
    else TimedTally(timed[..|timed| - 1]).Plus(EffectsTally(timed[|timed| - 1], false))
  }

  function ActionTally(a: Action): Tally {
    match a
    case Instantaneous(_, effects) => EffectsTally(effects, true)
    case Durative(_, timed) => TimedTally(timed)
    case OtherKind(_) => Tally(0, 0)
  }

  function ActionsTally(actions: seq<Action>): Tally {
    if |actions| == 0 then Tally(0, 0)
    else ActionsTally(actions[..|actions| - 1]).Plus(ActionTally(actions[|actions| - 1]))
  }

  /** Positive over negative effects, the negatives floored at one and the
      quotient floored at 0.1. */
  function EffectRatioOf(t: Tally): (r: real)
    ensures r >= 0.1
    ensures r * (if t.neg > 0 then t.neg else 1) as real >= t.pos as real
    ensures r > 0.1 ==> r * (if t.neg > 0 then t.neg else 1) as real == t.pos as real
    ensures t.pos as real >= 0.1 * (if t.neg > 0 then t.neg else 1) as real ==>
              r * (if t.neg > 0 then t.neg else 1) as real == t.pos as real
  {
    var neg := if t.neg > 0 then t.neg else 1;
    AtLeastTenth(t.pos as real / neg as real)
  }

  /** The effect ratio of a problem, as a function of the problem. */
  function ProblemEffectRatio(p: Problem): real {
    EffectRatioOf(ActionsTally(p.actions))
  }

  lemma EffectsTallyStep(effects: seq<EffValue>, e: nat, instantaneous: bool)
    requires e < |effects|
    ensures EffectsTally(effects[..e + 1], instantaneous)
         == EffectsTally(effects[..e], instantaneous).Plus(Unit(Classify(effects[e], instantaneous)))
  {
    assert effects[..e + 1][..e] == effects[..e];
  }

  lemma TimedTallyStep(timed: seq<seq<EffValue>>, t: nat)
    requires t < |timed|
    ensures TimedTally(timed[..t + 1]) == TimedTally(timed[..t]).Plus(EffectsTally(timed[t], false))
  {
    assert timed[..t + 1][..t] == timed[..t];
  }

  lemma ActionsTallyStep(actions: seq<Action>, i: nat)
    requires i < |actions|
    ensures ActionsTally(actions[..i + 1]) == ActionsTally(actions[..i]).Plus(ActionTally(actions[i]))
  {
    assert actions[..i + 1][..i] == actions[..i];
  }

  /** Walks every effect of every schema (all timings of durative ones)
      and counts positive and negative effects, then forms the ratio. */
  method EffectRatio(p: Problem) returns (ratio: real)
    ensures ratio == ProblemEffectRatio(p)
  {
    var totalPos: nat, totalNeg: nat := 0, 0;
    var i := 0;
    while i < |p.actions|
      invariant 0 <= i <= |p.actions|
      invariant Tally(totalPos, totalNeg) == ActionsTally(p.actions[..i])
    {
      match p.actions[i] {
        case Durative(_, timed) =>
          totalPos, totalNeg := CountDurativeEffects(timed, totalPos, totalNeg);
        case Instantaneous(_, effects) =>
          totalPos, totalNeg := CountInstantaneousEffects(effects, totalPos, totalNeg);
        case OtherKind(_) =>
      }
      ActionsTallyStep(p.actions, i);
      i := i + 1;
    }
    assert p.actions[..i] == p.actions;
    ratio := EffectRatioOf(Tally(totalPos, totalNeg));
  }

  /** The counting loop of a durative action: over every timing's effect
      list, only boolean literals are counted. */
  method CountDurativeEffects(timed: seq<seq<EffValue>>, pos0: nat, neg0: nat) returns (totalPos: nat, totalNeg: nat)
    ensures Tally(totalPos, totalNeg) == Tally(pos0, neg0).Plus(TimedTally(timed))
  {
    totalPos, totalNeg := pos0, neg0;
    var t := 0;
    while t < |timed|
      invariant 0 <= t <= |timed|
      invariant Tally(totalPos, totalNeg) == Tally(pos0, neg0).Plus(TimedTally(timed[..t]))
    {
      ghost var before := Tally(totalPos, totalNeg);
      var effects := timed[t];
      var e := 0;
      while e < |effects|
        invariant 0 <= e <= |effects|
        invariant Tally(totalPos, totalNeg) == before.Plus(EffectsTally(effects[..e], false))
      {
        if effects[e].True? {
          totalPos := totalPos + 1;
        } else if effects[e].False? {
          totalNeg := totalNeg + 1;
        }
        EffectsTallyStep(effects, e, false);
        e := e + 1;
      }
      assert effects[..e] == effects;
      TimedTallyStep(timed, t);
      t := t + 1;
    }
    assert timed[..t] == timed;
  }

  /** The counting loop of an instantaneous action: boolean literals, and
      numeric constants by their sign. */
  method CountInstantaneousEffects(effects: seq<EffValue>, pos0: nat, neg0: nat) returns (totalPos: nat, totalNeg: nat)
    ensures Tally(totalPos, totalNeg) == Tally(pos0, neg0).Plus(EffectsTally(effects, true))
  {
    totalPos, totalNeg := pos0, neg0;
    var e := 0;
    while e < |effects|
      invariant 0 <= e <= |effects|
      invariant Tally(totalPos, totalNeg) == Tally(pos0, neg0).Plus(EffectsTally(effects[..e], true))
    {
      var v := effects[e];
      if v.True? {
        totalPos := totalPos + 1;
      } else if v.False? {
        totalNeg := totalNeg + 1;
      } else if v.Const? {
        if v.value > 0.0 {
          totalPos := totalPos + 1;
        } else {
          totalNeg := totalNeg + 1;
        }
      }
      EffectsTallyStep(effects, e, true);
      e := e + 1;
    }
    assert effects[..e] == effects;
  }

  lemma {:induction false} EffectsTallyAppend(a: seq<EffValue>, b: seq<EffValue>, instantaneous: bool)
    ensures EffectsTally(a + b, instantaneous) == EffectsTally(a, instantaneous).Plus(EffectsTally(b, instantaneous))
    decreases |b|
  {
    if |b| == 0 {
      assert a + b == a;
    } else {
      var init := b[..|b| - 1];
      assert (a + b)[..|a + b| - 1] == a + init;
      EffectsTallyAppend(a, init, instantaneous);
    }
  }

  lemma {:induction false} ActionsTallyAppend(a: seq<Action>, b: seq<Action>)
    ensures ActionsTally(a + b) == ActionsTally(a).Plus(ActionsTally(b))
    decreases |b|
  {
    if |b| == 0 {
      assert a + b == a;
    } else {
      var init := b[..|b| - 1];
      assert (a + b)[..|a + b| - 1] == a + init;
      ActionsTallyAppend(a, init);
    }
  }

  /** An effect that is neither a boolean literal nor (in an instantaneous
      action) a numeric constant changes neither count, wherever it stands. */
  lemma UncountedEffectIsIgnored(a: seq<EffValue>, v: EffValue, b: seq<EffValue>, instantaneous: bool)
    requires Classify(v, instantaneous) == Uncounted
    ensures EffectsTally(a + [v] + b, instantaneous) == EffectsTally(a + b, instantaneous)
  {
    var av := a + [v];
    EffectsTallyAppend(av, b, instantaneous);
    EffectsTallyAppend(a, b, instantaneous);
    assert av[..|av| - 1] == a;
    assert EffectsTally(av, instantaneous) == EffectsTally(a, instantaneous);
  }

  /** An action that is neither instantaneous nor durative changes neither
      count, wherever it stands. */
  lemma OtherActionIsIgnored(a: seq<Action>, params: seq<Parameter>, b: seq<Action>)
    ensures ActionsTally(a + [OtherKind(params)] + b) == ActionsTally(a + b)
  {
    var ao := a + [OtherKind(params)];
    ActionsTallyAppend(ao, b);
    ActionsTallyAppend(a, b);
    assert ao[..|ao| - 1] == a;
    assert ActionsTally(ao) == ActionsTally(a);
  }

  /** Each effect is counted at most once. */
  lemma {:induction false} EffectsTallyBound(effects: seq<EffValue>, instantaneous: bool)
    ensures EffectsTally(effects, instantaneous).pos + EffectsTally(effects, instantaneous).neg <= |effects|
  {
    if |effects| > 0 {
      EffectsTallyBound(effects[..|effects| - 1], instantaneous);
    }
  }

  /** Without numeric constants, durative and instantaneous counting agree. */
  lemma {:induction false} BooleanEffectsCountAlike(effects: seq<EffValue>)
    requires forall i :: 0 <= i < |effects| ==> !effects[i].Const?
    ensures EffectsTally(effects, false) == EffectsTally(effects, true)
  {
    if |effects| > 0 {
      BooleanEffectsCountAlike(effects[..|effects| - 1]);
    }
  }

  /** In an instantaneous action every literal effect is counted once. */
  lemma {:induction false} LiteralEffectsAllCounted(effects: seq<EffValue>)
    requires forall i :: 0 <= i < |effects| ==> !effects[i].Other?
    ensures EffectsTally(effects, true).pos + EffectsTally(effects, true).neg == |effects|
  {
    if |effects| > 0 {
      LiteralEffectsAllCounted(effects[..|effects| - 1]);
    }
  }

  // ---------------------------------------------------------------------
  // Composite complexity

  /** max(0.1, x) */
  function AtLeastTenth(x: real): (y: real)
    ensures y >= 0.1 && y >= x
    ensures y == x || y == 0.1
  {
    if x > 0.1 then x else 0.1
  }

  /** With the branching factor at least one, the floored product is at
      least 0.1 * 1 * 0.1. */
  lemma FlooredProductBound(ground: real, branching: real, ratio: real)
    requires branching >= 1.0
    ensures AtLeastTenth(ground) * AtLeastTenth(branching) * AtLeastTenth(ratio) >= 0.01
  {
    var g, b, e := AtLeastTenth(ground), AtLeastTenth(branching), AtLeastTenth(ratio);
    assert g * b >= g * 1.0;
    assert g * b * e >= (g * b) * 0.1;
  }

  /** The argument the complexity score takes the base-2 logarithm of: the
      product of the ground count, the branching factor and the effect
      ratio, each floored at 0.1. It is never below 0.01, so the logarithm
      is always defined. */
  function ComplexityLogArgument(p: Problem): (x: real)
    ensures x >= 0.01
  {
    var ground, branching, ratio := GroundOperators(p) as real, BranchingFactor(p), ProblemEffectRatio(p);
    FlooredProductBound(ground, branching, ratio);
    AtLeastTenth(ground) * AtLeastTenth(branching) * AtLeastTenth(ratio)
  }
}
