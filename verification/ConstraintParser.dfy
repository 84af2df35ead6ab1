/** Constraint specifications of the platform model. */
module PlatformConstraints {

  /** A duration, with the least and the greatest representable one standing for "no bound". */
  datatype Duration = Lowest | Seconds(s: real) | Highest

  datatype BooleanOperator = OR | AND
  datatype UnaryOperator = NEXT | PREVIOUS | FUTURE | PAST
  datatype BinaryOperator = UNTIL | SINCE

  /** An operator of the flat list that the grammar hands to the after-parser. */
  datatype OpType = AndOp | OrOp | UntilOp | SinceOp
  datatype Operator = Operator(opType: OpType, lower: Duration, upper: Duration)

  /** Action and state specifications share their shape and differ in their basic specs. */
  datatype Spec<B> =
    | Basic(basic: B)
    | Boolean(lhs: Spec<B>, boolOp: BooleanOperator, rhs: Spec<B>)
    | TemporalUnary(subject: Spec<B>, unaryOp: UnaryOperator, lower: Duration, upper: Duration)
    | TemporalBinary(lhs: Spec<B>, rhs: Spec<B>, binaryOp: BinaryOperator, lower: Duration, upper: Duration)
    | Intermediate(lhs: Spec<B>, op: Operator, rhs: Spec<B>)

  /** No intermediate node of the after-parser is left anywhere in the spec. */
  predicate Finished<B>(s: Spec<B>) {
    match s
    case Basic(_) => true
    case Boolean(l, _, r) => Finished(l) && Finished(r)
    case TemporalUnary(x, _, _, _) => Finished(x)
    case TemporalBinary(l, r, _, _, _) => Finished(l) && Finished(r)
    case Intermediate(_, _, _) => false
  }
}

/** From the flat operator list of a constraint to a finished specification. */
module ConstraintParser {
  import opened Golog
  import opened PlatformConstraints
  import opened Precedence

  /** The operator constructor: a missing bound, or a missing half of one, means "unbounded". */
  function MakeOperator(t: OpType, bound: Option<(Option<real>, Option<real>)>): Operator {
    match bound
    case None => Operator(t, Lowest, Highest)
    case Some((lo, hi)) =>
      Operator(t, if lo.Some? then Seconds(lo.value) else Lowest, if hi.Some? then Seconds(hi.value) else Highest)
  }

  /** The grammar gives bounds to the temporal operators only. */
  predicate FromGrammar(op: Operator) {
    op.opType.AndOp? || op.opType.OrOp? ==> op == MakeOperator(op.opType, None)
  }

  function OperatorPrecedence(op: Operator): nat {
    match op.opType
    case UntilOp | SinceOp => 1
    case OrOp => 2
    case AndOp => 3
  }

  /** What the after-parser builds: intermediate nodes over the operands. */
  function FromTree<B>(t: Tree<Spec<B>, Operator>): (s: Spec<B>)
    ensures t.Node? ==> s.Intermediate?
  {
    match t
    case Leaf(a) => a
    case Node(l, op, r) => Intermediate(FromTree(l), op, FromTree(r))
  }

  /** Replaces intermediate nodes by operations, top down, stopping at everything else. */
  function Convert<B>(s: Spec<B>): Spec<B>
    requires s.Intermediate?
  {
    var lhs := if s.lhs.Intermediate? then Convert(s.lhs) else s.lhs;
    var rhs := if s.rhs.Intermediate? then Convert(s.rhs) else s.rhs;
    match s.op.opType
    case OrOp => Boolean(lhs, OR, rhs)
    case AndOp => Boolean(lhs, AND, rhs)
    case SinceOp => TemporalBinary(lhs, rhs, SINCE, s.op.lower, s.op.upper)
    case UntilOp => TemporalBinary(lhs, rhs, UNTIL, s.op.lower, s.op.upper)
  }

  /** A constraint spec with at least one binary operator. */
  function ParseSpec<B>(vec: seq<Token<Spec<B>, Operator>>, last: Spec<B>): Spec<B>
    requires |vec| >= 1
  {
    Convert(FromTree(Parse(OperatorPrecedence, vec, last)))
  }

  // ---------------------------------------------------------------- the source is preserved

  predicate IsOperation<B>(s: Spec<B>) {
    s.Boolean? || s.TemporalBinary?
  }

  /** The source operator that a finished binary operation stands for, bounds included. */
  function SourceOperator<B>(s: Spec<B>): Operator
    requires IsOperation(s)
  {
    match s
    case Boolean(_, OR, _) => MakeOperator(OrOp, None)
    case Boolean(_, AND, _) => MakeOperator(AndOp, None)
    case TemporalBinary(_, _, SINCE, lo, hi) => Operator(SinceOp, lo, hi)
    case TemporalBinary(_, _, UNTIL, lo, hi) => Operator(UntilOp, lo, hi)
  }

  /** The spec is one of the bracketings of the flat list: same operands, same operators, same order. */
  ghost predicate Bracketing<B>(s: Spec<B>, vec: seq<Token<Spec<B>, Operator>>, last: Spec<B>)
    decreases |vec|
  {
    if vec == [] then s == last
    else exists k: nat ::
      && k < |vec|
      && IsOperation(s)
      && SourceOperator(s) == vec[k].op
      && Bracketing(s.lhs, vec[..k], vec[k].operand)
      && Bracketing(s.rhs, vec[k + 1..], last)
  }

  ghost predicate GrammarList<B>(vec: seq<Token<Spec<B>, Operator>>, last: Spec<B>) {
    && Finished(last)
    && forall i :: 0 <= i < |vec| ==> Finished(vec[i].operand) && FromGrammar(vec[i].op)
  }

  function Converted<B>(t: Tree<Spec<B>, Operator>): Spec<B> {
    if t.Leaf? then t.atom else Convert(FromTree(t))
  }

  lemma GrammarListOfNode<B>(t: Tree<Spec<B>, Operator>)
    requires t.Node? && GrammarList(Tokens(t), LastAtom(t))
    ensures GrammarList(Tokens(t.lhs), LastAtom(t.lhs)) && GrammarList(Tokens(t.rhs), LastAtom(t.rhs))
    ensures FromGrammar(t.op)
  {
    var vec, k := Tokens(t), |Tokens(t.lhs)|;
    assert vec[k] == Token(LastAtom(t.lhs), t.op);
    forall i | 0 <= i < k ensures vec[i] == Tokens(t.lhs)[i] {}
    forall i | 0 <= i < |Tokens(t.rhs)| ensures Tokens(t.rhs)[i] == vec[k + 1 + i] {}
  }

  /** One node of the tree becomes one operation over the converted children. */
  lemma ConvertedNode<B>(t: Tree<Spec<B>, Operator>)
    requires t.Node? && FromGrammar(t.op)
    requires t.lhs.Leaf? ==> Finished(t.lhs.atom)
    requires t.rhs.Leaf? ==> Finished(t.rhs.atom)
    ensures IsOperation(Converted(t)) && SourceOperator(Converted(t)) == t.op
    ensures Converted(t).lhs == Converted(t.lhs) && Converted(t).rhs == Converted(t.rhs)
  {
    var s := FromTree(t);
    assert s == Intermediate(FromTree(t.lhs), t.op, FromTree(t.rhs));
    assert Converted(t.lhs) == if s.lhs.Intermediate? then Convert(s.lhs) else s.lhs;
    assert Converted(t.rhs) == if s.rhs.Intermediate? then Convert(s.rhs) else s.rhs;
  }

  lemma {:induction false} ConvertedReads<B>(t: Tree<Spec<B>, Operator>)
    requires GrammarList(Tokens(t), LastAtom(t))
    ensures Finished(Converted(t))
    ensures Bracketing(Converted(t), Tokens(t), LastAtom(t))
  {
    if t.Node? {
      var vec, k := Tokens(t), |Tokens(t.lhs)|;
      GrammarListOfNode(t);
      ConvertedNode(t);
      ConvertedReads(t.lhs);
      ConvertedReads(t.rhs);
      assert vec[..k] == Tokens(t.lhs) && vec[k + 1..] == Tokens(t.rhs);
      assert vec[k] == Token(LastAtom(t.lhs), t.op);
    }
  }

  /** Parsing loses and invents nothing, and no intermediate node survives. */
  lemma ParseSpecKeepsSource<B>(vec: seq<Token<Spec<B>, Operator>>, last: Spec<B>)
    requires |vec| >= 1 && GrammarList(vec, last)
    ensures Finished(ParseSpec(vec, last))
    ensures Bracketing(ParseSpec(vec, last), vec, last)
  {
    ParseReadsSource(OperatorPrecedence, vec, last);
    ConvertedReads(Parse(OperatorPrecedence, vec, last));
  }

  // ---------------------------------------------------------------- the grouping is the intended one, or not

  function SpecSize<B>(s: Spec<B>): nat {
    match s
    case Basic(_) => 1
    case Boolean(l, _, r) => SpecSize(l) + 1 + SpecSize(r)
    case TemporalUnary(x, _, _, _) => 1 + SpecSize(x)
    case TemporalBinary(l, r, _, _, _) => SpecSize(l) + 1 + SpecSize(r)
    case Intermediate(l, _, r) => SpecSize(l) + 1 + SpecSize(r)
  }

  function ListSize<B>(vec: seq<Token<Spec<B>, Operator>>): nat {
    if vec == [] then 0 else SpecSize(vec[0].operand) + 1 + ListSize(vec[1..])
  }

  lemma {:induction false} ListSizeAppend<B>(v: seq<Token<Spec<B>, Operator>>, w: seq<Token<Spec<B>, Operator>>)
    ensures ListSize(v + w) == ListSize(v) + ListSize(w)
    decreases |v|
  {
    if v == [] {
      assert v + w == w;
    } else {
      assert (v + w)[1..] == v[1..] + w;
      ListSizeAppend(v[1..], w);
    }
  }

  lemma {:induction false} ConvertedSize<B>(t: Tree<Spec<B>, Operator>)
    requires GrammarList(Tokens(t), LastAtom(t))
    ensures SpecSize(Converted(t)) == ListSize(Tokens(t)) + SpecSize(LastAtom(t))
  {
    if t.Node? {
      GrammarListOfNode(t);
      ConvertedNode(t);
      ConvertedSize(t.lhs);
      ConvertedSize(t.rhs);
      var root := [Token(LastAtom(t.lhs), t.op)];
      ListSizeAppend(Tokens(t.lhs) + root, Tokens(t.rhs));
      ListSizeAppend(Tokens(t.lhs), root);
    }
  }

  /** Groupings of the same list that convert to the same spec are the same grouping. */
  lemma {:induction false} ConvertedIsInjective<B>(t: Tree<Spec<B>, Operator>, u: Tree<Spec<B>, Operator>)
    requires Tokens(t) == Tokens(u) && LastAtom(t) == LastAtom(u)
    requires GrammarList(Tokens(t), LastAtom(t))
    requires Converted(t) == Converted(u)
    ensures t == u
  {
    if t.Node? && u.Node? {
      GrammarListOfNode(t);
      ConvertedNode(t);
      GrammarListOfNode(u);
      ConvertedNode(u);
      SameSplit(t, u);
      var vec, k := Tokens(t), |Tokens(t.lhs)|;
      assert Tokens(t.lhs) == vec[..k] == Tokens(u.lhs);
      assert Tokens(t.rhs) == vec[k + 1..] == Tokens(u.rhs);
      assert vec[k] == Token(LastAtom(t.lhs), t.op) == Token(LastAtom(u.lhs), u.op);
      ConvertedIsInjective(t.lhs, u.lhs);
      ConvertedIsInjective(t.rhs, u.rhs);
    }
  }

  lemma {:induction false} LeftSize<B>(t: Tree<Spec<B>, Operator>)
    requires t.Node? && GrammarList(Tokens(t), LastAtom(t))
    ensures var vec, k := Tokens(t), |Tokens(t.lhs)|;
      && k < |vec| && IsOperation(Converted(t))
      && SpecSize(Converted(t).lhs) == ListSize(vec[..k]) + SpecSize(vec[k].operand)
  {
    GrammarListOfNode(t);
    ConvertedNode(t);
    ConvertedSize(t.lhs);
    var vec, k := Tokens(t), |Tokens(t.lhs)|;
    assert Tokens(t.lhs) == vec[..k] && vec[k] == Token(LastAtom(t.lhs), t.op);
  }

  lemma {:induction false} SameSplit<B>(t: Tree<Spec<B>, Operator>, u: Tree<Spec<B>, Operator>)
    requires t.Node? && u.Node? && Tokens(t) == Tokens(u) && LastAtom(t) == LastAtom(u)
    requires GrammarList(Tokens(t), LastAtom(t))
    requires Converted(t) == Converted(u)
    ensures |Tokens(t.lhs)| == |Tokens(u.lhs)|
  {
    LeftSize(t);
    LeftSize(u);
    PrefixSizes(Tokens(t), |Tokens(t.lhs)|, |Tokens(u.lhs)|);
    PrefixSizes(Tokens(t), |Tokens(u.lhs)|, |Tokens(t.lhs)|);
  }

  lemma PrefixSizes<B>(vec: seq<Token<Spec<B>, Operator>>, i: nat, j: nat)
    requires i < |vec| && j < |vec|
    ensures i < j ==> ListSize(vec[..i]) + SpecSize(vec[i].operand) < ListSize(vec[..j])
  {
    if i < j {
      var middle := vec[i + 1..j];
      assert vec[..j] == vec[..i] + [vec[i]] + middle;
      ListSizeAppend(vec[..i] + [vec[i]], middle);
      ListSizeAppend(vec[..i], [vec[i]]);
      assert ListSize([vec[i]]) == SpecSize(vec[i].operand) + 1;
    }
  }

  /** Until and since bind weakest, then disjunction, then conjunction: met exactly without a valley. */
  lemma {:induction false} ParseSpecGroupsByPrecedence<B>(vec: seq<Token<Spec<B>, Operator>>, last: Spec<B>)
    requires |vec| >= 1 && GrammarList(vec, last)
    ensures ParseSpec(vec, last) == Convert(FromTree(Ideal(OperatorPrecedence, vec, last)))
       <==> NoValley(Precs(OperatorPrecedence, vec))
  {
    var t, ideal := Parse(OperatorPrecedence, vec, last), Ideal(OperatorPrecedence, vec, last);
    ParserIsCorrectIffNoValley(OperatorPrecedence, vec, last);
    ParseReadsSource(OperatorPrecedence, vec, last);
    IdealReadsSource(OperatorPrecedence, vec, last);
    if Converted(t) == Converted(ideal) {
      ConvertedIsInjective(t, ideal);
    }
  }

  // ---------------------------------------------------------------- the same by the names of the operators

  /** Conjunction binds tighter than everything else, and disjunction than until and since. */
  predicate BindsTighter(a: OpType, b: OpType) {
    || (a == AndOp && b != AndOp)
    || (a == OrOp && (b == UntilOp || b == SinceOp))
  }

  lemma TighterIffHigher(a: Operator, b: Operator)
    ensures BindsTighter(a.opType, b.opType) <==> OperatorPrecedence(a) > OperatorPrecedence(b)
  {
  }

  /** No operator stands between one that does not bind less tightly and one that binds more tightly. */
  predicate NoDip<B>(vec: seq<Token<B, Operator>>) {
    forall i :: 0 <= i && i + 2 < |vec| ==>
      BindsTighter(vec[i + 1].op.opType, vec[i].op.opType) || !BindsTighter(vec[i + 2].op.opType, vec[i + 1].op.opType)
  }

  lemma NoDipIffNoValley<B>(vec: seq<Token<B, Operator>>)
    ensures NoDip(vec) <==> NoValley(Precs(OperatorPrecedence, vec))
  {
    var ps := Precs(OperatorPrecedence, vec);
    forall a: Operator, b: Operator
      ensures BindsTighter(a.opType, b.opType) <==> OperatorPrecedence(a) > OperatorPrecedence(b)
    {
      TighterIffHigher(a, b);
    }
  }

  /** No child binds less tightly than its parent, nor a right one equally. */
  predicate Grouped<B>(t: Tree<B, Operator>) {
    match t
    case Leaf(_) => true
    case Node(l, op, r) =>
      && (l.Node? ==> !BindsTighter(op.opType, l.op.opType))
      && (r.Node? ==> BindsTighter(r.op.opType, op.opType))
      && Grouped(l) && Grouped(r)
  }

  lemma {:induction false} GroupedIffCorrect<B>(t: Tree<B, Operator>)
    ensures Grouped(t) <==> PrecedenceCorrect(OperatorPrecedence, t)
  {
    if t.Node? {
      GroupedIffCorrect(t.lhs);
      GroupedIffCorrect(t.rhs);
    }
  }

  /** A grouping of the list that converts to the spec. */
  predicate Groups<B(==)>(t: Tree<Spec<B>, Operator>, vec: seq<Token<Spec<B>, Operator>>, last: Spec<B>, s: Spec<B>) {
    t.Node? && Reads(t, vec, last) && Convert(FromTree(t)) == s
  }

  lemma ParseGroups<B>(vec: seq<Token<Spec<B>, Operator>>, last: Spec<B>)
    requires |vec| >= 1
    ensures Groups(Parse(OperatorPrecedence, vec, last), vec, last, ParseSpec(vec, last))
  {
    ParseReadsSource(OperatorPrecedence, vec, last);
  }

  lemma OnlyGrouping<B>(t: Tree<Spec<B>, Operator>, u: Tree<Spec<B>, Operator>,
                        vec: seq<Token<Spec<B>, Operator>>, last: Spec<B>, s: Spec<B>)
    requires GrammarList(vec, last) && Groups(t, vec, last, s) && Groups(u, vec, last, s)
    ensures t == u
  {
    ConvertedIsInjective(t, u);
  }

  lemma ParseIsGroupedIffNoDip<B>(vec: seq<Token<Spec<B>, Operator>>, last: Spec<B>)
    requires |vec| >= 1
    ensures Grouped(Parse(OperatorPrecedence, vec, last)) <==> NoDip(vec)
  {
    ParserIsCorrectIffNoValley(OperatorPrecedence, vec, last);
    NoDipIffNoValley(vec);
    GroupedIffCorrect(Parse(OperatorPrecedence, vec, last));
  }

  /** Whatever the operands are, the spec is grouped as the operators demand exactly if these have no dip. */
  lemma {:induction false} GroupedIffNoDip<B(!new)>(vec: seq<Token<Spec<B>, Operator>>, last: Spec<B>)
    requires |vec| >= 1 && GrammarList(vec, last)
    ensures (exists t :: Groups(t, vec, last, ParseSpec(vec, last)) && Grouped(t)) <==> NoDip(vec)
  {
    var s := ParseSpec(vec, last);
    ParseIsGroupedIffNoDip(vec, last);
    ParseGroups(vec, last);
    if u :| Groups(u, vec, last, s) && Grouped(u) {
      OnlyGrouping(Parse(OperatorPrecedence, vec, last), u, vec, last, s);
    }
  }

  /** Conjunctions consist of conjunctions and operands, disjunctions of no until or since; all lean to the left. */
  predicate WellGrouped<B>(s: Spec<B>) {
    match s
    case Boolean(l, AND, r) =>
      && (IsOperation(l) ==> l.Boolean? && l.boolOp == AND) && !IsOperation(r)
      && WellGrouped(l) && WellGrouped(r)
    case Boolean(l, OR, r) =>
      && !l.TemporalBinary? && (IsOperation(r) ==> r.Boolean? && r.boolOp == AND)
      && WellGrouped(l) && WellGrouped(r)
    case TemporalBinary(l, r, _, _, _) =>
      && !r.TemporalBinary?
      && WellGrouped(l) && WellGrouped(r)
    case _ => true
  }

  /** Operands that are not themselves operations. */
  predicate SimpleOperands<B>(vec: seq<Token<Spec<B>, Operator>>, last: Spec<B>) {
    && !IsOperation(last)
    && forall i :: 0 <= i < |vec| ==> !IsOperation(vec[i].operand)
  }

  lemma SimpleOperandsOfNode<B>(t: Tree<Spec<B>, Operator>)
    requires t.Node? && SimpleOperands(Tokens(t), LastAtom(t))
    ensures SimpleOperands(Tokens(t.lhs), LastAtom(t.lhs)) && SimpleOperands(Tokens(t.rhs), LastAtom(t.rhs))
  {
    var vec, k := Tokens(t), |Tokens(t.lhs)|;
    assert vec[k] == Token(LastAtom(t.lhs), t.op);
    forall i | 0 <= i < k ensures vec[i] == Tokens(t.lhs)[i] {}
    forall i | 0 <= i < |Tokens(t.rhs)| ensures Tokens(t.rhs)[i] == vec[k + 1 + i] {}
  }

  lemma ConvertedOperation<B>(t: Tree<Spec<B>, Operator>)
    requires GrammarList(Tokens(t), LastAtom(t)) && SimpleOperands(Tokens(t), LastAtom(t))
    ensures IsOperation(Converted(t)) <==> t.Node?
    ensures t.Node? ==> SourceOperator(Converted(t)) == t.op
  {
    if t.Node? {
      GrammarListOfNode(t);
      ConvertedNode(t);
    }
  }

  lemma {:induction false} WellGroupedIffGrouped<B>(t: Tree<Spec<B>, Operator>)
    requires GrammarList(Tokens(t), LastAtom(t)) && SimpleOperands(Tokens(t), LastAtom(t))
    ensures WellGrouped(Converted(t)) <==> Grouped(t)
  {
    if t.Node? {
      GrammarListOfNode(t);
      SimpleOperandsOfNode(t);
      ConvertedNode(t);
      ConvertedOperation(t.lhs);
      ConvertedOperation(t.rhs);
      WellGroupedIffGrouped(t.lhs);
      WellGroupedIffGrouped(t.rhs);
    }
  }

  /**
   * Over simple operands: no conjunction has a disjunction, until or since below it, no disjunction an
   * until or since, and equals associate to the left, exactly if the operators have no dip.
   */
  lemma {:induction false} WellGroupedIffNoDip<B>(vec: seq<Token<Spec<B>, Operator>>, last: Spec<B>)
    requires |vec| >= 1 && GrammarList(vec, last) && SimpleOperands(vec, last)
    ensures WellGrouped(ParseSpec(vec, last)) <==> NoDip(vec)
  {
    var t := Parse(OperatorPrecedence, vec, last);
    ParseReadsSource(OperatorPrecedence, vec, last);
    ParseIsGroupedIffNoDip(vec, last);
    WellGroupedIffGrouped(t);
  }

  function Applied<B>(l: Spec<B>, op: Operator, r: Spec<B>): Spec<B> {
    match op.opType
    case OrOp => Boolean(l, OR, r)
    case AndOp => Boolean(l, AND, r)
    case SinceOp => TemporalBinary(l, r, SINCE, op.lower, op.upper)
    case UntilOp => TemporalBinary(l, r, UNTIL, op.lower, op.upper)
  }

  lemma ConvertedApplies<B>(t: Tree<Spec<B>, Operator>)
    requires t.Node? && FromGrammar(t.op)
    requires t.lhs.Leaf? ==> Finished(t.lhs.atom)
    requires t.rhs.Leaf? ==> Finished(t.rhs.atom)
    ensures Converted(t) == Applied(Converted(t.lhs), t.op, Converted(t.rhs))
  {
    ConvertedNode(t);
  }

  lemma ParseOne<B>(x: Spec<B>, op: Operator, y: Spec<B>)
    requires Finished(x) && Finished(y) && FromGrammar(op)
    ensures ParseSpec([Token(x, op)], y) == Applied(x, op, y)
  {
    var t := Parse(OperatorPrecedence, [Token(x, op)], y);
    assert t == Node(Leaf(x), op, Leaf(y));
    ConvertedApplies(t);
  }

  lemma ParseTwo<B>(x: Spec<B>, p: Operator, y: Spec<B>, q: Operator, z: Spec<B>)
    requires Finished(x) && Finished(y) && Finished(z) && FromGrammar(p) && FromGrammar(q)
    ensures ParseSpec([Token(x, p), Token(y, q)], z)
         == if BindsTighter(q.opType, p.opType) then Applied(x, p, Applied(y, q, z))
            else Applied(Applied(x, p, y), q, z)
  {
    var t := Parse(OperatorPrecedence, [Token(x, p), Token(y, q)], z);
    ParsePair(OperatorPrecedence, Token(x, p), Token(y, q), z);
    ConvertedApplies(t);
    if t.lhs.Node? { ConvertedApplies(t.lhs); } else { ConvertedApplies(t.rhs); }
  }

  /** Over any operands, `x | y & z` is `x | (y & z)`, `x & y | z` is `(x & y) | z`, and equals lean to the left. */
  lemma BooleanPairs<B>(x: Spec<B>, y: Spec<B>, z: Spec<B>)
    requires Finished(x) && Finished(y) && Finished(z)
    ensures var or, and := MakeOperator(OrOp, None), MakeOperator(AndOp, None);
      && ParseSpec([Token(x, or), Token(y, and)], z) == Boolean(x, OR, Boolean(y, AND, z))
      && ParseSpec([Token(x, and), Token(y, or)], z) == Boolean(Boolean(x, AND, y), OR, z)
      && ParseSpec([Token(x, or), Token(y, or)], z) == Boolean(Boolean(x, OR, y), OR, z)
      && ParseSpec([Token(x, and), Token(y, and)], z) == Boolean(Boolean(x, AND, y), AND, z)
  {
    var or, and := MakeOperator(OrOp, None), MakeOperator(AndOp, None);
    ParseTwo(x, or, y, and, z);
    ParseTwo(x, and, y, or, z);
    ParseTwo(x, or, y, or, z);
    ParseTwo(x, and, y, and, z);
  }

  /** `x since y | z` is `x since (y | z)`, and `x | y since z` is `(x | y) since z`; likewise with `&`. */
  lemma SincePairs<B>(x: Spec<B>, y: Spec<B>, z: Spec<B>, lo: Duration, hi: Duration)
    requires Finished(x) && Finished(y) && Finished(z)
    ensures var or, and, since := MakeOperator(OrOp, None), MakeOperator(AndOp, None), Operator(SinceOp, lo, hi);
      && ParseSpec([Token(x, since), Token(y, or)], z) == TemporalBinary(x, Boolean(y, OR, z), SINCE, lo, hi)
      && ParseSpec([Token(x, or), Token(y, since)], z) == TemporalBinary(Boolean(x, OR, y), z, SINCE, lo, hi)
      && ParseSpec([Token(x, since), Token(y, and)], z) == TemporalBinary(x, Boolean(y, AND, z), SINCE, lo, hi)
      && ParseSpec([Token(x, and), Token(y, since)], z) == TemporalBinary(Boolean(x, AND, y), z, SINCE, lo, hi)
  {
    var or, and, since := MakeOperator(OrOp, None), MakeOperator(AndOp, None), Operator(SinceOp, lo, hi);
    ParseTwo(x, since, y, or, z);
    ParseTwo(x, or, y, since, z);
    ParseTwo(x, since, y, and, z);
    ParseTwo(x, and, y, since, z);
  }

  lemma UntilPairs<B>(x: Spec<B>, y: Spec<B>, z: Spec<B>, lo: Duration, hi: Duration)
    requires Finished(x) && Finished(y) && Finished(z)
    ensures var or, and, until := MakeOperator(OrOp, None), MakeOperator(AndOp, None), Operator(UntilOp, lo, hi);
      && ParseSpec([Token(x, until), Token(y, or)], z) == TemporalBinary(x, Boolean(y, OR, z), UNTIL, lo, hi)
      && ParseSpec([Token(x, or), Token(y, until)], z) == TemporalBinary(Boolean(x, OR, y), z, UNTIL, lo, hi)
      && ParseSpec([Token(x, until), Token(y, and)], z) == TemporalBinary(x, Boolean(y, AND, z), UNTIL, lo, hi)
      && ParseSpec([Token(x, and), Token(y, until)], z) == TemporalBinary(Boolean(x, AND, y), z, UNTIL, lo, hi)
  {
    var or, and, until := MakeOperator(OrOp, None), MakeOperator(AndOp, None), Operator(UntilOp, lo, hi);
    ParseTwo(x, until, y, or, z);
    ParseTwo(x, or, y, until, z);
    ParseTwo(x, until, y, and, z);
    ParseTwo(x, and, y, until, z);
  }

  /** Until and since bind equally, so `x since y until z` is `(x since y) until z`; each keeps its own bounds. */
  lemma TemporalPairs<B>(x: Spec<B>, y: Spec<B>, z: Spec<B>, lo: Duration, hi: Duration, lo2: Duration, hi2: Duration)
    requires Finished(x) && Finished(y) && Finished(z)
    ensures ParseSpec([Token(x, Operator(SinceOp, lo, hi)), Token(y, Operator(UntilOp, lo2, hi2))], z)
         == TemporalBinary(TemporalBinary(x, y, SINCE, lo, hi), z, UNTIL, lo2, hi2)
    ensures ParseSpec([Token(x, Operator(UntilOp, lo, hi)), Token(y, Operator(SinceOp, lo2, hi2))], z)
         == TemporalBinary(TemporalBinary(x, y, UNTIL, lo, hi), z, SINCE, lo2, hi2)
  {
    ParseTwo(x, Operator(SinceOp, lo, hi), y, Operator(UntilOp, lo2, hi2), z);
    ParseTwo(x, Operator(UntilOp, lo, hi), y, Operator(SinceOp, lo2, hi2), z);
  }
}
