/** Does the info that a state spec compiles to mean what the spec means? */
module ConstraintMeaning {
  import opened Golog
  import opened Precedence
  import opened PlatformConstraints
  import opened ConstraintParser
  import opened TaptencConstraints

  /** Which states hold when. */
  type Trace = (StateBasic, real) -> bool

  ghost predicate Within(lo: Duration, d: real, hi: Duration) {
    && (match lo case Lowest => true case Seconds(s) => s <= d case Highest => false)
    && (match hi case Lowest => false case Seconds(s) => d <= s case Highest => true)
  }

  /** Metric temporal logic over a trace; next and previous have no meaning in real time. */
  ghost predicate Holds(tr: Trace, t: real, s: StateSpec)
    decreases s
  {
    match s
    case Basic(b) => tr(b, t)
    case Boolean(l, OR, r) => Holds(tr, t, l) || Holds(tr, t, r)
    case Boolean(l, AND, r) => Holds(tr, t, l) && Holds(tr, t, r)
    case TemporalUnary(x, FUTURE, lo, hi) => exists u :: u >= t && Within(lo, u - t, hi) && Holds(tr, u, x)
    case TemporalUnary(x, PAST, lo, hi) => exists u :: u <= t && Within(lo, t - u, hi) && Holds(tr, u, x)
    case TemporalUnary(_, _, _, _) => false
    case TemporalBinary(l, r, SINCE, lo, hi) =>
      exists u :: u <= t && Within(lo, t - u, hi) && Holds(tr, u, r) && forall v :: u < v <= t ==> Holds(tr, v, l)
    case TemporalBinary(l, r, UNTIL, lo, hi) =>
      exists u :: u >= t && Within(lo, u - t, hi) && Holds(tr, u, r) && forall v :: t <= v < u ==> Holds(tr, v, l)
    case Intermediate(_, _, _) => false
  }

  /** How far u lies before or after t, within bounds either of which may be missing. */
  predicate Between(lo: Option<real>, d: real, hi: Option<real>) {
    (lo.Some? ==> lo.value <= d) && (hi.Some? ==> d <= hi.value)
  }

  /** From the written bounds to the meaning: the first is the least distance and the second the greatest. */
  lemma ParsedBoundsMean(tr: Trace, t: real, a: StateBasic, b: StateBasic, lo: Option<real>, hi: Option<real>)
    ensures var since := ParseSpec([Token(Basic(a), MakeOperator(SinceOp, Some((lo, hi))))], Basic(b));
      Holds(tr, t, since) <==>
        exists u :: u <= t && Between(lo, t - u, hi) && tr(b, u) && forall v :: u < v <= t ==> tr(a, v)
    ensures var until := ParseSpec([Token(Basic(a), MakeOperator(UntilOp, Some((lo, hi))))], Basic(b));
      Holds(tr, t, until) <==>
        exists u :: u >= t && Between(lo, u - t, hi) && tr(b, u) && forall v :: t <= v < u ==> tr(a, v)
    ensures ParseSpec([Token(Basic(a), MakeOperator(SinceOp, None))], Basic(b))
         == ParseSpec([Token(Basic(a), MakeOperator(SinceOp, Some((None, None))))], Basic(b))
    ensures ParseSpec([Token(Basic(a), MakeOperator(UntilOp, None))], Basic(b))
         == ParseSpec([Token(Basic(a), MakeOperator(UntilOp, Some((None, None))))], Basic(b))
  {
    var low, high := if lo.Some? then Seconds(lo.value) else Lowest, if hi.Some? then Seconds(hi.value) else Highest;
    assert forall d :: Within(low, d, high) <==> Between(lo, d, hi);
    assert forall u :: Holds(tr, u, Basic(a)) <==> tr(a, u);
    assert forall u :: Holds(tr, u, Basic(b)) <==> tr(b, u);
    ParseOne(Basic(a), MakeOperator(SinceOp, Some((lo, hi))), Basic(b));
    ParseOne(Basic(a), MakeOperator(UntilOp, Some((lo, hi))), Basic(b));
  }

  ghost predicate SomeTarget(tr: Trace, t: real, targets: seq<StateBasic>) {
    exists i :: 0 <= i < |targets| && tr(targets[i], t)
  }

  ghost predicate InBounds(b: Bounds, d: real) {
    match b
    case DefaultBounds => true
    case Bounds(lo, hi) => Within(lo, d, hi)
  }

  /** One of the targets holds, within the shared bounds of the info. */
  ghost predicate InfoHolds(tr: Trace, t: real, i: Info)
    requires WellTyped(i)
  {
    match i.icType
    case NoOp => SomeTarget(tr, t, i.specs.targets)
    case Future => exists u :: u >= t && InBounds(i.specs.bounds, u - t) && SomeTarget(tr, u, i.specs.targets)
    case Past => exists u :: u <= t && InBounds(i.specs.bounds, t - u) && SomeTarget(tr, u, i.specs.targets)
    case Since =>
      exists u :: u <= t && InBounds(i.specs.bounds, t - u) && SomeTarget(tr, u, i.specs.targets)
        && forall v :: u < v <= t ==> SomeTarget(tr, v, i.preTargets)
    case Until =>
      exists u :: u >= t && InBounds(i.specs.bounds, u - t) && SomeTarget(tr, u, i.specs.targets)
        && forall v :: t <= v < u ==> SomeTarget(tr, v, i.preTargets)
    case _ => false
  }

  /** The state assertions of a spec, left to right. */
  function Leaves(s: StateSpec): seq<StateBasic> {
    match s
    case Basic(b) => [b]
    case Boolean(l, _, r) => Leaves(l) + Leaves(r)
    case TemporalUnary(x, _, _, _) => Leaves(x)
    case TemporalBinary(l, r, _, _, _) => Leaves(l) + Leaves(r)
    case Intermediate(l, _, r) => Leaves(l) + Leaves(r)
  }

  lemma SomeTargetOfBoth(tr: Trace, t: real, a: seq<StateBasic>, b: seq<StateBasic>)
    ensures SomeTarget(tr, t, a + b) <==> SomeTarget(tr, t, a) || SomeTarget(tr, t, b)
  {
    if i :| 0 <= i < |a| && tr(a[i], t) { assert tr((a + b)[i], t); }
    if i :| 0 <= i < |b| && tr(b[i], t) { assert tr((a + b)[|a| + i], t); }
    if i :| 0 <= i < |a + b| && tr((a + b)[i], t) {
      if i < |a| { assert tr(a[i], t); } else { assert tr(b[i - |a|], t); }
    }
  }

  // ---------------------------------------------------------------- unary infos are faithful

  /** The target list is the left-to-right list of the spec's state assertions. */
  lemma {:induction false} TargetsAreLeaves(s: StateSpec, id: string, acts: seq<ActionName>)
    requires CompileState(s, id, acts).Ok? && CompileState(s, id, acts).value.UnaryInfo?
    ensures CompileState(s, id, acts).value.specs.targets == Leaves(s)
    ensures CompileState(s, id, acts).value.id == id && CompileState(s, id, acts).value.activations == acts
  {
    match s {
      case Basic(_) =>
      case Boolean(l, _, r) =>
        TargetsAreLeaves(l, id, acts);
        TargetsAreLeaves(r, id, acts);
      case TemporalUnary(x, _, _, _) =>
        TargetsAreLeaves(x, id, acts);
      case _ =>
    }
  }

  /** An accepted during-constraint keeps all of its state assertions, in order, in a single target list. */
  lemma {:induction false} ChainTargetsAreLeaves(s: StateSpec, id: string, acts: seq<ActionName>, ends: seq<ActionName>)
    requires CompileStateChain(s, id, acts, ends).Ok?
    ensures CompileStateChain(s, id, acts, ends).value
         == ChainInfo(id, UntilChain, acts, [TargetSpecs(DefaultBounds, Leaves(s))], ends)
  {
    if s.Boolean? {
      TargetsAreLeaves(s.lhs, id, acts);
      TargetsAreLeaves(s.rhs, id, acts);
      StateAcceptedIffUniform(s.lhs, id, acts);
    }
  }

  ghost predicate Faithful(s: StateSpec, i: Info)
    requires WellTyped(i)
  {
    forall tr: Trace, t :: Holds(tr, t, s) <==> InfoHolds(tr, t, i)
  }

  lemma DisjunctionIsFaithful(tr: Trace, t: real, s: StateSpec, id: string, acts: seq<ActionName>)
    requires s.Boolean? && s.boolOp == OR
    requires CompileState(s, id, acts).Ok? && CompileState(s, id, acts).value.UnaryInfo?
    requires Faithful(s.lhs, CompileState(s.lhs, id, acts).value)
    requires Faithful(s.rhs, CompileState(s.rhs, id, acts).value)
    ensures Holds(tr, t, s) <==> InfoHolds(tr, t, CompileState(s, id, acts).value)
  {
    var a, b := CompileState(s.lhs, id, acts).value.specs.targets, CompileState(s.rhs, id, acts).value.specs.targets;
    assert CompileState(s, id, acts).value.specs.targets == a + b;
    forall u ensures SomeTarget(tr, u, a + b) <==> SomeTarget(tr, u, a) || SomeTarget(tr, u, b) {
      SomeTargetOfBoth(tr, u, a, b);
    }
    assert Holds(tr, t, s.lhs) <==> InfoHolds(tr, t, CompileState(s.lhs, id, acts).value);
    assert Holds(tr, t, s.rhs) <==> InfoHolds(tr, t, CompileState(s.rhs, id, acts).value);
  }

  lemma UnaryIsFaithful(tr: Trace, t: real, s: StateSpec, id: string, acts: seq<ActionName>)
    requires s.TemporalUnary? && CompileState(s, id, acts).Ok?
    requires Faithful(s.subject, CompileState(s.subject, id, acts).value)
    ensures Holds(tr, t, s) <==> InfoHolds(tr, t, CompileState(s, id, acts).value)
  {
    var i, x := CompileState(s, id, acts).value, CompileState(s.subject, id, acts).value;
    forall u ensures Holds(tr, u, s.subject) <==> SomeTarget(tr, u, i.specs.targets) {
      assert Holds(tr, u, s.subject) <==> InfoHolds(tr, u, x);
    }
  }

  /** For plain, future and past specs the info means exactly what the spec means, on every trace. */
  lemma {:induction false} CompilePreservesMeaning(s: StateSpec, id: string, acts: seq<ActionName>)
    requires CompileState(s, id, acts).Ok? && CompileState(s, id, acts).value.UnaryInfo?
    ensures Faithful(s, CompileState(s, id, acts).value)
  {
    var i := CompileState(s, id, acts).value;
    match s {
      case Basic(b) =>
        forall tr: Trace, t ensures Holds(tr, t, s) <==> InfoHolds(tr, t, i) {
          assert i.specs.targets[0] == b;
        }
      case Boolean(l, _, r) =>
        CompilePreservesMeaning(l, id, acts);
        CompilePreservesMeaning(r, id, acts);
        forall tr: Trace, t ensures Holds(tr, t, s) <==> InfoHolds(tr, t, i) {
          DisjunctionIsFaithful(tr, t, s, id, acts);
        }
      case TemporalUnary(x, _, _, _) =>
        CompilePreservesMeaning(x, id, acts);
        forall tr: Trace, t ensures Holds(tr, t, s) <==> InfoHolds(tr, t, i) {
          UnaryIsFaithful(tr, t, s, id, acts);
        }
      case _ =>
    }
  }

  // ---------------------------------------------------------------- binary infos are not

  ghost predicate Vacuous(lo: Duration, hi: Duration) {
    forall d :: d >= 0.0 ==> Within(lo, d, hi)
  }

  /** Both sides of an accepted since or until are disjunctions of state assertions. */
  lemma SidesArePlain(tr: Trace, s: StateSpec, id: string, acts: seq<ActionName>)
    requires s.TemporalBinary? && CompileState(s, id, acts).Ok?
    ensures CompileState(s, id, acts).value.specs == TargetSpecs(DefaultBounds, Leaves(s.rhs))
    ensures CompileState(s, id, acts).value.preTargets == Leaves(s.lhs)
    ensures Leaves(s.rhs) != []
    ensures forall u :: Holds(tr, u, s.lhs) <==> SomeTarget(tr, u, Leaves(s.lhs))
    ensures forall u :: Holds(tr, u, s.rhs) <==> SomeTarget(tr, u, Leaves(s.rhs))
  {
    var l, r := CompileState(s.lhs, id, acts).value, CompileState(s.rhs, id, acts).value;
    CompilePreservesMeaning(s.lhs, id, acts);
    CompilePreservesMeaning(s.rhs, id, acts);
    TargetsAreLeaves(s.lhs, id, acts);
    TargetsAreLeaves(s.rhs, id, acts);
    StateAcceptedIffUniform(s.rhs, id, acts);
    SomeLeaf(s.rhs);
    forall u
      ensures Holds(tr, u, s.lhs) <==> SomeTarget(tr, u, Leaves(s.lhs))
      ensures Holds(tr, u, s.rhs) <==> SomeTarget(tr, u, Leaves(s.rhs))
    {
      assert Holds(tr, u, s.lhs) <==> InfoHolds(tr, u, l);
      assert Holds(tr, u, s.rhs) <==> InfoHolds(tr, u, r);
    }
  }

  lemma SomeLeaf(s: StateSpec)
    ensures Leaves(s) != []
  {
  }

  /** A single since or until without effective bounds keeps its meaning. */
  lemma UnboundedBinaryIsFaithful(s: StateSpec, id: string, acts: seq<ActionName>)
    requires s.TemporalBinary? && CompileState(s, id, acts).Ok?
    requires Vacuous(s.lower, s.upper)
    ensures Faithful(s, CompileState(s, id, acts).value)
  {
    var i := CompileState(s, id, acts).value;
    forall tr: Trace, t ensures Holds(tr, t, s) <==> InfoHolds(tr, t, i) {
      SidesArePlain(tr, s, id, acts);
      assert forall d :: d >= 0.0 ==> Within(s.lower, d, s.upper);
    }
  }

  predicate Subset(xs: seq<StateBasic>, ys: seq<StateBasic>) {
    forall x <- xs :: x in ys
  }

  /** If every left state is also a right one, then so is what holds now; only a distance of 0 is needed. */
  lemma NowIsEnough(s: StateSpec, id: string, acts: seq<ActionName>)
    requires s.TemporalBinary? && CompileState(s, id, acts).Ok?
    requires Subset(Leaves(s.lhs), Leaves(s.rhs)) && Within(s.lower, 0.0, s.upper)
    ensures Faithful(s, CompileState(s, id, acts).value)
  {
    var i := CompileState(s, id, acts).value;
    forall tr: Trace, t ensures Holds(tr, t, s) <==> InfoHolds(tr, t, i) {
      SidesArePlain(tr, s, id, acts);
      if SomeTarget(tr, t, Leaves(s.lhs)) {
        var k :| 0 <= k < |Leaves(s.lhs)| && tr(Leaves(s.lhs)[k], t);
        assert Leaves(s.lhs)[k] in Leaves(s.rhs);
      }
      if SomeTarget(tr, t, Leaves(s.rhs)) { assert t - t == 0.0 && Holds(tr, t, s); }
    }
  }

  /** Let nothing hold but at distance 0, which the bounds exclude. */
  lemma NowIsNeeded(s: StateSpec, id: string, acts: seq<ActionName>)
    requires s.TemporalBinary? && CompileState(s, id, acts).Ok?
    requires !Within(s.lower, 0.0, s.upper)
    ensures !Faithful(s, CompileState(s, id, acts).value)
  {
    var i := CompileState(s, id, acts).value;
    var tr: Trace := (x: StateBasic, t: real) => t == 0.0;
    SidesArePlain(tr, s, id, acts);
    assert SomeTarget(tr, 0.0, i.specs.targets) by { assert tr(Leaves(s.rhs)[0], 0.0); }
    assert InfoHolds(tr, 0.0, i);
    forall u | Holds(tr, u, s.rhs) ensures u == 0.0 {}
    assert !Holds(tr, 0.0, s);
  }

  /** Let a state that is no target hold always, and the right side only at a distance that is excluded. */
  lemma BoundedBinaryIsUnfaithful(s: StateSpec, id: string, acts: seq<ActionName>)
    requires s.TemporalBinary? && CompileState(s, id, acts).Ok?
    requires !Vacuous(s.lower, s.upper) && !Subset(Leaves(s.lhs), Leaves(s.rhs))
    ensures !Faithful(s, CompileState(s, id, acts).value)
  {
    var i := CompileState(s, id, acts).value;
    var d :| d >= 0.0 && !Within(s.lower, d, s.upper);
    var at := if s.binaryOp == SINCE then -d else d;
    var left, right := Leaves(s.lhs), Leaves(s.rhs);
    var k :| 0 <= k < |left| && left[k] !in right;
    var tr: Trace := (x: StateBasic, t: real) => x !in right || t == at;
    SidesArePlain(tr, s, id, acts);
    assert SomeTarget(tr, at, i.specs.targets) by { assert tr(right[0], at); }
    forall v ensures SomeTarget(tr, v, i.preTargets) {
      assert tr(i.preTargets[k], v);
    }
    assert InfoHolds(tr, 0.0, i);
    forall u | Holds(tr, u, s.rhs) ensures u == at {}
    assert !Holds(tr, 0.0, s);
  }

  /**
   * A since or until keeps its meaning exactly when its bounds exclude nothing or, if every left state
   * is also a right one, when they do not exclude the present.
   */
  lemma BinaryIsFaithfulIff(s: StateSpec, id: string, acts: seq<ActionName>)
    requires s.TemporalBinary? && CompileState(s, id, acts).Ok?
    ensures Faithful(s, CompileState(s, id, acts).value) <==>
            if Subset(Leaves(s.lhs), Leaves(s.rhs)) then Within(s.lower, 0.0, s.upper) else Vacuous(s.lower, s.upper)
  {
    if Subset(Leaves(s.lhs), Leaves(s.rhs)) {
      if Within(s.lower, 0.0, s.upper) { NowIsEnough(s, id, acts); } else { NowIsNeeded(s, id, acts); }
    } else if Vacuous(s.lower, s.upper) {
      UnboundedBinaryIsFaithful(s, id, acts);
    } else {
      BoundedBinaryIsUnfaithful(s, id, acts);
    }
  }

  function SinceSpec(a: StateBasic, b: StateBasic, lo: real, hi: real): StateSpec {
    TemporalBinary(Basic(a), Basic(b), SINCE, Seconds(lo), Seconds(hi))
  }

  /**
   * The bounds of a since are dropped, so two specs of different meaning compile to the same info:
   * however infos are interpreted, the interpretation is wrong about one of the two.
   */
  lemma NoMeaningFitsBoundedSince(meaning: (Info, Trace, real) -> bool, a: StateBasic, b: StateBasic,
                                  id: string, acts: seq<ActionName>)
    requires a != b
    ensures exists s: StateSpec, tr: Trace, t: real ::
      && CompileState(s, id, acts).Ok?
      && Holds(tr, t, s) != meaning(CompileState(s, id, acts).value, tr, t)
  {
    var near, far := SinceSpec(a, b, 0.0, 1.0), SinceSpec(a, b, 5.0, 6.0);
    var tr: Trace := (x: StateBasic, t: real) => if x == b then t == -5.0 else true;
    assert CompileState(Basic(a), id, acts).Ok? && CompileState(Basic(b), id, acts).Ok?;
    assert CompileState(near, id, acts).Ok? && CompileState(near, id, acts) == CompileState(far, id, acts);
    assert Holds(tr, 0.0, far) by {
      assert Within(Seconds(5.0), 0.0 - (-5.0), Seconds(6.0)) && Holds(tr, -5.0, Basic(b));
      assert forall v :: -5.0 < v <= 0.0 ==> Holds(tr, v, Basic(a));
    }
    assert !Holds(tr, 0.0, near);
    var info := CompileState(near, id, acts).value;
    assert Holds(tr, 0.0, near) != meaning(info, tr, 0.0) || Holds(tr, 0.0, far) != meaning(info, tr, 0.0);
  }

  lemma CompileSince(a: StateBasic, b: StateBasic, id: string, acts: seq<ActionName>)
    ensures CompileState(TemporalBinary(Basic(a), Basic(b), SINCE, Lowest, Highest), id, acts)
         == Ok(BinaryInfo(id, Since, acts, TargetSpecs(DefaultBounds, [b]), [a]))
  {
    assert CompileState(Basic(a), id, acts) == Ok(UnaryInfo(id, NoOp, acts, TargetSpecs(DefaultBounds, [a])));
    assert CompileState(Basic(b), id, acts) == Ok(UnaryInfo(id, NoOp, acts, TargetSpecs(DefaultBounds, [b])));
  }

  /** Merging two sinces forgets which right side belongs to which left side. */
  lemma MergedSincesAreConfused(a: StateBasic, b: StateBasic, c: StateBasic, d: StateBasic,
                                id: string, acts: seq<ActionName>)
    requires a != b && a != c && a != d && b != c && b != d && c != d
    ensures var pairs := Boolean(TemporalBinary(Basic(a), Basic(b), SINCE, Lowest, Highest), OR,
                                 TemporalBinary(Basic(c), Basic(d), SINCE, Lowest, Highest));
      && CompileState(pairs, id, acts).Ok?
      && !Faithful(pairs, CompileState(pairs, id, acts).value)
  {
    var first := TemporalBinary(Basic(a), Basic(b), SINCE, Lowest, Highest);
    var second := TemporalBinary(Basic(c), Basic(d), SINCE, Lowest, Highest);
    var pairs := Boolean(first, OR, second);
    CompileSince(a, b, id, acts);
    CompileSince(c, d, id, acts);
    var info := CompileState(pairs, id, acts).value;
    assert info.specs.targets == [b, d] && info.preTargets == [a, c];
    // b held a second ago and c has held since then, which satisfies neither of the two specs.
    var tr: Trace := (x: StateBasic, t: real) => if x == b then t == -1.0 else x == c;
    assert InfoHolds(tr, 0.0, info) by {
      assert SomeTarget(tr, -1.0, info.specs.targets) by { assert tr(info.specs.targets[0], -1.0); }
      forall v | -1.0 < v <= 0.0 ensures SomeTarget(tr, v, info.preTargets) { assert tr(info.preTargets[1], v); }
    }
    assert !Holds(tr, 0.0, first) by {
      forall u | u <= 0.0 && Holds(tr, u, Basic(b)) ensures !Holds(tr, 0.0, Basic(a)) && u < 0.0 {}
    }
    assert !Holds(tr, 0.0, second);
    assert !Holds(tr, 0.0, pairs);
  }
}
