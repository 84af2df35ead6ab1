/** What a whole constraint becomes: its left side names the actions, its right side what has to hold. */
module CompiledConstraints {
  import opened Golog
  import opened PlatformConstraints
  import opened TaptencConstraints
  import opened ConstraintMeaning
  import opened MergedMeaning
  import TaptencStrings

  /** The states before and the states at the witness of each since or until, left to right. */
  function LeftLeaves(s: StateSpec): seq<StateBasic> {
    match s
    case Boolean(l, _, r) => LeftLeaves(l) + LeftLeaves(r)
    case TemporalBinary(l, _, _, _, _) => Leaves(l)
    case _ => []
  }

  function RightLeaves(s: StateSpec): seq<StateBasic> {
    match s
    case Boolean(l, _, r) => RightLeaves(l) + RightLeaves(r)
    case TemporalBinary(_, r, _, _, _) => Leaves(r)
    case _ => []
  }

  lemma {:induction false} BinaryTargetsAreLeaves(s: StateSpec, id: string, acts: seq<ActionName>)
    requires CompileState(s, id, acts).Ok? && CompileState(s, id, acts).value.BinaryInfo?
    ensures var i := CompileState(s, id, acts).value;
      && i.id == id && i.activations == acts
      && i.specs == TargetSpecs(DefaultBounds, RightLeaves(s)) && i.preTargets == LeftLeaves(s)
  {
    if s.Boolean? {
      BinaryTargetsAreLeaves(s.lhs, id, acts);
      BinaryTargetsAreLeaves(s.rhs, id, acts);
    } else {
      SidesArePlain((x, t) => false, s, id, acts);
    }
  }

  lemma NotBoth(s: ActionSpec)
    requires Every(s, IsHook)
    ensures !IsChain(s)
  {
    ChainAcceptedIffDurings(s);
    assert IsHook(Disjuncts(s)[0]) && !IsAnyDuring(Disjuncts(s)[0]);
  }

  /**
   * An accepted during-constraint opens its chain with the starts and closes it with the ends of the
   * durings on its left side, paired in order, and demands the states on its right side in between.
   */
  lemma DuringConstraintsBecomeChains(c: Constraint, id: string)
    requires Compile(c, id).Ok? && Every(c.lhs, IsDuring)
    ensures var i := Compile(c, id).value;
      && i.ChainInfo? && i.id == id && i.icType == UntilChain
      && PairsLeaves(c.lhs, (i.activations, i.activationsEnd))
      && i.specsList == [TargetSpecs(DefaultBounds, Leaves(c.rhs))]
  {
    ChainAcceptedIffDurings(c.lhs);
    forall i | 0 <= i < |Disjuncts(c.lhs)| ensures IsAnyDuring(Disjuncts(c.lhs)[i]) {
      assert IsDuring(Disjuncts(c.lhs)[i]);
    }
    assert Every(c.lhs, IsAnyDuring);
    var names := CompileActionChain(c.lhs).value;
    ChainTargetsAreLeaves(c.rhs, id, names.0, names.1);
  }

  /**
   * An accepted hook-constraint is activated by its hooks, in order, and demands the states on its right
   * side, in order. A unary info means what the right side means. A binary one holds wherever the right
   * side does, and means the same exactly when that is covered.
   */
  lemma HookConstraintsMeanTheirRightSide(c: Constraint, id: string)
    requires Compile(c, id).Ok? && Every(c.lhs, IsHook)
    ensures var i := Compile(c, id).value; var ps := Parts(c.rhs);
      && WellTyped(i) && i.id == id && NamesHooks(c.lhs, i.activations)
      && (i.UnaryInfo? ==> i.specs.targets == Leaves(c.rhs) && Faithful(c.rhs, i))
      && (i.BinaryInfo? ==>
           && i.specs == TargetSpecs(DefaultBounds, RightLeaves(c.rhs)) && i.preTargets == LeftLeaves(c.rhs)
           && Weakens(c.rhs, i)
           && (Faithful(c.rhs, i) ==> Covered(ps))
           && (Complete() || Strict(ps) == {} || Pre(ps) * Post(ps) == {} ==> (Faithful(c.rhs, i) <==> Covered(ps))))
  {
    NotBoth(c.lhs);
    ActionsAcceptedIffHooks(c.lhs);
    var acts := CompileActions(c.lhs).value;
    var i := CompileState(c.rhs, id, acts).value;
    if i.UnaryInfo? {
      TargetsAreLeaves(c.rhs, id, acts);
      CompilePreservesMeaning(c.rhs, id, acts);
    } else {
      BinaryTargetsAreLeaves(c.rhs, id, acts);
      forall tr: Trace, t | Holds(tr, t, c.rhs) ensures InfoHolds(tr, t, i) {
        BinaryInfosOnlyWeaken(tr, t, c.rhs, id, acts);
      }
      DisjunctionIsFaithfulIffCovered(c.rhs, id, acts);
    }
  }

  ghost predicate Weakens(s: StateSpec, i: Info)
    requires WellTyped(i)
  {
    forall tr: Trace, t :: Holds(tr, t, s) ==> InfoHolds(tr, t, i)
  }

  /** Constraints are activated by the very names that plans are encoded with, whatever their arguments. */
  lemma ActivationsAreNamedAsInPlans<V>(c: Constraint, id: string, k: nat, t: Transition<V>, syms: seq<string>)
    requires Compile(c, id).Ok? && k < |Disjuncts(c.lhs)|
    ensures var d, i := Disjuncts(c.lhs)[k], Compile(c, id).value;
      && d.Basic? && |i.activations| == |Disjuncts(c.lhs)|
      && (i.ChainInfo? ==> |i.activationsEnd| == |Disjuncts(c.lhs)|)
      && (t.call.target.name == d.basic.action.name ==>
           var name := TaptencStrings.Encoded(t, syms).id;
           && (i.ChainInfo? && t.hook == START ==> i.activations[k].id == name)
           && (i.ChainInfo? && t.hook == END ==> i.activationsEnd[k].id == name)
           && (d.basic.ActionHook? && t.hook == d.basic.hook ==> i.activations[k].id == name))
  {
    ConstraintAccepted(c, id);
    if Every(c.lhs, IsDuring) {
      DuringConstraintsBecomeChains(c, id);
      assert IsDuring(Disjuncts(c.lhs)[k]);
    } else {
      HookConstraintsMeanTheirRightSide(c, id);
      assert IsHook(Disjuncts(c.lhs)[k]);
    }
  }
}
