/** Compiles platform constraints to interconnection infos for the timed-automata encoder. */
module TaptencConstraints {
  import opened Golog
  import opened PlatformConstraints

  /** An action argument in a constraint: the wildcard, or anything else. */
  datatype Argument = Wildcard | Given(value: string)

  datatype ActionRef = ActionRef(name: string, args: seq<Argument>)

  datatype ActionBasic = ActionHook(hook: Hook, action: ActionRef) | During(action: ActionRef)
  datatype StateBasic = StateAssertion(component: string, state: string)

  type ActionSpec = Spec<ActionBasic>
  type StateSpec = Spec<StateBasic>

  datatype Constraint = Constraint(lhs: ActionSpec, rhs: StateSpec)

  // ---------------------------------------------------------------- the encoder's side

  /** Symbolic arguments are numbered placeholders. */
  datatype ActionName = ActionName(id: string, arity: nat)

  datatype ICType = NoOp | Future | Past | Since | Until | UntilChain

  datatype Bounds = DefaultBounds | Bounds(lower: Duration, upper: Duration)

  datatype TargetSpecs = TargetSpecs(bounds: Bounds, targets: seq<StateBasic>)

  datatype Info =
    | UnaryInfo(id: string, icType: ICType, activations: seq<ActionName>, specs: TargetSpecs)
    | BinaryInfo(id: string, icType: ICType, activations: seq<ActionName>, specs: TargetSpecs,
                 preTargets: seq<StateBasic>)
    | ChainInfo(id: string, icType: ICType, activations: seq<ActionName>, specsList: seq<TargetSpecs>,
                activationsEnd: seq<ActionName>)

  /** Everything the compiler rejects raises the same exception. */
  datatype Result<+T> = Ok(value: T) | Unsupported {
    predicate IsFailure() { Unsupported? }
    function PropagateFailure<U>(): Result<U>
      requires Unsupported?
    {
      Unsupported
    }
    function Extract(): T
      requires Ok?
    {
      value
    }
  }

  // ---------------------------------------------------------------- left-hand sides

  predicate AllWildcards(a: ActionRef) {
    forall i :: 0 <= i < |a.args| ==> a.args[i] == Wildcard
  }

  predicate IsChain(s: ActionSpec) {
    match s
    case Boolean(l, op, r) => op == OR && IsChain(l) && IsChain(r)
    case Basic(b) => b.During?
    case _ => false
  }

  /** Temporal operators on action specs are rejected when their semantics are constructed. */
  function CompileActions(s: ActionSpec): Result<seq<ActionName>> {
    match s
    case Basic(ActionHook(hook, a)) =>
      if AllWildcards(a) then Ok([ActionName(HookName(hook) + "G" + a.name, |a.args|)]) else Unsupported
    case Basic(During(_)) => Unsupported
    case Boolean(l, op, r) =>
      if op != OR then Unsupported
      else
        var lhs :- CompileActions(l);
        var rhs :- CompileActions(r);
        Ok(lhs + rhs)
    case _ => Unsupported
  }

  function CompileActionChain(s: ActionSpec): Result<(seq<ActionName>, seq<ActionName>)> {
    match s
    case Basic(ActionHook(_, _)) => Unsupported
    case Basic(During(a)) =>
      if AllWildcards(a) then
        Ok(([ActionName("start" + "G" + a.name, |a.args|)], [ActionName("end" + "G" + a.name, |a.args|)]))
      else Unsupported
    case Boolean(l, op, r) =>
      if op != OR then Unsupported
      else
        var (lhs, lhsEnd) :- CompileActionChain(l);
        var (rhs, rhsEnd) :- CompileActionChain(r);
        Ok((lhs + rhs, lhsEnd + rhsEnd))
    case _ => Unsupported
  }

  /** The operands of a (possibly trivial) disjunction, left to right. */
  function Disjuncts<B>(s: Spec<B>): (ds: seq<Spec<B>>)
    ensures |ds| >= 1
  {
    match s
    case Boolean(l, OR, r) => Disjuncts(l) + Disjuncts(r)
    case _ => [s]
  }

  ghost predicate Every<B>(s: Spec<B>, p: Spec<B> -> bool) {
    forall i :: 0 <= i < |Disjuncts(s)| ==> p(Disjuncts(s)[i])
  }

  lemma EverySplits<B>(s: Spec<B>, p: Spec<B> -> bool)
    requires s.Boolean? && s.boolOp == OR
    ensures Every(s, p) <==> Every(s.lhs, p) && Every(s.rhs, p)
  {
    var ds, ls, rs := Disjuncts(s), Disjuncts(s.lhs), Disjuncts(s.rhs);
    assert ds == ls + rs;
    assert forall i :: 0 <= i < |ls| ==> ls[i] == ds[i];
    assert forall i :: 0 <= i < |rs| ==> rs[i] == ds[|ls| + i];
  }

  predicate IsHook(s: ActionSpec) { s.Basic? && s.basic.ActionHook? && AllWildcards(s.basic.action) }
  predicate IsDuring(s: ActionSpec) { s.Basic? && s.basic.During? && AllWildcards(s.basic.action) }
  predicate IsAnyDuring(s: ActionSpec) { s.Basic? && s.basic.During? }

  /** Start and end names of the i-th leaf stand at position i of the two result lists. */
  ghost predicate PairsLeaves(s: ActionSpec, names: (seq<ActionName>, seq<ActionName>)) {
    var ds := Disjuncts(s);
    && |names.0| == |names.1| == |ds|
    && forall i :: 0 <= i < |ds| ==>
      && IsDuring(ds[i])
      && names.0[i] == ActionName("startG" + ds[i].basic.action.name, |ds[i].basic.action.args|)
      && names.1[i] == ActionName("endG" + ds[i].basic.action.name, |ds[i].basic.action.args|)
  }

  ghost predicate NamesHooks(s: ActionSpec, names: seq<ActionName>) {
    var ds := Disjuncts(s);
    && |names| == |ds|
    && forall i :: 0 <= i < |ds| ==>
      && IsHook(ds[i])
      && names[i] == ActionName(HookName(ds[i].basic.hook) + "G" + ds[i].basic.action.name, |ds[i].basic.action.args|)
  }

  lemma {:induction false} ActionsAcceptedIffHooks(s: ActionSpec)
    ensures CompileActions(s).Ok? <==> Every(s, IsHook)
    ensures CompileActions(s).Ok? ==> NamesHooks(s, CompileActions(s).value)
  {
    if s.Boolean? && s.boolOp == OR {
      ActionsAcceptedIffHooks(s.lhs);
      ActionsAcceptedIffHooks(s.rhs);
      EverySplits(s, IsHook);
      assert Disjuncts(s) == Disjuncts(s.lhs) + Disjuncts(s.rhs);
    } else {
      assert Disjuncts(s) == [s];
      assert IsHook(s) <==> IsHook(Disjuncts(s)[0]);
    }
  }

  lemma {:induction false} ChainAcceptedIffDurings(s: ActionSpec)
    ensures CompileActionChain(s).Ok? <==> Every(s, IsDuring)
    ensures IsChain(s) <==> Every(s, IsAnyDuring)
    ensures CompileActionChain(s).Ok? ==> PairsLeaves(s, CompileActionChain(s).value)
  {
    if s.Boolean? && s.boolOp == OR {
      ChainAcceptedIffDurings(s.lhs);
      ChainAcceptedIffDurings(s.rhs);
      EverySplits(s, IsDuring);
      EverySplits(s, IsAnyDuring);
      assert Disjuncts(s) == Disjuncts(s.lhs) + Disjuncts(s.rhs);
    } else {
      assert Disjuncts(s) == [s];
      assert IsDuring(s) <==> IsDuring(Disjuncts(s)[0]);
      assert IsAnyDuring(s) <==> IsAnyDuring(Disjuncts(s)[0]);
    }
  }

  /** Every action that the spec mentions carries wildcards only. */
  predicate WildcardArguments(s: ActionSpec) {
    match s
    case Basic(b) => AllWildcards(b.action)
    case Boolean(l, _, r) => WildcardArguments(l) && WildcardArguments(r)
    case TemporalUnary(x, _, _, _) => WildcardArguments(x)
    case TemporalBinary(l, r, _, _, _) => WildcardArguments(l) && WildcardArguments(r)
    case Intermediate(l, _, r) => WildcardArguments(l) && WildcardArguments(r)
  }

  /** With wildcard arguments the dispatch condition is exactly what the chain compiler accepts. */
  lemma {:induction false} IsChainIffChainCompiles(s: ActionSpec)
    requires WildcardArguments(s)
    ensures IsChain(s) <==> CompileActionChain(s).Ok?
  {
    if s.Boolean? {
      IsChainIffChainCompiles(s.lhs);
      IsChainIffChainCompiles(s.rhs);
    }
  }

  // ---------------------------------------------------------------- right-hand sides

  /** Unary infos carry plain, future and past specs; binary ones since and until. */
  predicate WellTyped(i: Info) {
    match i
    case UnaryInfo(_, t, _, _) => t.NoOp? || t.Future? || t.Past?
    case BinaryInfo(_, t, _, _, _) => t.Since? || t.Until?
    case ChainInfo(_, _, _, _, _) => false
  }

  function CompileState(s: StateSpec, id: string, acts: seq<ActionName>): (r: Result<Info>)
    ensures r.Ok? ==> WellTyped(r.value)
  {
    match s
    case Basic(b) => Ok(UnaryInfo(id, NoOp, acts, TargetSpecs(DefaultBounds, [b])))
    case Boolean(l, op, r) =>
      if op != OR then Unsupported
      else
        var lhs :- CompileState(l, id, acts);
        var rhs :- CompileState(r, id, acts);
        if lhs.icType != rhs.icType then Unsupported
        else if lhs.specs.bounds != rhs.specs.bounds then Unsupported
        else
          var specs := TargetSpecs(lhs.specs.bounds, lhs.specs.targets + rhs.specs.targets);
          if lhs.BinaryInfo? then Ok(BinaryInfo(id, lhs.icType, acts, specs, lhs.preTargets + rhs.preTargets))
          else Ok(UnaryInfo(id, lhs.icType, acts, specs))
    case TemporalUnary(x, op, lo, hi) =>
      var subject :- CompileState(x, id, acts);
      if subject.icType != NoOp then Unsupported
      else
        var specs := TargetSpecs(Bounds(lo, hi), subject.specs.targets);
        (match op
         case FUTURE => Ok(UnaryInfo(id, Future, acts, specs))
         case PAST => Ok(UnaryInfo(id, Past, acts, specs))
         case _ => Unsupported)
    case TemporalBinary(l, r, op, _, _) =>
      var lhs :- CompileState(l, id, acts);
      var rhs :- CompileState(r, id, acts);
      if lhs.icType != NoOp || rhs.icType != NoOp then Unsupported
      else Ok(BinaryInfo(id, if op == SINCE then Since else Until, acts, rhs.specs, lhs.specs.targets))
    case Intermediate(_, _, _) => Unsupported
  }

  function CompileStateChain(s: StateSpec, id: string, acts: seq<ActionName>, ends: seq<ActionName>): Result<Info> {
    match s
    case Basic(b) => Ok(ChainInfo(id, UntilChain, acts, [TargetSpecs(DefaultBounds, [b])], ends))
    case Boolean(l, op, r) =>
      if op != OR then Unsupported
      else
        var lhs :- CompileState(l, id, acts);
        var rhs :- CompileState(r, id, acts);
        if lhs.icType != NoOp || rhs.icType != NoOp then Unsupported
        else
          var specs := TargetSpecs(lhs.specs.bounds, lhs.specs.targets + rhs.specs.targets);
          Ok(ChainInfo(id, UntilChain, acts, [specs], ends))
    case _ => Unsupported
  }

  function Compile(c: Constraint, id: string): Result<Info> {
    if IsChain(c.lhs) then
      var (starts, ends) :- CompileActionChain(c.lhs);
      CompileStateChain(c.rhs, id, starts, ends)
    else
      var acts :- CompileActions(c.lhs);
      CompileState(c.rhs, id, acts)
  }

  // ---------------------------------------------------------------- what is accepted

  /** The temporal shape of one disjunct, if the encoder has one for it. */
  datatype Kind = Plain | InFuture(lo: Duration, hi: Duration) | InPast(lo: Duration, hi: Duration)
                | SinceKind | UntilKind

  predicate IsBasic<B>(s: Spec<B>) { s.Basic? }

  ghost function KindOf(s: StateSpec): Option<Kind> {
    match s
    case Basic(_) => Some(Plain)
    case TemporalUnary(x, op, lo, hi) =>
      if !Every(x, IsBasic) then None
      else if op == FUTURE then Some(InFuture(lo, hi))
      else if op == PAST then Some(InPast(lo, hi))
      else None
    case TemporalBinary(l, r, op, _, _) =>
      if Every(l, IsBasic) && Every(r, IsBasic) then Some(if op == SINCE then SinceKind else UntilKind) else None
    case _ => None
  }

  /** All disjuncts have the same temporal shape, with the same bounds. */
  ghost predicate Uniform(s: StateSpec, k: Kind) {
    forall i :: 0 <= i < |Disjuncts(s)| ==> KindOf(Disjuncts(s)[i]) == Some(k)
  }

  function InfoKind(i: Info): Kind
    requires WellTyped(i)
  {
    match i.icType
    case NoOp => Plain
    case Future => if i.specs.bounds.Bounds? then InFuture(i.specs.bounds.lower, i.specs.bounds.upper) else Plain
    case Past => if i.specs.bounds.Bounds? then InPast(i.specs.bounds.lower, i.specs.bounds.upper) else Plain
    case Since => SinceKind
    case _ => UntilKind
  }

  /** Only future and past infos carry bounds of their own. */
  predicate OwnBounds(i: Info)
    requires WellTyped(i)
  {
    i.specs.bounds.Bounds? <==> i.icType.Future? || i.icType.Past?
  }

  lemma UniformSplits(s: StateSpec, k: Kind)
    requires s.Boolean? && s.boolOp == OR
    ensures Uniform(s, k) <==> Uniform(s.lhs, k) && Uniform(s.rhs, k)
  {
    var ds, ls, rs := Disjuncts(s), Disjuncts(s.lhs), Disjuncts(s.rhs);
    assert ds == ls + rs;
    assert forall i :: 0 <= i < |ls| ==> ls[i] == ds[i];
    assert forall i :: 0 <= i < |rs| ==> rs[i] == ds[|ls| + i];
  }

  lemma UniformPlain(s: StateSpec)
    ensures Uniform(s, Plain) <==> Every(s, IsBasic)
  {
  }

  lemma UniformUnique(s: StateSpec, k: Kind, m: Kind)
    requires Uniform(s, k) && Uniform(s, m)
    ensures k == m
  {
    assert KindOf(Disjuncts(s)[0]) == Some(k);
  }

  /** A state spec compiles exactly when its disjuncts all have one kind, which is then the info's kind. */
  lemma {:induction false} StateAcceptedIffUniform(s: StateSpec, id: string, acts: seq<ActionName>)
    ensures CompileState(s, id, acts).Ok? <==> exists k :: Uniform(s, k)
    ensures CompileState(s, id, acts).Ok? ==>
      OwnBounds(CompileState(s, id, acts).value) && Uniform(s, InfoKind(CompileState(s, id, acts).value))
  {
    var res := CompileState(s, id, acts);
    match s {
      case Basic(b) =>
        assert Disjuncts(s) == [s];
        assert Uniform(s, Plain);
      case Boolean(l, op, r) =>
        if op == OR {
          StateAcceptedIffUniform(l, id, acts);
          StateAcceptedIffUniform(r, id, acts);
          DisjunctionAccepted(s, id, acts);
        } else {
          NotUniform(s);
        }
      case TemporalUnary(x, op, lo, hi) =>
        StateAcceptedIffUniform(x, id, acts);
        PlainIffBasic(x, id, acts);
        assert Disjuncts(s) == [s];
        if res.Ok? { assert Uniform(s, InfoKind(res.value)); } else { NotUniform(s); }
      case TemporalBinary(l, r, op, lo, hi) =>
        StateAcceptedIffUniform(l, id, acts);
        StateAcceptedIffUniform(r, id, acts);
        PlainIffBasic(l, id, acts);
        PlainIffBasic(r, id, acts);
        assert Disjuncts(s) == [s];
        if res.Ok? { assert Uniform(s, InfoKind(res.value)); } else { NotUniform(s); }
      case Intermediate(_, _, _) =>
        NotUniform(s);
    }
  }

  lemma NotUniform(s: StateSpec)
    requires Disjuncts(s) == [s] && KindOf(s) == None
    ensures !exists k :: Uniform(s, k)
  {
    assert KindOf(Disjuncts(s)[0]) == None;
  }

  lemma PlainIffBasic(s: StateSpec, id: string, acts: seq<ActionName>)
    requires CompileState(s, id, acts).Ok? <==> exists k :: Uniform(s, k)
    requires CompileState(s, id, acts).Ok? ==>
      OwnBounds(CompileState(s, id, acts).value) && Uniform(s, InfoKind(CompileState(s, id, acts).value))
    ensures CompileState(s, id, acts).Ok? && CompileState(s, id, acts).value.icType == NoOp <==> Every(s, IsBasic)
  {
    UniformPlain(s);
    if CompileState(s, id, acts).Ok? && Every(s, IsBasic) {
      UniformUnique(s, Plain, InfoKind(CompileState(s, id, acts).value));
    }
  }

  lemma DisjunctionAccepted(s: StateSpec, id: string, acts: seq<ActionName>)
    requires s.Boolean? && s.boolOp == OR
    requires forall x | x == s.lhs || x == s.rhs :: CompileState(x, id, acts).Ok? <==> exists k :: Uniform(x, k)
    requires forall x | x == s.lhs || x == s.rhs :: CompileState(x, id, acts).Ok? ==>
      OwnBounds(CompileState(x, id, acts).value) && Uniform(x, InfoKind(CompileState(x, id, acts).value))
    ensures CompileState(s, id, acts).Ok? <==> exists k :: Uniform(s, k)
    ensures CompileState(s, id, acts).Ok? ==>
      OwnBounds(CompileState(s, id, acts).value) && Uniform(s, InfoKind(CompileState(s, id, acts).value))
  {
    var res, lhs, rhs := CompileState(s, id, acts), CompileState(s.lhs, id, acts), CompileState(s.rhs, id, acts);
    if res.Ok? {
      assert InfoKind(res.value) == InfoKind(lhs.value) == InfoKind(rhs.value);
      UniformSplits(s, InfoKind(res.value));
    }
    if k :| Uniform(s, k) {
      UniformSplits(s, k);
      UniformUnique(s.lhs, k, InfoKind(lhs.value));
      UniformUnique(s.rhs, k, InfoKind(rhs.value));
    }
  }

  lemma StateChainAcceptedIffBasic(s: StateSpec, id: string, acts: seq<ActionName>, ends: seq<ActionName>)
    ensures CompileStateChain(s, id, acts, ends).Ok? <==> Every(s, IsBasic)
  {
    if s.Boolean? && s.boolOp == OR {
      StateAcceptedIffUniform(s.lhs, id, acts);
      StateAcceptedIffUniform(s.rhs, id, acts);
      PlainIffBasic(s.lhs, id, acts);
      PlainIffBasic(s.rhs, id, acts);
      EverySplits(s, IsBasic);
    } else {
      assert Disjuncts(s) == [s];
      assert IsBasic(s) <==> IsBasic(Disjuncts(s)[0]);
    }
  }

  /**
   * A constraint compiles exactly when its left side is a disjunction of durings or a disjunction of
   * hooks, all with wildcard arguments, and its right side a disjunction of plain state assertions
   * (for durings) or of specs of one temporal kind (for hooks).
   */
  lemma ConstraintAccepted(c: Constraint, id: string)
    ensures Compile(c, id).Ok? <==>
      || (Every(c.lhs, IsDuring) && Every(c.rhs, IsBasic))
      || (Every(c.lhs, IsHook) && exists k :: Uniform(c.rhs, k))
  {
    ActionsAcceptedIffHooks(c.lhs);
    ChainAcceptedIffDurings(c.lhs);
    var d := Disjuncts(c.lhs)[0];
    assert Every(c.lhs, IsAnyDuring) ==> IsAnyDuring(d);
    assert Every(c.lhs, IsHook) ==> IsHook(d);
    if Every(c.lhs, IsDuring) {
      assert Every(c.lhs, IsAnyDuring);
      var names := CompileActionChain(c.lhs).value;
      StateChainAcceptedIffBasic(c.rhs, id, names.0, names.1);
      assert IsDuring(d);
    } else if Every(c.lhs, IsHook) {
      StateAcceptedIffUniform(c.rhs, id, CompileActions(c.lhs).value);
    }
  }
}
