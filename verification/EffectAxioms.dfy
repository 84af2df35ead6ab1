/** Effect axioms become Prolog clauses whose head may only contain variables and values. */
module EffectAxioms {

  /** A name stands for one variable object: two variables are the same only if they are one object. */
  type Variable = string

  datatype Ground = G(functor: string, args: seq<Ground>)

  /** Prolog terms; an atom is a compound without arguments. */
  datatype Term = Var(x: Variable) | Constant(g: Ground) | Compound(functor: string, args: seq<Term>)

  /** An argument: a variable reference, a value, or anything else, which translates to a compound term. */
  datatype Expr = VarRef(x: Variable) | Val(g: Ground) | Complex(functor: string, args: seq<Term>)

  function PlTerm(e: Expr): Term {
    match e
    case VarRef(x) => Var(x)
    case Val(g) => Constant(g)
    case Complex(f, args) => Compound(f, args)
  }

  function Nil(): Term { Compound("[]", []) }
  function Cons(head: Term, tail: Term): Term { Compound(".", [head, tail]) }
  function Equation(a: Term, b: Term): Term { Compound("=", [a, b]) }

  /** A reference to a fluent: the fluent's own parameters, and the arguments given for them. */
  datatype Reference = Reference(name: string, params: seq<Variable>, args: seq<Expr>)

  ghost predicate Consistent(r: Reference) {
    && |r.params| == |r.args|
    && forall i, j :: 0 <= i < j < |r.params| ==> r.params[i] != r.params[j]
  }

  // ---------------------------------------------------------------- the translation

  predicate NeedEval(r: Reference) {
    exists i :: 0 <= i < |r.args| && r.args[i].Complex?
  }

  method ArgsNeedEval(r: Reference) returns (need: bool)
    ensures need <==> NeedEval(r)
  {
    for i := 0 to |r.args|
      invariant forall j :: 0 <= j < i ==> !r.args[j].Complex?
    {
      if !r.args[i].VarRef? && !r.args[i].Val? {
        return true;
      }
    }
    return false;
  }

  function FreeArg(r: Reference, i: nat): Term
    requires i < |r.args| && |r.params| == |r.args|
  {
    if r.args[i].Complex? then Var(r.params[i]) else PlTerm(r.args[i])
  }

  function FreeArgs(r: Reference): Term
    requires |r.params| == |r.args|
  {
    Compound(r.name, seq(|r.args|, i requires 0 <= i < |r.args| => FreeArg(r, i)))
  }

  method PlTermFreeArgs(r: Reference) returns (t: Term)
    requires Consistent(r)
    ensures t == FreeArgs(r)
  {
    if |r.args| == 0 {
      return Compound(r.name, []);
    }
    var args := [];
    for i := 0 to |r.args|
      invariant |args| == i && forall j :: 0 <= j < i ==> args[j] == FreeArg(r, j)
    {
      if !r.args[i].VarRef? && !r.args[i].Val? {
        args := args + [Var(r.params[i])];
      } else {
        args := args + [PlTerm(r.args[i])];
      }
    }
    return Compound(r.name, args);
  }

  /** One equation for each complex argument among the first n, the last one in front. */
  function BindingList(r: Reference, n: nat): Term
    requires |r.params| == |r.args| && n <= |r.args|
  {
    if n == 0 then Nil()
    else if r.args[n - 1].Complex? then
      Cons(Equation(Var(r.params[n - 1]), PlTerm(r.args[n - 1])), BindingList(r, n - 1))
    else BindingList(r, n - 1)
  }

  function Binding(r: Reference): Term
    requires |r.params| == |r.args|
  {
    Compound("and", [BindingList(r, |r.args|)])
  }

  method ArgsBinding(r: Reference) returns (t: Term)
    requires Consistent(r)
    ensures t == Binding(r)
  {
    var list := Nil();
    for i := 0 to |r.params|
      invariant list == BindingList(r, i)
    {
      if !r.args[i].VarRef? && !r.args[i].Val? {
        list := Cons(Equation(Var(r.params[i]), PlTerm(r.args[i])), list);
      }
    }
    return Compound("and", [list]);
  }

  /** An axiom of an action: under the condition, the fluent takes the value. */
  datatype Axiom = Axiom(durative: bool, action: Term, lhs: Reference, value: Term, condition: Term)

  function ClauseCondition(a: Axiom): Term
    requires |a.lhs.params| == |a.lhs.args|
  {
    if NeedEval(a.lhs) then Compound("and", [Binding(a.lhs), a.condition]) else a.condition
  }

  function Clause(a: Axiom): Term
    requires |a.lhs.params| == |a.lhs.args|
  {
    Compound(if a.durative then "durative_causes_val" else "causes_val",
             [a.action, FreeArgs(a.lhs), a.value, ClauseCondition(a)])
  }

  method PlTermAxiom(a: Axiom) returns (t: Term)
    requires Consistent(a.lhs)
    ensures t == Clause(a)
  {
    var condition := a.condition;
    var need := ArgsNeedEval(a.lhs);
    if need {
      var binding := ArgsBinding(a.lhs);
      condition := Compound("and", [binding, condition]);
    }
    var head := PlTermFreeArgs(a.lhs);
    t := Compound(if a.durative then "durative_causes_val" else "causes_val", [a.action, head, a.value, condition]);
  }

  // ---------------------------------------------------------------- meaning

  type Env = Variable -> Ground

  /** How complex expressions evaluate in the current situation. */
  type Interpretation = (string, seq<Ground>) -> Ground

  function Eval(I: Interpretation, env: Env, t: Term): Ground {
    match t
    case Var(x) => env(x)
    case Constant(g) => g
    case Compound(f, args) => I(f, seq(|args|, i requires 0 <= i < |args| => Eval(I, env, args[i])))
  }

  const TRUE: Ground := G("true", [])

  /** Conditions: conjunctions (of a list, or of two terms), equations, and everything else. */
  predicate True(I: Interpretation, env: Env, t: Term)
    decreases t, 1
  {
    if IsCompound(t, "and", 1) then AllTrue(I, env, t.args[0])
    else if IsCompound(t, "and", 2) then True(I, env, t.args[0]) && True(I, env, t.args[1])
    else if IsCompound(t, "=", 2) then Eval(I, env, t.args[0]) == Eval(I, env, t.args[1])
    else Eval(I, env, t) == TRUE
  }

  predicate AllTrue(I: Interpretation, env: Env, list: Term)
    decreases list, 0
  {
    IsCompound(list, ".", 2) ==> True(I, env, list.args[0]) && AllTrue(I, env, list.args[1])
  }

  predicate IsCompound(t: Term, functor: string, arity: nat) {
    t.Compound? && t.functor == functor && |t.args| == arity
  }

  /** A fluent term with its arguments evaluated. */
  function Instance(I: Interpretation, env: Env, fluent: Term): Ground
    requires fluent.Compound?
  {
    G(fluent.functor, seq(|fluent.args|, i requires 0 <= i < |fluent.args| => Eval(I, env, fluent.args[i])))
  }

  /** What the reference denotes: the fluent instance for its evaluated arguments. */
  function Denotes(I: Interpretation, env: Env, r: Reference): Ground {
    G(r.name, seq(|r.args|, i requires 0 <= i < |r.args| => Eval(I, env, PlTerm(r.args[i]))))
  }

  function Vars(t: Term): set<Variable> {
    match t
    case Var(x) => {x}
    case Constant(_) => {}
    case Compound(_, args) => set i, x | 0 <= i < |args| && x in Vars(args[i]) :: x
  }

  /** The parameters that the translation introduces as clause variables. */
  function Introduced(r: Reference): set<Variable>
    requires |r.params| == |r.args|
  {
    set i | 0 <= i < |r.args| && r.args[i].Complex? :: r.params[i]
  }

  ghost predicate Agree(env: Env, rho: Env, changed: set<Variable>) {
    forall x :: x !in changed ==> env(x) == rho(x)
  }

  /** A solution of the bindings changes only introduced variables. */
  ghost predicate Solution(I: Interpretation, env: Env, rho: Env, r: Reference)
    requires |r.params| == |r.args|
  {
    Agree(env, rho, Introduced(r)) && True(I, env, Binding(r))
  }

  /** The flattened reference has a solution, and every solution instantiates it as intended. */
  ghost predicate Preserved(I: Interpretation, rho: Env, r: Reference)
    requires |r.params| == |r.args|
  {
    && (exists env :: Solution(I, env, rho, r))
    && (forall env :: Solution(I, env, rho, r) ==> Instance(I, env, FreeArgs(r)) == Denotes(I, rho, r))
  }

  /** A parameter standing for a complex argument also occurs in one of the arguments. */
  ghost predicate Captured(r: Reference)
    requires |r.params| == |r.args|
  {
    exists j :: 0 <= j < |r.args| && Vars(PlTerm(r.args[j])) * Introduced(r) != {}
  }

  // ---------------------------------------------------------------- lemmas about evaluation

  lemma {:induction false} EvalDependsOnVars(I: Interpretation, e1: Env, e2: Env, t: Term)
    requires forall x :: x in Vars(t) ==> e1(x) == e2(x)
    ensures Eval(I, e1, t) == Eval(I, e2, t)
  {
    if t.Compound? {
      var n := |t.args|;
      forall i | 0 <= i < n ensures Eval(I, e1, t.args[i]) == Eval(I, e2, t.args[i]) {
        assert forall x :: x in Vars(t.args[i]) ==> x in Vars(t);
        EvalDependsOnVars(I, e1, e2, t.args[i]);
      }
      assert seq(n, i requires 0 <= i < n => Eval(I, e1, t.args[i]))
          == seq(n, i requires 0 <= i < n => Eval(I, e2, t.args[i]));
    }
  }

  /** The bindings hold exactly when every introduced variable equals its argument. */
  lemma {:induction false} BindingMeaning(I: Interpretation, env: Env, r: Reference, n: nat)
    requires |r.params| == |r.args| && n <= |r.args|
    ensures AllTrue(I, env, BindingList(r, n)) <==>
      forall i :: 0 <= i < n && r.args[i].Complex? ==> env(r.params[i]) == Eval(I, env, PlTerm(r.args[i]))
  {
    if n > 0 {
      BindingMeaning(I, env, r, n - 1);
    }
  }

  /** The binding list is empty exactly when no argument needs evaluation. */
  lemma BindingEmptyIffNoEval(r: Reference)
    requires |r.params| == |r.args|
    ensures Binding(r) == Compound("and", [Nil()]) <==> !NeedEval(r)
  {
    EmptyList(r, |r.args|);
  }

  lemma {:induction false} EmptyList(r: Reference, n: nat)
    requires |r.params| == |r.args| && n <= |r.args|
    ensures BindingList(r, n) == Nil() <==> forall i :: 0 <= i < n ==> !r.args[i].Complex?
  {
    if n > 0 {
      EmptyList(r, n - 1);
    }
  }

  // ---------------------------------------------------------------- without capture, meaning is preserved

  function ArgumentOf(r: Reference, x: Variable): (i: nat)
    requires Consistent(r) && x in Introduced(r)
    ensures i < |r.args| && r.args[i].Complex? && r.params[i] == x
  {
    var i :| 0 <= i < |r.args| && r.args[i].Complex? && r.params[i] == x;
    i
  }

  /** The assignment that gives every introduced variable the value of its argument. */
  function Solved(I: Interpretation, rho: Env, r: Reference): Env
    requires Consistent(r)
  {
    (x: Variable) => if x in Introduced(r) then Eval(I, rho, PlTerm(r.args[ArgumentOf(r, x)])) else rho(x)
  }

  lemma ArgumentsUnaffected(I: Interpretation, env: Env, rho: Env, r: Reference)
    requires Consistent(r) && !Captured(r) && Agree(env, rho, Introduced(r))
    ensures forall j :: 0 <= j < |r.args| ==> Eval(I, env, PlTerm(r.args[j])) == Eval(I, rho, PlTerm(r.args[j]))
  {
    forall j | 0 <= j < |r.args| ensures Eval(I, env, PlTerm(r.args[j])) == Eval(I, rho, PlTerm(r.args[j])) {
      assert Vars(PlTerm(r.args[j])) * Introduced(r) == {};
      forall x | x in Vars(PlTerm(r.args[j])) ensures env(x) == rho(x) {
        assert x !in Introduced(r) by {
          if x in Introduced(r) { assert x in Vars(PlTerm(r.args[j])) * Introduced(r); }
        }
      }
      EvalDependsOnVars(I, env, rho, PlTerm(r.args[j]));
    }
  }

  lemma SolvedIsSolution(I: Interpretation, rho: Env, r: Reference)
    requires Consistent(r) && !Captured(r)
    ensures Solution(I, Solved(I, rho, r), rho, r)
  {
    var env := Solved(I, rho, r);
    ArgumentsUnaffected(I, env, rho, r);
    forall i | 0 <= i < |r.args| && r.args[i].Complex? ensures env(r.params[i]) == Eval(I, env, PlTerm(r.args[i])) {
      assert r.params[i] in Introduced(r);
      assert ArgumentOf(r, r.params[i]) == i;
    }
    BindingMeaning(I, env, r, |r.args|);
  }

  lemma SolutionInstantiates(I: Interpretation, env: Env, rho: Env, r: Reference)
    requires Consistent(r) && !Captured(r) && Solution(I, env, rho, r)
    ensures Instance(I, env, FreeArgs(r)) == Denotes(I, rho, r)
  {
    ArgumentsUnaffected(I, env, rho, r);
    BindingMeaning(I, env, r, |r.args|);
    var inst, deno := Instance(I, env, FreeArgs(r)), Denotes(I, rho, r);
    forall i | 0 <= i < |r.args| ensures inst.args[i] == deno.args[i] {
      assert FreeArgs(r).args[i] == FreeArg(r, i);
    }
    assert inst.args == deno.args;
  }

  // ---------------------------------------------------------------- with capture, it is not

  /** Terms evaluate to themselves. */
  function Herbrand(): Interpretation {
    (f: string, args: seq<Ground>) => G(f, args)
  }

  lemma {:induction false} HerbrandIsInjective(e1: Env, e2: Env, t: Term, x: Variable)
    requires x in Vars(t) && Eval(Herbrand(), e1, t) == Eval(Herbrand(), e2, t)
    ensures e1(x) == e2(x)
  {
    if t.Compound? {
      var i :| 0 <= i < |t.args| && x in Vars(t.args[i]);
      assert Eval(Herbrand(), e1, t).args[i] == Eval(Herbrand(), e2, t).args[i];
      HerbrandIsInjective(e1, e2, t.args[i], x);
    }
  }

  /** Values that no introduced variable can take in a solution. */
  function Unused(r: Reference, x: Variable): Env
    requires Consistent(r) && x in Introduced(r)
  {
    (y: Variable) => G(r.args[ArgumentOf(r, x)].functor + "'", [])
  }

  lemma SolutionChanges(r: Reference, x: Variable, env: Env)
    requires Consistent(r) && x in Introduced(r) && Solution(Herbrand(), env, Unused(r, x), r)
    ensures env(x) != Unused(r, x)(x)
  {
    var k := ArgumentOf(r, x);
    BindingMeaning(Herbrand(), env, r, |r.args|);
    assert env(x) == Eval(Herbrand(), env, PlTerm(r.args[k]));
    assert env(x).functor == r.args[k].functor;
    assert |r.args[k].functor| != |r.args[k].functor + "'"|;
  }

  ghost predicate NeverIntended(I: Interpretation, rho: Env, r: Reference)
    requires |r.params| == |r.args|
  {
    forall env :: Solution(I, env, rho, r) ==> Instance(I, env, FreeArgs(r)) != Denotes(I, rho, r)
  }

  /** Some assignment of the action's variables for which no solution yields the intended instance. */
  lemma CaptureBreaks(r: Reference) returns (rho: Env)
    requires Consistent(r) && Captured(r)
    ensures NeverIntended(Herbrand(), rho, r)
  {
    var j :| 0 <= j < |r.args| && Vars(PlTerm(r.args[j])) * Introduced(r) != {};
    var x :| x in Vars(PlTerm(r.args[j])) * Introduced(r);
    rho := Unused(r, x);
    forall env | Solution(Herbrand(), env, rho, r)
      ensures Instance(Herbrand(), env, FreeArgs(r)) != Denotes(Herbrand(), rho, r)
    {
      CapturedArgumentDiffers(r, j, x, env);
    }
  }

  lemma CapturedArgumentDiffers(r: Reference, j: nat, x: Variable, env: Env)
    requires Consistent(r) && j < |r.args| && x in Vars(PlTerm(r.args[j])) * Introduced(r)
    requires Solution(Herbrand(), env, Unused(r, x), r)
    ensures Instance(Herbrand(), env, FreeArgs(r)) != Denotes(Herbrand(), Unused(r, x), r)
  {
    var rho := Unused(r, x);
    SolutionChanges(r, x, env);
    var e, d := Eval(Herbrand(), env, PlTerm(r.args[j])), Eval(Herbrand(), rho, PlTerm(r.args[j]));
    assert e != d by {
      if e == d { HerbrandIsInjective(env, rho, PlTerm(r.args[j]), x); }
    }
    BindingMeaning(Herbrand(), env, r, |r.args|);
    assert FreeArgs(r).args[j] == FreeArg(r, j);
    assert Instance(Herbrand(), env, FreeArgs(r)).args[j] == e;
    assert Denotes(Herbrand(), rho, r).args[j] == d;
  }

  /** Flattening preserves the reference in every situation exactly when no introduced variable is captured. */
  lemma FlatteningPreservesIffNotCaptured(r: Reference)
    requires Consistent(r)
    ensures (forall I: Interpretation, rho: Env :: Preserved(I, rho, r)) <==> !Captured(r)
  {
    if Captured(r) {
      var rho := CaptureBreaks(r);
      assert !Preserved(Herbrand(), rho, r);
    } else {
      forall I: Interpretation, rho: Env ensures Preserved(I, rho, r) {
        SolvedIsSolution(I, rho, r);
        forall env | Solution(I, env, rho, r) ensures Instance(I, env, FreeArgs(r)) == Denotes(I, rho, r) {
          SolutionInstantiates(I, env, rho, r);
        }
      }
    }
  }

  // ---------------------------------------------------------------- whole axioms

  /** What the axiom says: if the condition holds, the denoted fluent instance takes the value. */
  ghost predicate AxiomCauses(I: Interpretation, rho: Env, a: Axiom, fluent: Ground, value: Ground) {
    True(I, rho, a.condition) && fluent == Denotes(I, rho, a.lhs) && value == Eval(I, rho, a.value)
  }

  /** The clause is about this action, under the predicate for durative actions or the one for exogenous ones. */
  predicate DefinesEffectOf(c: Term, action: Term, durative: bool) {
    && (if durative then IsCompound(c, "durative_causes_val", 4) else IsCompound(c, "causes_val", 4))
    && c.args[0] == action
  }

  /**
   * What the clause says about an occurrence of its action: introduced variables are existentially
   * quantified, unless the action in the clause's head binds them.
   */
  ghost predicate ClauseHoldsWith(I: Interpretation, rho: Env, a: Axiom, fluent: Ground, value: Ground, env: Env)
    requires |a.lhs.params| == |a.lhs.args|
  {
    var c := Clause(a);
    && DefinesEffectOf(c, a.action, a.durative)
    && Agree(env, rho, Introduced(a.lhs))
    && (forall x <- Vars(c.args[0]) :: env(x) == rho(x))
    && True(I, env, c.args[3])
    && fluent == Instance(I, env, c.args[1])
    && value == Eval(I, env, c.args[2])
  }

  ghost predicate ClauseCauses(I: Interpretation, rho: Env, a: Axiom, fluent: Ground, value: Ground)
    requires |a.lhs.params| == |a.lhs.args|
  {
    exists env: Env :: ClauseHoldsWith(I, rho, a, fluent, value, env)
  }

  lemma {:induction false} TrueDependsOnVars(I: Interpretation, e1: Env, e2: Env, t: Term)
    requires forall x :: x in Vars(t) ==> e1(x) == e2(x)
    ensures True(I, e1, t) == True(I, e2, t)
    decreases t, 1
  {
    if t.Compound? { ArgVars(t); }
    if IsCompound(t, "and", 1) {
      AllTrueDependsOnVars(I, e1, e2, t.args[0]);
    } else if IsCompound(t, "and", 2) {
      TrueDependsOnVars(I, e1, e2, t.args[0]);
      TrueDependsOnVars(I, e1, e2, t.args[1]);
    } else if IsCompound(t, "=", 2) {
      EvalDependsOnVars(I, e1, e2, t.args[0]);
      EvalDependsOnVars(I, e1, e2, t.args[1]);
    } else {
      EvalDependsOnVars(I, e1, e2, t);
    }
  }

  lemma {:induction false} ArgVars(t: Term)
    requires t.Compound?
    ensures forall i :: 0 <= i < |t.args| ==> Vars(t.args[i]) <= Vars(t)
  {
  }

  lemma {:induction false} AllTrueDependsOnVars(I: Interpretation, e1: Env, e2: Env, t: Term)
    requires forall x :: x in Vars(t) ==> e1(x) == e2(x)
    ensures AllTrue(I, e1, t) == AllTrue(I, e2, t)
    decreases t, 0
  {
    if IsCompound(t, ".", 2) {
      ArgVars(t);
      TrueDependsOnVars(I, e1, e2, t.args[0]);
      AllTrueDependsOnVars(I, e1, e2, t.args[1]);
    }
  }

  lemma ClauseConditionMeaning(I: Interpretation, env: Env, a: Axiom)
    requires Consistent(a.lhs)
    ensures True(I, env, ClauseCondition(a)) <==> True(I, env, Binding(a.lhs)) && True(I, env, a.condition)
  {
    if !NeedEval(a.lhs) {
      BindingEmptyIffNoEval(a.lhs);
    }
  }

  /** The condition does not look at the introduced variables. */
  ghost predicate Unaffected(I: Interpretation, rho: Env, a: Axiom)
    requires |a.lhs.params| == |a.lhs.args|
  {
    forall env :: Agree(env, rho, Introduced(a.lhs)) ==> True(I, env, a.condition) == True(I, rho, a.condition)
  }

  lemma UncapturedMeansAxiom(I: Interpretation, rho: Env, a: Axiom, fluent: Ground, value: Ground)
    requires Consistent(a.lhs) && !Captured(a.lhs) && Unaffected(I, rho, a)
    requires (Vars(a.action) + Vars(a.value)) !! Introduced(a.lhs)
    ensures ClauseCauses(I, rho, a, fluent, value) <==> AxiomCauses(I, rho, a, fluent, value)
  {
    forall env: Env | Agree(env, rho, Introduced(a.lhs)) ensures Eval(I, env, a.value) == Eval(I, rho, a.value) {
      EvalDependsOnVars(I, env, rho, a.value);
    }
    if env :| ClauseHoldsWith(I, rho, a, fluent, value, env) {
      ClauseConditionMeaning(I, env, a);
      SolutionInstantiates(I, env, rho, a.lhs);
    }
    if AxiomCauses(I, rho, a, fluent, value) {
      var env := Solved(I, rho, a.lhs);
      SolvedIsSolution(I, rho, a.lhs);
      SolutionInstantiates(I, env, rho, a.lhs);
      ClauseConditionMeaning(I, env, a);
      assert ClauseHoldsWith(I, rho, a, fluent, value, env);
    }
  }

  /**
   * The clause causes exactly what the axiom says, in every situation, provided the introduced variables
   * occur neither in the arguments nor in the action nor in the condition nor in the value.
   */
  lemma ClauseMeansAxiom(I: Interpretation, rho: Env, a: Axiom, fluent: Ground, value: Ground)
    requires Consistent(a.lhs) && !Captured(a.lhs)
    requires (Vars(a.action) + Vars(a.condition) + Vars(a.value)) !! Introduced(a.lhs)
    ensures ClauseCauses(I, rho, a, fluent, value) <==> AxiomCauses(I, rho, a, fluent, value)
  {
    forall env: Env | Agree(env, rho, Introduced(a.lhs))
      ensures True(I, env, a.condition) == True(I, rho, a.condition)
    {
      TrueDependsOnVars(I, env, rho, a.condition);
    }
    UncapturedMeansAxiom(I, rho, a, fluent, value);
  }

  // ---------------------------------------------------------------- where the condition always holds

  ghost predicate Unconditional(a: Axiom) {
    forall I: Interpretation, env: Env :: True(I, env, a.condition)
  }

  ghost predicate Means(a: Axiom)
    requires |a.lhs.params| == |a.lhs.args|
  {
    forall I: Interpretation, rho: Env, fluent: Ground, value: Ground ::
      ClauseCauses(I, rho, a, fluent, value) <==> AxiomCauses(I, rho, a, fluent, value)
  }

  /** The clause misses what the axiom causes, if no admissible assignment yields the fluent and the value. */
  lemma MissedEffect(a: Axiom, rho: Env)
    requires Consistent(a.lhs) && Unconditional(a) && Means(a)
    ensures exists env ::
      && Solution(Herbrand(), env, rho, a.lhs)
      && (forall x <- Vars(a.action) :: env(x) == rho(x))
      && Instance(Herbrand(), env, FreeArgs(a.lhs)) == Denotes(Herbrand(), rho, a.lhs)
      && Eval(Herbrand(), env, a.value) == Eval(Herbrand(), rho, a.value)
  {
    var fluent, value := Denotes(Herbrand(), rho, a.lhs), Eval(Herbrand(), rho, a.value);
    assert AxiomCauses(Herbrand(), rho, a, fluent, value);
    assert ClauseCauses(Herbrand(), rho, a, fluent, value);
    var env :| ClauseHoldsWith(Herbrand(), rho, a, fluent, value, env);
    ClauseConditionMeaning(Herbrand(), env, a);
  }

  lemma MeaningNeedsNoCapture(a: Axiom)
    requires Consistent(a.lhs) && Unconditional(a) && Means(a)
    ensures !Captured(a.lhs) && (Vars(a.action) + Vars(a.value)) !! Introduced(a.lhs)
  {
    if Captured(a.lhs) {
      var rho := CaptureBreaks(a.lhs);
      MissedEffect(a, rho);
      assert false;
    }
    forall x | x in Vars(a.action) + Vars(a.value) ensures x !in Introduced(a.lhs) {
      if x in Introduced(a.lhs) {
        var rho := Unused(a.lhs, x);
        MissedEffect(a, rho);
        var env :|
          && Solution(Herbrand(), env, rho, a.lhs)
          && (forall y <- Vars(a.action) :: env(y) == rho(y))
          && Instance(Herbrand(), env, FreeArgs(a.lhs)) == Denotes(Herbrand(), rho, a.lhs)
          && Eval(Herbrand(), env, a.value) == Eval(Herbrand(), rho, a.value);
        SolutionChanges(a.lhs, x, env);
        HerbrandIsInjective(env, rho, a.value, x);
        assert false;
      }
    }
  }

  /**
   * An axiom whose condition always holds is translated faithfully exactly when no introduced variable
   * occurs in the arguments, in the action or in the value.
   */
  lemma UnconditionalClauseMeansAxiomIff(a: Axiom)
    requires Consistent(a.lhs) && Unconditional(a)
    ensures Means(a) <==> !Captured(a.lhs) && (Vars(a.action) + Vars(a.value)) !! Introduced(a.lhs)
  {
    if Means(a) {
      MeaningNeedsNoCapture(a);
    }
    if !Captured(a.lhs) && (Vars(a.action) + Vars(a.value)) !! Introduced(a.lhs) {
      forall I: Interpretation, rho: Env, fluent: Ground, value: Ground
        ensures ClauseCauses(I, rho, a, fluent, value) <==> AxiomCauses(I, rho, a, fluent, value)
      {
        UncapturedMeansAxiom(I, rho, a, fluent, value);
      }
    }
  }
}
