/**
 * Disjunctions of sinces or untils are merged into one info that has all left and all right states and
 * no bounds. When does that keep their meaning?
 */
module MergedMeaning {
  import opened PlatformConstraints
  import opened TaptencConstraints
  import opened ConstraintMeaning

  /** One since or until: the states before, the bounds, and the states that it is about. */
  datatype Part = Part(pre: set<StateBasic>, lo: Duration, hi: Duration, post: set<StateBasic>)

  ghost predicate SomeIn(w: Trace, d: real, xs: set<StateBasic>) {
    exists x <- xs :: w(x, d)
  }

  /** Traces are seen from the present: d is a distance into the past or into the future. */
  ghost predicate PartHoldsAt(w: Trace, p: Part, d: real) {
    && d >= 0.0 && Within(p.lo, d, p.hi) && SomeIn(w, d, p.post)
    && forall e :: 0.0 <= e < d ==> SomeIn(w, e, p.pre)
  }

  ghost predicate AnyHolds(w: Trace, ps: seq<Part>) {
    exists i, d :: 0 <= i < |ps| && PartHoldsAt(w, ps[i], d)
  }

  function Pre(ps: seq<Part>): set<StateBasic> {
    set i, x | 0 <= i < |ps| && x in ps[i].pre :: x
  }

  function Post(ps: seq<Part>): set<StateBasic> {
    set i, x | 0 <= i < |ps| && x in ps[i].post :: x
  }

  ghost predicate MergedHoldsAt(w: Trace, ps: seq<Part>, d: real) {
    d >= 0.0 && SomeIn(w, d, Post(ps)) && forall e :: 0.0 <= e < d ==> SomeIn(w, e, Pre(ps))
  }

  ghost predicate MergedHolds(w: Trace, ps: seq<Part>) {
    exists d :: MergedHoldsAt(w, ps, d)
  }

  // ---------------------------------------------------------------- the condition

  /** The left states that are no right states. */
  function Strict(ps: seq<Part>): set<StateBasic> {
    Pre(ps) - Post(ps)
  }

  /** Some part is about this state at this distance, and accepts the given states before it. */
  ghost predicate Serves(ps: seq<Part>, r: StateBasic, d: real, before: set<StateBasic>) {
    exists i :: 0 <= i < |ps| && r in ps[i].post && Within(ps[i].lo, d, ps[i].hi) && before <= ps[i].pre
  }

  /** The bounds admit all distances just above e. */
  predicate JustAbove(lo: Duration, e: real, hi: Duration) {
    && (match lo case Lowest => true case Seconds(s) => s <= e case Highest => false)
    && (match hi case Lowest => false case Seconds(s) => e < s case Highest => true)
  }

  /** Some part is about one of these states just above this distance, and accepts all of them before. */
  ghost predicate ServesAbove(ps: seq<Part>, mixed: set<StateBasic>, e: real) {
    exists i :: 0 <= i < |ps| && mixed * ps[i].post != {} && JustAbove(ps[i].lo, e, ps[i].hi)
      && Strict(ps) + mixed <= ps[i].pre
  }

  /**
   * Every right state is served in the present. Unless all left states are right states, it is also
   * served at every distance, with all the left states before it that are not; and so is every choice of
   * states that are both, where these alternate ever faster.
   */
  ghost predicate Covered(ps: seq<Part>) {
    && (forall r <- Post(ps) :: Serves(ps, r, 0.0, {}))
    && (Strict(ps) != {} ==>
         && (forall r, d :: r in Post(ps) && d > 0.0 ==> Serves(ps, r, d, Strict(ps)))
         && (forall c, e :: c != {} && c <= Pre(ps) * Post(ps) && e >= 0.0 ==> ServesAbove(ps, c, e)))
  }

  ghost predicate KeepsMeaning(ps: seq<Part>) {
    forall w: Trace :: AnyHolds(w, ps) <==> MergedHolds(w, ps)
  }

  // ---------------------------------------------------------------- merging only weakens

  lemma MergingWeakens(w: Trace, ps: seq<Part>)
    requires AnyHolds(w, ps)
    ensures MergedHolds(w, ps)
  {
    var i, d :| 0 <= i < |ps| && PartHoldsAt(w, ps[i], d);
    assert SomeIn(w, d, Post(ps)) by {
      var x :| x in ps[i].post && w(x, d);
      assert x in Post(ps);
    }
    forall e | 0.0 <= e < d ensures SomeIn(w, e, Pre(ps)) {
      assert SomeIn(w, e, ps[i].pre);
      var x :| x in ps[i].pre && w(x, e);
      assert x in Pre(ps);
    }
    assert MergedHoldsAt(w, ps, d);
  }

  // ---------------------------------------------------------------- the condition is needed

  /** A right state that is not served in the present: let it hold now, and nothing else ever. */
  lemma PresentNeeded(ps: seq<Part>, r: StateBasic)
    requires KeepsMeaning(ps) && r in Post(ps)
    ensures Serves(ps, r, 0.0, {})
  {
    var w: Trace := (x: StateBasic, d: real) => x == r && d == 0.0;
    assert MergedHoldsAt(w, ps, 0.0) by { assert w(r, 0.0); }
    assert MergedHolds(w, ps);
    assert AnyHolds(w, ps);
    var i, d :| 0 <= i < |ps| && PartHoldsAt(w, ps[i], d);
    assert d == 0.0 && r in ps[i].post;
  }

  function Modulo(n: nat, k: nat): (r: nat)
    requires k > 0
    ensures r < k
  {
    if n < k then n else Modulo(n - k, k)
  }

  /** Every position comes up in every neighbourhood of 0. */
  function Flicker(k: nat, e: real): nat
    requires k > 0
  {
    if e > 0.0 then Modulo((1.0 / e).Floor, k) else 0
  }

  /** Numbers of any size with this remainder. */
  lemma {:induction false} Large(k: nat, j: nat, q: nat) returns (m: nat)
    requires j < k
    ensures m >= q && Modulo(m, k) == j
  {
    if q == 0 {
      m := j;
    } else {
      m := Large(k, j, q - 1);
      m := m + k;
    }
  }

  lemma Product(a: real, b: real, c: real)
    requires a > 0.0 && b < c
    ensures a * b < a * c
  {
  }

  lemma Reciprocal(n: real, bound: real) returns (e: real)
    requires bound > 0.0 && n > 1.0 / bound
    ensures 0.0 < e < bound && 1.0 / e == n
  {
    assert (1.0 / bound) * bound == 1.0;
    Product(bound, 1.0 / bound, n);
    e := 1.0 / n;
    assert e * n == 1.0;
    Product(e, 1.0, n * bound);
    assert e * (n * bound) == (e * n) * bound;
  }

  lemma FlickerHits(k: nat, j: nat, bound: real) returns (e: real)
    requires j < k && bound > 0.0
    ensures 0.0 < e < bound && Flicker(k, e) == j
  {
    assert 1.0 / bound > 0.0;
    var m := Large(k, j, (1.0 / bound).Floor + 1);
    e := Reciprocal(m as real, bound);
    assert (m as real).Floor == m;
  }

  lemma Enumerate(xs: set<StateBasic>) returns (us: seq<StateBasic>)
    ensures forall x :: x in us <==> x in xs
  {
    if xs == {} {
      us := [];
    } else {
      var x :| x in xs;
      var rest := Enumerate(xs - {x});
      us := [x] + rest;
    }
  }

  /** Before distance d the strict left states take turns, and at d a right state holds. */
  lemma DistanceNeeded(ps: seq<Part>, r: StateBasic, d: real)
    requires KeepsMeaning(ps) && Strict(ps) != {} && r in Post(ps) && d > 0.0
    ensures Serves(ps, r, d, Strict(ps))
  {
    var us := Enumerate(Strict(ps));
    var x0 :| x0 in Strict(ps);
    assert |us| > 0;
    var w: Trace := (x: StateBasic, e: real) =>
      (x == r && e == d) || (0.0 <= e < d && x == us[Flicker(|us|, e)]);
    assert MergedHoldsAt(w, ps, d) by {
      assert w(r, d);
      forall e | 0.0 <= e < d ensures SomeIn(w, e, Pre(ps)) {
        var u := us[Flicker(|us|, e)];
        assert u in us && u in Pre(ps) && w(u, e);
      }
    }
    assert MergedHolds(w, ps);
    assert AnyHolds(w, ps);
    var i, d' :| 0 <= i < |ps| && PartHoldsAt(w, ps[i], d');
    var y :| y in ps[i].post && w(y, d');
    assert y in Post(ps);
    assert forall j :: 0 <= j < |us| ==> us[j] in us && us[j] !in Post(ps);
    assert d' == d && y == r;
    forall u | u in Strict(ps) ensures u in ps[i].pre {
      var j :| 0 <= j < |us| && us[j] == u;
      var e := FlickerHits(|us|, j, d);
      assert SomeIn(w, e, ps[i].pre);
    }
  }

  /** Above e there is a gap in which none of the parts that fail to serve there comes into question. */
  lemma {:induction false} Gap(ps: seq<Part>, e: real, n: nat) returns (g: real)
    requires n <= |ps|
    ensures g > 0.0
    ensures forall i, d :: 0 <= i < n && !JustAbove(ps[i].lo, e, ps[i].hi) && e < d < e + g ==>
              !Within(ps[i].lo, d, ps[i].hi)
  {
    if n == 0 {
      g := 1.0;
    } else {
      g := Gap(ps, e, n - 1);
      var lo := ps[n - 1].lo;
      if lo.Seconds? && lo.s > e && lo.s - e < g { g := lo.s - e; }
    }
  }

  /** Up to e a strict left state holds; just above, it takes turns with the chosen mixed states. */
  lemma AlternationNeeded(ps: seq<Part>, c: set<StateBasic>, e: real)
    requires KeepsMeaning(ps) && Strict(ps) != {}
    requires c != {} && c <= Pre(ps) * Post(ps) && e >= 0.0
    ensures ServesAbove(ps, c, e)
  {
    var us := Enumerate(Strict(ps) + c);
    var x0 :| x0 in Strict(ps);
    var c0 :| c0 in c;
    var g := Gap(ps, e, |ps|);
    var w: Trace := (x: StateBasic, d: real) =>
      (0.0 <= d <= e && x == x0) || (e < d < e + g && x == us[Flicker(|us|, d - e)]);
    assert MergedHolds(w, ps) by {
      var j :| 0 <= j < |us| && us[j] == c0;
      var f := FlickerHits(|us|, j, g);
      assert w(c0, e + f) && c0 in Post(ps);
      forall d | 0.0 <= d < e + f ensures SomeIn(w, d, Pre(ps)) {
        if d <= e {
          assert w(x0, d);
        } else {
          var u := us[Flicker(|us|, d - e)];
          assert u in us && w(u, d);
        }
      }
      assert MergedHoldsAt(w, ps, e + f);
    }
    assert AnyHolds(w, ps);
    var i, d :| 0 <= i < |ps| && PartHoldsAt(w, ps[i], d);
    var y :| y in ps[i].post && w(y, d);
    assert y in Post(ps);
    assert y != x0 && e < d < e + g;
    assert y == us[Flicker(|us|, d - e)] && y in us;
    assert y in c && y in c * ps[i].post;
    forall u | u in Strict(ps) + c ensures u in ps[i].pre {
      var j :| 0 <= j < |us| && us[j] == u;
      var f := FlickerHits(|us|, j, d - e);
      assert SomeIn(w, e + f, ps[i].pre);
    }
  }

  lemma CoverageIsNeeded(ps: seq<Part>)
    requires KeepsMeaning(ps)
    ensures Covered(ps)
  {
    forall r <- Post(ps) ensures Serves(ps, r, 0.0, {}) {
      PresentNeeded(ps, r);
    }
    if Strict(ps) != {} {
      forall r, d | r in Post(ps) && d > 0.0 ensures Serves(ps, r, d, Strict(ps)) {
        DistanceNeeded(ps, r, d);
      }
      forall c, e | c != {} && c <= Pre(ps) * Post(ps) && e >= 0.0 ensures ServesAbove(ps, c, e) {
        AlternationNeeded(ps, c, e);
      }
    }
  }

  // ---------------------------------------------------------------- the condition is enough

  ghost predicate Near(p: real -> bool, m: real, g: real) {
    exists e :: p(e) && m <= e < m + g
  }

  ghost predicate IsInfimum(p: real -> bool, m: real) {
    && m >= 0.0
    && (forall e :: e >= 0.0 && p(e) ==> m <= e)
    && forall g :: g > 0.0 ==> Near(p, m, g)
  }

  ghost predicate Inhabited(p: real -> bool) {
    exists e :: e >= 0.0 && p(e)
  }

  ghost predicate HasInfimum(p: real -> bool) {
    exists m :: IsInfimum(p, m)
  }

  /** The completeness of the real numbers, which is not among the rules that the prover has for them. */
  ghost predicate Complete() {
    forall p: real -> bool :: Inhabited(p) ==> HasInfimum(p)
  }

  /** A right state, with strict left states all the way to it. */
  lemma ServedAt(w: Trace, ps: seq<Part>, r: StateBasic, d: real)
    requires Covered(ps) && r in Post(ps) && w(r, d) && d >= 0.0
    requires forall e :: 0.0 <= e < d ==> SomeIn(w, e, Strict(ps))
    ensures AnyHolds(w, ps)
  {
    if d == 0.0 {
      assert Serves(ps, r, 0.0, {});
      var i :| 0 <= i < |ps| && r in ps[i].post && Within(ps[i].lo, d, ps[i].hi);
      assert PartHoldsAt(w, ps[i], d);
    } else {
      assert SomeIn(w, 0.0, Strict(ps));
      assert Serves(ps, r, d, Strict(ps));
      var i :| 0 <= i < |ps| && r in ps[i].post && Within(ps[i].lo, d, ps[i].hi) && Strict(ps) <= ps[i].pre;
      forall e | 0.0 <= e < d ensures SomeIn(w, e, ps[i].pre) {
        assert SomeIn(w, e, Strict(ps));
      }
      assert PartHoldsAt(w, ps[i], d);
    }
  }

  /** A distance before d at which no strict left state holds. */
  ghost predicate Lapse(w: Trace, ps: seq<Part>, d: real, e: real) {
    0.0 <= e < d && !SomeIn(w, e, Strict(ps))
  }

  ghost predicate LapseNear(w: Trace, ps: seq<Part>, d: real, m: real, g: real) {
    exists e :: Lapse(w, ps, d, e) && m <= e < m + g
  }

  lemma LapseIsMixed(w: Trace, ps: seq<Part>, d: real, e: real) returns (a: StateBasic)
    requires MergedHoldsAt(w, ps, d) && Lapse(w, ps, d, e)
    ensures a in Pre(ps) * Post(ps) && w(a, e)
  {
    assert SomeIn(w, e, Pre(ps));
    a :| a in Pre(ps) && w(a, e);
  }

  /** This state fills lapses in every neighbourhood above m. */
  ghost predicate Recurs(w: Trace, ps: seq<Part>, d: real, m: real, x: StateBasic) {
    forall g :: g > 0.0 ==> Fills(w, ps, d, m, x, g)
  }

  ghost predicate Fills(w: Trace, ps: seq<Part>, d: real, m: real, x: StateBasic, g: real) {
    exists e :: m < e < m + g && Lapse(w, ps, d, e) && w(x, e)
  }

  /** In some neighbourhood above m, only recurring states fill lapses. */
  lemma OthersStayAway(w: Trace, ps: seq<Part>, d: real, m: real, xs: set<StateBasic>) returns (g: real)
    ensures g > 0.0
    ensures forall x, e :: x in xs && !Recurs(w, ps, d, m, x) && m < e < m + g && Lapse(w, ps, d, e) ==> !w(x, e)
  {
    if xs == {} {
      g := 1.0;
    } else {
      var x :| x in xs;
      g := OthersStayAway(w, ps, d, m, xs - {x});
      if !Recurs(w, ps, d, m, x) {
        var g' :| g' > 0.0 && !Fills(w, ps, d, m, x, g');
        if g' < g { g := g'; }
      }
    }
  }

  lemma RoomAbove(lo: Duration, m: real, hi: Duration) returns (g: real)
    requires JustAbove(lo, m, hi)
    ensures g > 0.0 && forall e :: m < e < m + g ==> Within(lo, e, hi)
  {
    g := if hi.Seconds? then hi.s - m else 1.0;
  }

  lemma RecurringStates(w: Trace, ps: seq<Part>, d: real, m: real) returns (c: set<StateBasic>, g: real)
    requires MergedHoldsAt(w, ps, d)
    requires forall e :: Lapse(w, ps, d, e) ==> m < e
    requires forall g :: g > 0.0 ==> LapseNear(w, ps, d, m, g)
    ensures c != {} && c <= Pre(ps) * Post(ps) && g > 0.0
    ensures forall x <- c :: Recurs(w, ps, d, m, x)
    ensures forall x, e :: x in Pre(ps) * Post(ps) && m < e < m + g && Lapse(w, ps, d, e) && w(x, e) ==> x in c
  {
    var mixed := Pre(ps) * Post(ps);
    c := set x | x in mixed && Recurs(w, ps, d, m, x);
    g := OthersStayAway(w, ps, d, m, mixed);
    assert LapseNear(w, ps, d, m, g);
    var e :| Lapse(w, ps, d, e) && m <= e < m + g;
    var a := LapseIsMixed(w, ps, d, e);
    assert a in c;
  }

  /** Lapses come ever closer to m from above: a part that serves the recurring states there holds. */
  lemma ServedAbove(w: Trace, ps: seq<Part>, d: real, m: real)
    requires Covered(ps) && Strict(ps) != {} && MergedHoldsAt(w, ps, d) && m >= 0.0
    requires forall e :: Lapse(w, ps, d, e) ==> m < e
    requires forall g :: g > 0.0 ==> LapseNear(w, ps, d, m, g)
    ensures AnyHolds(w, ps)
  {
    var c, g0 := RecurringStates(w, ps, d, m);
    assert ServesAbove(ps, c, m);
    var i :| 0 <= i < |ps| && c * ps[i].post != {} && JustAbove(ps[i].lo, m, ps[i].hi) && Strict(ps) + c <= ps[i].pre;
    var r :| r in c * ps[i].post;
    var g1 := RoomAbove(ps[i].lo, m, ps[i].hi);
    var g := if g0 < g1 then g0 else g1;
    assert Fills(w, ps, d, m, r, g);
    var u :| m < u < m + g && Lapse(w, ps, d, u) && w(r, u);
    forall e | 0.0 <= e < u ensures SomeIn(w, e, ps[i].pre) {
      if Lapse(w, ps, d, e) {
        var a := LapseIsMixed(w, ps, d, e);
        assert a in c && a in ps[i].pre;
      } else {
        assert SomeIn(w, e, Strict(ps));
      }
    }
    assert PartHoldsAt(w, ps[i], u);
  }

  /** The merged info holds with a right state at d: some part holds, there or before the first lapse. */
  lemma CoverageServes(w: Trace, ps: seq<Part>, d: real)
    requires Covered(ps) && MergedHoldsAt(w, ps, d)
    requires Complete() || Strict(ps) == {} || Pre(ps) * Post(ps) == {}
    ensures AnyHolds(w, ps)
  {
    var r :| r in Post(ps) && w(r, d);
    if Strict(ps) == {} && d > 0.0 {
      assert Lapse(w, ps, d, 0.0);
      var a := LapseIsMixed(w, ps, d, 0.0);
      ServedAt(w, ps, a, 0.0);
    } else if forall e :: !Lapse(w, ps, d, e) {
      forall e | 0.0 <= e < d ensures SomeIn(w, e, Strict(ps)) {
        assert !Lapse(w, ps, d, e);
      }
      ServedAt(w, ps, r, d);
    } else {
      var e0 :| Lapse(w, ps, d, e0);
      var a0 := LapseIsMixed(w, ps, d, e0);
      var p: real -> bool := e => Lapse(w, ps, d, e);
      assert p(e0) && Inhabited(p);
      assert HasInfimum(p);
      var m :| IsInfimum(p, m);
      FirstLapse(w, ps, d, m, p);
    }
  }

  lemma FirstLapse(w: Trace, ps: seq<Part>, d: real, m: real, p: real -> bool)
    requires Covered(ps) && Strict(ps) != {} && MergedHoldsAt(w, ps, d)
    requires IsInfimum(p, m) && forall e :: p(e) <==> Lapse(w, ps, d, e)
    ensures AnyHolds(w, ps)
  {
    if Lapse(w, ps, d, m) {
      var a := LapseIsMixed(w, ps, d, m);
      forall e | 0.0 <= e < m ensures SomeIn(w, e, Strict(ps)) {
        assert !p(e);
      }
      ServedAt(w, ps, a, m);
    } else {
      forall g | g > 0.0 ensures LapseNear(w, ps, d, m, g) {
        assert Near(p, m, g);
        var e :| p(e) && m <= e < m + g;
        assert Lapse(w, ps, d, e);
      }
      forall e | Lapse(w, ps, d, e) ensures m < e {
        assert p(e);
      }
      ServedAbove(w, ps, d, m);
    }
  }

  /**
   * Merging keeps the meaning exactly when it is covered. Where a left state can also be a right state,
   * this takes the completeness of the real numbers; that it is necessary never does.
   */
  lemma MergingKeepsMeaningIffCovered(ps: seq<Part>)
    ensures KeepsMeaning(ps) ==> Covered(ps)
    ensures Complete() || Strict(ps) == {} || Pre(ps) * Post(ps) == {} ==> (KeepsMeaning(ps) <==> Covered(ps))
  {
    if KeepsMeaning(ps) { CoverageIsNeeded(ps); }
    if Covered(ps) && (Complete() || Strict(ps) == {} || Pre(ps) * Post(ps) == {}) {
      forall w: Trace ensures AnyHolds(w, ps) <==> MergedHolds(w, ps) {
        if AnyHolds(w, ps) { MergingWeakens(w, ps); }
        if MergedHolds(w, ps) {
          var d :| MergedHoldsAt(w, ps, d);
          CoverageServes(w, ps, d);
        }
      }
    }
  }

  /** For instance: parts with the same states before, and bounds that exclude nothing. */
  lemma SameLeftSidesKeepMeaning(ps: seq<Part>)
    requires forall i :: 0 <= i < |ps| ==> ps[i].pre == Pre(ps) && Vacuous(ps[i].lo, ps[i].hi)
    ensures KeepsMeaning(ps)
  {
    forall w: Trace ensures AnyHolds(w, ps) <==> MergedHolds(w, ps) {
      if AnyHolds(w, ps) { MergingWeakens(w, ps); }
      if MergedHolds(w, ps) {
        var d :| MergedHoldsAt(w, ps, d);
        var r :| r in Post(ps) && w(r, d);
        var i :| 0 <= i < |ps| && r in ps[i].post;
        assert PartHoldsAt(w, ps[i], d);
      }
    }
  }

  // ---------------------------------------------------------------- specs and infos

  function ToSet(xs: seq<StateBasic>): set<StateBasic> {
    set x <- xs
  }

  /** The sinces or untils of a disjunction, left to right. */
  function Parts(s: StateSpec): seq<Part> {
    match s
    case Boolean(l, _, r) => Parts(l) + Parts(r)
    case TemporalBinary(l, r, _, lo, hi) => [Part(ToSet(Leaves(l)), lo, hi, ToSet(Leaves(r)))]
    case _ => []
  }

  /** The trace as it is seen from t, into the past for since and into the future for until. */
  function Seen(tr: Trace, t: real, past: bool): Trace {
    (x: StateBasic, d: real) => tr(x, if past then t - d else t + d)
  }

  lemma SomeTargetIsSomeIn(tr: Trace, t: real, past: bool, d: real, xs: seq<StateBasic>)
    ensures SomeTarget(tr, if past then t - d else t + d, xs) <==> SomeIn(Seen(tr, t, past), d, ToSet(xs))
  {
    var u := if past then t - d else t + d;
    if SomeTarget(tr, u, xs) {
      var i :| 0 <= i < |xs| && tr(xs[i], u);
      assert xs[i] in ToSet(xs) && Seen(tr, t, past)(xs[i], d);
    }
    if SomeIn(Seen(tr, t, past), d, ToSet(xs)) {
      var x :| x in ToSet(xs) && Seen(tr, t, past)(x, d);
      var i :| 0 <= i < |xs| && xs[i] == x;
      assert tr(xs[i], u);
    }
  }

  lemma AnyOfBoth(w: Trace, a: seq<Part>, b: seq<Part>)
    ensures AnyHolds(w, a + b) <==> AnyHolds(w, a) || AnyHolds(w, b)
  {
    if i, d :| 0 <= i < |a| && PartHoldsAt(w, a[i], d) { assert PartHoldsAt(w, (a + b)[i], d); }
    if i, d :| 0 <= i < |b| && PartHoldsAt(w, b[i], d) { assert PartHoldsAt(w, (a + b)[|a| + i], d); }
    if i, d :| 0 <= i < |a + b| && PartHoldsAt(w, (a + b)[i], d) {
      if i < |a| { assert PartHoldsAt(w, a[i], d); } else { assert PartHoldsAt(w, b[i - |a|], d); }
    }
  }

  function At(past: bool, t: real, d: real): real {
    if past then t - d else t + d
  }

  /** All points between the present and u, the present included. */
  ghost predicate AllBefore(past: bool, t: real, u: real, l: real -> bool) {
    if past then forall v :: u < v <= t ==> l(v) else forall v :: t <= v < u ==> l(v)
  }

  lemma UntilByDistance(past: bool, t: real, d: real, l: real -> bool, l': real -> bool)
    requires forall e :: l'(e) <==> l(At(past, t, e))
    ensures AllBefore(past, t, At(past, t, d), l) <==> forall e :: 0.0 <= e < d ==> l'(e)
  {
    if AllBefore(past, t, At(past, t, d), l) {
      forall e | 0.0 <= e < d ensures l'(e) { assert l(At(past, t, e)); }
    }
    if forall e :: 0.0 <= e < d ==> l'(e) {
      if past {
        forall v | t - d < v <= t ensures l(v) { assert l'(t - v) && At(past, t, t - v) == v; }
      } else {
        forall v | t <= v < t + d ensures l(v) { assert l'(v - t) && At(past, t, v - t) == v; }
      }
    }
  }

  /** The spec holds because of what happens at u. */
  ghost predicate HoldsWith(tr: Trace, t: real, s: StateSpec, u: real)
    requires s.TemporalBinary?
  {
    var past := s.binaryOp == SINCE;
    && (if past then u <= t && Within(s.lower, t - u, s.upper) else u >= t && Within(s.lower, u - t, s.upper))
    && Holds(tr, u, s.rhs)
    && AllBefore(past, t, u, v => Holds(tr, v, s.lhs))
  }

  lemma HoldsByWitness(tr: Trace, t: real, s: StateSpec)
    requires s.TemporalBinary?
    ensures Holds(tr, t, s) <==> exists u :: HoldsWith(tr, t, s, u)
  {
    var TemporalBinary(l, r, op, lo, hi) := s;
    if Holds(tr, t, s) {
      if op == SINCE {
        assert Holds(tr, t, TemporalBinary(l, r, SINCE, lo, hi));
        var u :| u <= t && Within(lo, t - u, hi) && Holds(tr, u, r) && forall v :: u < v <= t ==> Holds(tr, v, l);
        assert HoldsWith(tr, t, s, u);
      } else {
        assert Holds(tr, t, TemporalBinary(l, r, UNTIL, lo, hi));
        var u :| u >= t && Within(lo, u - t, hi) && Holds(tr, u, r) && forall v :: t <= v < u ==> Holds(tr, v, l);
        assert HoldsWith(tr, t, s, u);
      }
    }
    if u :| HoldsWith(tr, t, s, u) {
      var left := v => Holds(tr, v, l);
      assert forall v :: left(v) <==> Holds(tr, v, l);
    }
  }

  lemma HoldsAtDistance(tr: Trace, t: real, s: StateSpec, id: string, acts: seq<ActionName>, d: real)
    requires s.TemporalBinary? && CompileState(s, id, acts).Ok? && d >= 0.0
    ensures HoldsWith(tr, t, s, At(s.binaryOp == SINCE, t, d)) <==>
            PartHoldsAt(Seen(tr, t, s.binaryOp == SINCE), Parts(s)[0], d)
  {
    var past := s.binaryOp == SINCE;
    var w, p := Seen(tr, t, past), Parts(s)[0];
    SidesArePlain(tr, s, id, acts);
    forall e
      ensures SomeIn(w, e, p.pre) <==> Holds(tr, At(past, t, e), s.lhs)
      ensures SomeIn(w, e, p.post) <==> Holds(tr, At(past, t, e), s.rhs)
    {
      SomeTargetIsSomeIn(tr, t, past, e, Leaves(s.lhs));
      SomeTargetIsSomeIn(tr, t, past, e, Leaves(s.rhs));
    }
    UntilByDistance(past, t, d, v => Holds(tr, v, s.lhs), e => SomeIn(w, e, p.pre));
  }

  lemma OneByDistance(tr: Trace, t: real, s: StateSpec, id: string, acts: seq<ActionName>)
    requires s.TemporalBinary? && CompileState(s, id, acts).Ok?
    ensures Holds(tr, t, s) <==> AnyHolds(Seen(tr, t, s.binaryOp == SINCE), Parts(s))
  {
    var past := s.binaryOp == SINCE;
    var w := Seen(tr, t, past);
    HoldsByWitness(tr, t, s);
    if u :| HoldsWith(tr, t, s, u) {
      var d := if past then t - u else u - t;
      HoldsAtDistance(tr, t, s, id, acts, d);
      assert At(past, t, d) == u && PartHoldsAt(w, Parts(s)[0], d);
    }
    if AnyHolds(w, Parts(s)) {
      var i, d :| 0 <= i < |Parts(s)| && PartHoldsAt(w, Parts(s)[i], d);
      HoldsAtDistance(tr, t, s, id, acts, d);
      assert HoldsWith(tr, t, s, At(past, t, d));
    }
  }

  lemma {:induction false} SpecByDistance(tr: Trace, t: real, s: StateSpec, id: string, acts: seq<ActionName>)
    requires CompileState(s, id, acts).Ok? && CompileState(s, id, acts).value.BinaryInfo?
    ensures Holds(tr, t, s) <==> AnyHolds(Seen(tr, t, CompileState(s, id, acts).value.icType.Since?), Parts(s))
  {
    if s.Boolean? {
      SpecByDistance(tr, t, s.lhs, id, acts);
      SpecByDistance(tr, t, s.rhs, id, acts);
      AnyOfBoth(Seen(tr, t, CompileState(s, id, acts).value.icType.Since?), Parts(s.lhs), Parts(s.rhs));
    } else {
      OneByDistance(tr, t, s, id, acts);
    }
  }

  lemma {:induction false} InfoHasAllStates(s: StateSpec, id: string, acts: seq<ActionName>)
    requires CompileState(s, id, acts).Ok? && CompileState(s, id, acts).value.BinaryInfo?
    ensures CompileState(s, id, acts).value.specs.bounds == DefaultBounds
    ensures ToSet(CompileState(s, id, acts).value.preTargets) == Pre(Parts(s))
    ensures ToSet(CompileState(s, id, acts).value.specs.targets) == Post(Parts(s))
  {
    if s.Boolean? {
      InfoHasAllStates(s.lhs, id, acts);
      InfoHasAllStates(s.rhs, id, acts);
      PartsOfBoth(Parts(s.lhs), Parts(s.rhs));
    } else {
      SidesArePlain((x, t) => false, s, id, acts);
      assert Parts(s)[0].pre == ToSet(Leaves(s.lhs)) && Parts(s)[0].post == ToSet(Leaves(s.rhs));
    }
  }

  lemma PartsOfBoth(a: seq<Part>, b: seq<Part>)
    ensures Pre(a + b) == Pre(a) + Pre(b) && Post(a + b) == Post(a) + Post(b)
  {
    forall x ensures x in Pre(a + b) <==> x in Pre(a) || x in Pre(b) {
      if i :| 0 <= i < |a| && x in a[i].pre { assert x in (a + b)[i].pre; }
      if i :| 0 <= i < |b| && x in b[i].pre { assert x in (a + b)[|a| + i].pre; }
    }
    forall x ensures x in Post(a + b) <==> x in Post(a) || x in Post(b) {
      if i :| 0 <= i < |a| && x in a[i].post { assert x in (a + b)[i].post; }
      if i :| 0 <= i < |b| && x in b[i].post { assert x in (a + b)[|a| + i].post; }
    }
  }

  ghost predicate InfoHoldsWith(tr: Trace, t: real, i: Info, u: real)
    requires i.BinaryInfo?
  {
    && (if i.icType.Since? then u <= t else u >= t)
    && SomeTarget(tr, u, i.specs.targets)
    && AllBefore(i.icType.Since?, t, u, v => SomeTarget(tr, v, i.preTargets))
  }

  lemma InfoHoldsByWitness(tr: Trace, t: real, i: Info)
    requires i.BinaryInfo? && WellTyped(i) && i.specs.bounds == DefaultBounds
    ensures InfoHolds(tr, t, i) <==> exists u :: InfoHoldsWith(tr, t, i, u)
  {
    if InfoHolds(tr, t, i) {
      if i.icType.Since? {
        var u :| u <= t && SomeTarget(tr, u, i.specs.targets)
          && forall v :: u < v <= t ==> SomeTarget(tr, v, i.preTargets);
        assert InfoHoldsWith(tr, t, i, u);
      } else {
        var u :| u >= t && SomeTarget(tr, u, i.specs.targets)
          && forall v :: t <= v < u ==> SomeTarget(tr, v, i.preTargets);
        assert InfoHoldsWith(tr, t, i, u);
      }
    }
    if u :| InfoHoldsWith(tr, t, i, u) {
      var l := v => SomeTarget(tr, v, i.preTargets);
      assert forall v :: l(v) <==> SomeTarget(tr, v, i.preTargets);
      assert InBounds(i.specs.bounds, if i.icType.Since? then t - u else u - t);
    }
  }

  lemma InfoHoldsAtDistance(tr: Trace, t: real, s: StateSpec, id: string, acts: seq<ActionName>, d: real)
    requires CompileState(s, id, acts).Ok? && CompileState(s, id, acts).value.BinaryInfo? && d >= 0.0
    ensures var i := CompileState(s, id, acts).value; var past := i.icType.Since?;
      InfoHoldsWith(tr, t, i, At(past, t, d)) <==> MergedHoldsAt(Seen(tr, t, past), Parts(s), d)
  {
    var i := CompileState(s, id, acts).value;
    var past := i.icType.Since?;
    var w := Seen(tr, t, past);
    InfoHasAllStates(s, id, acts);
    forall e
      ensures SomeIn(w, e, Pre(Parts(s))) <==> SomeTarget(tr, At(past, t, e), i.preTargets)
      ensures SomeIn(w, e, Post(Parts(s))) <==> SomeTarget(tr, At(past, t, e), i.specs.targets)
    {
      SomeTargetIsSomeIn(tr, t, past, e, i.preTargets);
      SomeTargetIsSomeIn(tr, t, past, e, i.specs.targets);
    }
    UntilByDistance(past, t, d, v => SomeTarget(tr, v, i.preTargets), e => SomeIn(w, e, Pre(Parts(s))));
  }

  lemma InfoByDistance(tr: Trace, t: real, s: StateSpec, id: string, acts: seq<ActionName>)
    requires CompileState(s, id, acts).Ok? && CompileState(s, id, acts).value.BinaryInfo?
    ensures InfoHolds(tr, t, CompileState(s, id, acts).value) <==>
            MergedHolds(Seen(tr, t, CompileState(s, id, acts).value.icType.Since?), Parts(s))
  {
    var i := CompileState(s, id, acts).value;
    var past := i.icType.Since?;
    InfoHasAllStates(s, id, acts);
    InfoHoldsByWitness(tr, t, i);
    if u :| InfoHoldsWith(tr, t, i, u) {
      var d := if past then t - u else u - t;
      InfoHoldsAtDistance(tr, t, s, id, acts, d);
      assert At(past, t, d) == u && MergedHoldsAt(Seen(tr, t, past), Parts(s), d);
    }
    if MergedHolds(Seen(tr, t, past), Parts(s)) {
      var d :| MergedHoldsAt(Seen(tr, t, past), Parts(s), d);
      InfoHoldsAtDistance(tr, t, s, id, acts, d);
      assert InfoHoldsWith(tr, t, i, At(past, t, d));
    }
  }

  /** Whatever sinces or untils are merged, and whatever their bounds: the info holds where the spec does. */
  lemma BinaryInfosOnlyWeaken(tr: Trace, t: real, s: StateSpec, id: string, acts: seq<ActionName>)
    requires CompileState(s, id, acts).Ok? && CompileState(s, id, acts).value.BinaryInfo?
    requires Holds(tr, t, s)
    ensures InfoHolds(tr, t, CompileState(s, id, acts).value)
  {
    SpecByDistance(tr, t, s, id, acts);
    InfoByDistance(tr, t, s, id, acts);
    MergingWeakens(Seen(tr, t, CompileState(s, id, acts).value.icType.Since?), Parts(s));
  }

  lemma SameTrace(v: Trace, w: Trace, ps: seq<Part>)
    requires forall x, d :: v(x, d) == w(x, d)
    requires AnyHolds(v, ps)
    ensures AnyHolds(w, ps)
  {
    var i, d :| 0 <= i < |ps| && PartHoldsAt(v, ps[i], d);
    forall e, xs | SomeIn(v, e, xs) ensures SomeIn(w, e, xs) {
      var x :| x in xs && v(x, e);
      assert w(x, e);
    }
    assert PartHoldsAt(w, ps[i], d);
  }

  lemma SameMergedTrace(v: Trace, w: Trace, ps: seq<Part>)
    requires forall x, d :: v(x, d) == w(x, d)
    requires MergedHolds(v, ps)
    ensures MergedHolds(w, ps)
  {
    var d :| MergedHoldsAt(v, ps, d);
    forall e, xs | SomeIn(v, e, xs) ensures SomeIn(w, e, xs) {
      var x :| x in xs && v(x, e);
      assert w(x, e);
    }
    assert MergedHoldsAt(w, ps, d);
  }

  lemma FaithfulFromMeaning(s: StateSpec, id: string, acts: seq<ActionName>)
    requires CompileState(s, id, acts).Ok? && CompileState(s, id, acts).value.BinaryInfo?
    requires KeepsMeaning(Parts(s))
    ensures Faithful(s, CompileState(s, id, acts).value)
  {
    var i := CompileState(s, id, acts).value;
    forall tr: Trace, t ensures Holds(tr, t, s) <==> InfoHolds(tr, t, i) {
      SpecByDistance(tr, t, s, id, acts);
      InfoByDistance(tr, t, s, id, acts);
      var w := Seen(tr, t, i.icType.Since?);
      assert AnyHolds(w, Parts(s)) <==> MergedHolds(w, Parts(s));
    }
  }

  /** Every view is the view of some trace from time 0. */
  lemma TraceOf(w: Trace, past: bool) returns (tr: Trace)
    ensures forall x, d :: Seen(tr, 0.0, past)(x, d) == w(x, d)
  {
    tr := (x: StateBasic, u: real) => w(x, if past then -u else u);
    forall x, d ensures Seen(tr, 0.0, past)(x, d) == w(x, d) {
      assert -(0.0 - d) == d;
    }
  }

  lemma MeaningFromFaithful(s: StateSpec, id: string, acts: seq<ActionName>, w: Trace)
    requires CompileState(s, id, acts).Ok? && CompileState(s, id, acts).value.BinaryInfo?
    requires Faithful(s, CompileState(s, id, acts).value) && MergedHolds(w, Parts(s))
    ensures AnyHolds(w, Parts(s))
  {
    var i := CompileState(s, id, acts).value;
    var past := i.icType.Since?;
    var tr := TraceOf(w, past);
    SameMergedTrace(w, Seen(tr, 0.0, past), Parts(s));
    InfoByDistance(tr, 0.0, s, id, acts);
    assert Holds(tr, 0.0, s) <==> InfoHolds(tr, 0.0, i);
    SpecByDistance(tr, 0.0, s, id, acts);
    SameTrace(Seen(tr, 0.0, past), w, Parts(s));
  }

  lemma FaithfulIffKeepsMeaning(s: StateSpec, id: string, acts: seq<ActionName>)
    requires CompileState(s, id, acts).Ok? && CompileState(s, id, acts).value.BinaryInfo?
    ensures Faithful(s, CompileState(s, id, acts).value) <==> KeepsMeaning(Parts(s))
  {
    if KeepsMeaning(Parts(s)) { FaithfulFromMeaning(s, id, acts); }
    if Faithful(s, CompileState(s, id, acts).value) {
      forall w: Trace ensures AnyHolds(w, Parts(s)) <==> MergedHolds(w, Parts(s)) {
        if AnyHolds(w, Parts(s)) { MergingWeakens(w, Parts(s)); }
        if MergedHolds(w, Parts(s)) { MeaningFromFaithful(s, id, acts, w); }
      }
    }
  }

  /**
   * A disjunction of sinces or of untils keeps its meaning exactly when its parts are covered. Where a
   * left state can also be a right state, this takes the completeness of the real numbers; that coverage
   * is necessary never does.
   */
  lemma DisjunctionIsFaithfulIffCovered(s: StateSpec, id: string, acts: seq<ActionName>)
    requires CompileState(s, id, acts).Ok? && CompileState(s, id, acts).value.BinaryInfo?
    ensures Faithful(s, CompileState(s, id, acts).value) ==> Covered(Parts(s))
    ensures Complete() || Strict(Parts(s)) == {} || Pre(Parts(s)) * Post(Parts(s)) == {} ==>
              (Faithful(s, CompileState(s, id, acts).value) <==> Covered(Parts(s)))
  {
    FaithfulIffKeepsMeaning(s, id, acts);
    MergingKeepsMeaningIffCovered(Parts(s));
  }
}
