/** The after-parser that turns a flat list of operands and operators into a binary tree. */
module Precedence {

  /** One list element: an operand together with the operator that follows it. */
  datatype Token<A, O> = Token(operand: A, op: O)

  datatype Tree<A, O> = Leaf(atom: A) | Node(lhs: Tree<A, O>, op: O, rhs: Tree<A, O>)

  /** The root that the parser returns, and the number of operation objects it allocated on the way. */
  datatype Built<A, O> = Built(root: Tree<A, O>, nodes: nat)

  // ---------------------------------------------------------------- the parser

  /** The grammar calls the parser with at least one (operand, operator) pair. */
  function Build<A, O>(prec: O -> nat, vec: seq<Token<A, O>>, last: A): (b: Built<A, O>)
    requires |vec| >= 1
    ensures b.root.Node?
    decreases |vec|
  {
    if |vec| == 1 then
      Built(Node(Leaf(vec[0].operand), vec[0].op, Leaf(last)), 1)
    else
      var op := vec[0].op;
      var rhs := Build(prec, vec[1..], last);
      if prec(rhs.root.op) > prec(op) then
        Built(Node(Leaf(vec[0].operand), op, rhs.root), rhs.nodes + 1)
      else
        var back := vec[|vec| - 1];
        var lhs := Build(prec, vec[..|vec| - 1], back.operand);
        Built(Node(lhs.root, back.op, Leaf(last)), rhs.nodes + lhs.nodes + 1)
  }

  function Parse<A, O>(prec: O -> nat, vec: seq<Token<A, O>>, last: A): Tree<A, O>
    requires |vec| >= 1
  {
    Build(prec, vec, last).root
  }

  // ---------------------------------------------------------------- what a tree says

  /** In-order reading of a tree: every operand but the last, each with the operator after it. */
  function Tokens<A, O>(t: Tree<A, O>): seq<Token<A, O>> {
    match t
    case Leaf(_) => []
    case Node(l, op, r) => Tokens(l) + [Token(LastAtom(l), op)] + Tokens(r)
  }

  function LastAtom<A, O>(t: Tree<A, O>): A {
    match t
    case Leaf(a) => a
    case Node(_, _, r) => LastAtom(r)
  }

  predicate Reads<A(==), O(==)>(t: Tree<A, O>, vec: seq<Token<A, O>>, last: A) {
    Tokens(t) == vec && LastAtom(t) == last
  }

  /** Higher precedence binds tighter, and operators of equal precedence associate to the left. */
  predicate PrecedenceCorrect<A, O>(prec: O -> nat, t: Tree<A, O>) {
    match t
    case Leaf(_) => true
    case Node(l, op, r) =>
      && (l.Node? ==> prec(l.op) >= prec(op))
      && (r.Node? ==> prec(r.op) > prec(op))
      && PrecedenceCorrect(prec, l)
      && PrecedenceCorrect(prec, r)
  }

  /** The operators' precedences, in source order. */
  function Precs<A, O>(prec: O -> nat, vec: seq<Token<A, O>>): (ps: seq<nat>)
    ensures |ps| == |vec|
    ensures forall i :: 0 <= i < |vec| ==> ps[i] == prec(vec[i].op)
  {
    seq<nat>(|vec|, i requires 0 <= i < |vec| => prec(vec[i].op))
  }

  /** No operator sits below its right neighbour without sitting above its left one. */
  predicate NoValley(ps: seq<nat>) {
    forall i :: 0 <= i && i + 2 < |ps| ==> !(ps[i] >= ps[i + 1] && ps[i + 1] < ps[i + 2])
  }

  /** Every inner node has an operand of the source list as one of its children. */
  predicate Comb<A, O>(t: Tree<A, O>) {
    match t
    case Leaf(_) => true
    case Node(l, _, r) => (l.Leaf? || r.Leaf?) && Comb(l) && Comb(r)
  }

  function Size<A, O>(t: Tree<A, O>): nat {
    match t
    case Leaf(_) => 0
    case Node(l, _, r) => Size(l) + 1 + Size(r)
  }

  // ---------------------------------------------------------------- the source list is preserved

  lemma {:induction false} ParseReadsSource<A, O>(prec: O -> nat, vec: seq<Token<A, O>>, last: A)
    requires |vec| >= 1
    ensures Reads(Parse(prec, vec, last), vec, last)
    ensures Comb(Parse(prec, vec, last))
    ensures Size(Parse(prec, vec, last)) == |vec|
    decreases |vec|
  {
    var n := |vec|;
    if n > 1 {
      var rhs := Parse(prec, vec[1..], last);
      ParseReadsSource(prec, vec[1..], last);
      if prec(rhs.op) > prec(vec[0].op) {
        assert vec == [Token(vec[0].operand, vec[0].op)] + vec[1..];
      } else {
        ParseReadsSource(prec, vec[..n - 1], vec[n - 1].operand);
        assert vec == vec[..n - 1] + [Token(vec[n - 1].operand, vec[n - 1].op)];
      }
    }
  }

  // ---------------------------------------------------------------- the intended tree

  predicate IsRightmostMinimum(ps: seq<nat>, k: nat) {
    && k < |ps|
    && (forall i :: 0 <= i < k ==> ps[i] >= ps[k])
    && (forall i :: k < i < |ps| ==> ps[i] > ps[k])
  }

  /** In a correct tree the root is the rightmost operator of least precedence. */
  lemma {:induction false} RootIsRightmostMinimum<A, O>(prec: O -> nat, t: Tree<A, O>)
    requires t.Node? && PrecedenceCorrect(prec, t)
    ensures IsRightmostMinimum(Precs(prec, Tokens(t)), |Tokens(t.lhs)|)
  {
    var ps, ls, rs := Precs(prec, Tokens(t)), Precs(prec, Tokens(t.lhs)), Precs(prec, Tokens(t.rhs));
    assert ps == ls + [prec(t.op)] + rs;
    if t.lhs.Node? {
      RootIsRightmostMinimum(prec, t.lhs);
      assert ls[|Tokens(t.lhs.lhs)|] == prec(t.lhs.op);
    }
    if t.rhs.Node? {
      RootIsRightmostMinimum(prec, t.rhs);
      assert rs[|Tokens(t.rhs.lhs)|] == prec(t.rhs.op);
    }
    assert forall p <- ls :: p >= prec(t.op);
    assert forall p <- rs :: p > prec(t.op);
  }

  lemma RightmostMinimumIsUnique(ps: seq<nat>, i: nat, j: nat)
    requires IsRightmostMinimum(ps, i) && IsRightmostMinimum(ps, j)
    ensures i == j
  {
    var p, q := ps[i], ps[j];
  }

  /** At most one correct tree reads as a given list. */
  lemma {:induction false} CorrectTreeIsUnique<A, O>(prec: O -> nat, t: Tree<A, O>, u: Tree<A, O>)
    requires PrecedenceCorrect(prec, t) && PrecedenceCorrect(prec, u)
    requires Tokens(t) == Tokens(u) && LastAtom(t) == LastAtom(u)
    ensures t == u
  {
    var vec := Tokens(t);
    if t.Node? && u.Node? {
      RootIsRightmostMinimum(prec, t);
      RootIsRightmostMinimum(prec, u);
      var i := |Tokens(t.lhs)|;
      RightmostMinimumIsUnique(Precs(prec, vec), i, |Tokens(u.lhs)|);
      assert Tokens(t.lhs) == vec[..i] == Tokens(u.lhs);
      assert Tokens(t.rhs) == vec[i + 1..] == Tokens(u.rhs);
      assert vec[i] == Token(LastAtom(t.lhs), t.op) == Token(LastAtom(u.lhs), u.op);
      CorrectTreeIsUnique(prec, t.lhs, u.lhs);
      CorrectTreeIsUnique(prec, t.rhs, u.rhs);
    }
  }

  function RightmostMinimum(ps: seq<nat>): (k: nat)
    requires |ps| >= 1
    ensures IsRightmostMinimum(ps, k)
  {
    var n := |ps| - 1;
    if n == 0 then 0
    else
      var k := RightmostMinimum(ps[..n]);
      if ps[n] <= ps[k] then n else k
  }

  /** Reference parser: always split at the rightmost operator of least precedence. */
  function Ideal<A, O>(prec: O -> nat, vec: seq<Token<A, O>>, last: A): (t: Tree<A, O>)
    decreases |vec|
  {
    if vec == [] then Leaf(last)
    else
      var k := RightmostMinimum(Precs(prec, vec));
      Node(Ideal(prec, vec[..k], vec[k].operand), vec[k].op, Ideal(prec, vec[k + 1..], last))
  }

  lemma {:induction false} IdealReadsSource<A, O>(prec: O -> nat, vec: seq<Token<A, O>>, last: A)
    ensures Reads(Ideal(prec, vec, last), vec, last)
    decreases |vec|
  {
    if vec != [] {
      var k := RightmostMinimum(Precs(prec, vec));
      IdealReadsSource(prec, vec[..k], vec[k].operand);
      IdealReadsSource(prec, vec[k + 1..], last);
      assert vec == vec[..k] + [Token(vec[k].operand, vec[k].op)] + vec[k + 1..];
    }
  }

  /** A correct tree exists for every list. */
  lemma {:induction false} IdealIsCorrect<A, O>(prec: O -> nat, vec: seq<Token<A, O>>, last: A)
    ensures PrecedenceCorrect(prec, Ideal(prec, vec, last))
    decreases |vec|
  {
    if vec != [] {
      var ps := Precs(prec, vec);
      var k := RightmostMinimum(ps);
      IdealIsCorrect(prec, vec[..k], vec[k].operand);
      IdealIsCorrect(prec, vec[k + 1..], last);
      if k > 0 {
        var m := RightmostMinimum(Precs(prec, vec[..k]));
        assert vec[..k][m] == vec[m] && ps[m] >= ps[k];
      }
      if k + 1 < |vec| {
        var m := RightmostMinimum(Precs(prec, vec[k + 1..]));
        assert vec[k + 1..][m] == vec[k + 1 + m] && ps[k + 1 + m] > ps[k];
      }
    }
  }

  // ---------------------------------------------------------------- when the parser is right

  /** Once the precedences have failed to rise, they never rise again. */
  lemma {:induction false} NoRiseAfter(ps: seq<nat>, i: nat, j: nat)
    requires NoValley(ps) && i < j && j < |ps| && ps[i] >= ps[i + 1]
    ensures ps[j - 1] >= ps[j]
    decreases j
  {
    if j > i + 1 {
      NoRiseAfter(ps, i, j - 1);
      assert !(ps[j - 2] >= ps[(j - 2) + 1] && ps[(j - 2) + 1] < ps[(j - 2) + 2]);
    }
  }

  lemma {:induction false} FallingFrom(ps: seq<nat>, i: nat, x: nat, y: nat)
    requires NoValley(ps) && i <= x <= y < |ps| && i + 1 < |ps| && ps[i] >= ps[i + 1]
    ensures ps[x] >= ps[y]
    decreases y - x
  {
    if x < y {
      NoRiseAfter(ps, i, y);
      FallingFrom(ps, i, x, y - 1);
    }
  }

  /** If a later precedence is not above the first, there is a first place where they fail to rise. */
  lemma {:induction false} FirstFall(ps: seq<nat>, k: nat) returns (i: nat)
    requires 1 <= k < |ps| && ps[k] <= ps[0]
    ensures i < k && ps[i] >= ps[i + 1]
    ensures forall x :: 0 <= x <= i ==> ps[0] <= ps[x]
  {
    i := 0;
    while ps[i] < ps[i + 1]
      invariant i < k
      invariant forall x :: 0 <= x <= i ==> ps[0] <= ps[x] <= ps[i]
      decreases k - i
    {
      i := i + 1;
    }
  }

  /** If some later operator is not above the first, the last operator is a least one. */
  lemma LastIsMinimum(ps: seq<nat>, k: nat)
    requires NoValley(ps) && 1 <= k < |ps| && ps[k] <= ps[0]
    ensures forall x :: 0 <= x < |ps| ==> ps[x] >= ps[|ps| - 1]
  {
    var i := FirstFall(ps, k);
    forall x | 0 <= x < |ps| ensures ps[x] >= ps[|ps| - 1] {
      FallingFrom(ps, i, if x < i then k else x, |ps| - 1);
    }
  }

  lemma RootPosition<A, O>(prec: O -> nat, vec: seq<Token<A, O>>, last: A) returns (k: nat)
    requires |vec| >= 1
    ensures k < |vec| && vec[k].op == Parse(prec, vec, last).op
  {
    ParseReadsSource(prec, vec, last);
    k := |Tokens(Parse(prec, vec, last).lhs)|;
  }

  /** When the parser splits at the last operator of a list without valley, that operator is a least one. */
  lemma SplitAtLastIsAtLeast<A, O>(prec: O -> nat, vec: seq<Token<A, O>>, last: A)
    requires |vec| >= 2 && NoValley(Precs(prec, vec))
    requires prec(Parse(prec, vec[1..], last).op) <= prec(vec[0].op)
    ensures forall x :: 0 <= x < |vec| ==> prec(vec[x].op) >= prec(vec[|vec| - 1].op)
  {
    var ps := Precs(prec, vec);
    var k := RootPosition(prec, vec[1..], last);
    assert ps[k + 1] == prec(vec[1..][k].op);
    LastIsMinimum(ps, k + 1);
    forall x | 0 <= x < |vec| ensures prec(vec[x].op) >= prec(vec[|vec| - 1].op) {
      assert ps[x] >= ps[|vec| - 1];
    }
  }

  lemma {:induction false} NoValleyParsesCorrectly<A, O>(prec: O -> nat, vec: seq<Token<A, O>>, last: A)
    requires |vec| >= 1 && NoValley(Precs(prec, vec))
    ensures PrecedenceCorrect(prec, Parse(prec, vec, last))
    decreases |vec|
  {
    var n := |vec|;
    if n > 1 {
      var tail, init := vec[1..], vec[..n - 1];
      assert NoValley(Precs(prec, tail)) by { assert Precs(prec, tail) == Precs(prec, vec)[1..]; }
      NoValleyParsesCorrectly(prec, tail, last);
      if prec(Parse(prec, tail, last).op) <= prec(vec[0].op) {
        assert NoValley(Precs(prec, init)) by { assert Precs(prec, init) == Precs(prec, vec)[..n - 1]; }
        NoValleyParsesCorrectly(prec, init, vec[n - 1].operand);
        var m := RootPosition(prec, init, vec[n - 1].operand);
        assert init[m] == vec[m];
        SplitAtLastIsAtLeast(prec, vec, last);
        assert prec(vec[m].op) >= prec(vec[n - 1].op);
      }
    }
  }

  lemma {:induction false} CorrectCombHasNoValley<A, O>(prec: O -> nat, t: Tree<A, O>)
    requires Comb(t) && PrecedenceCorrect(prec, t)
    ensures NoValley(Precs(prec, Tokens(t)))
  {
    if t.Node? {
      RootIsRightmostMinimum(prec, t);
      CorrectCombHasNoValley(prec, t.lhs);
      CorrectCombHasNoValley(prec, t.rhs);
      var ps, ls, rs := Precs(prec, Tokens(t)), Precs(prec, Tokens(t.lhs)), Precs(prec, Tokens(t.rhs));
      var k := |ls|;
      assert ps == ls + [prec(t.op)] + rs && ps[k] == prec(t.op);
      if t.lhs.Leaf? {
        assert forall i :: 0 <= i < |rs| ==> rs[i] == ps[i + 1];
        ConsNoValley(prec(t.op), rs);
        assert ps == [prec(t.op)] + rs;
      } else {
        assert forall i :: 0 <= i < |ls| ==> ls[i] == ps[i];
        SnocNoValley(ls, prec(t.op));
        assert ps == ls + [prec(t.op)];
      }
    }
  }

  lemma ConsNoValley(p: nat, ps: seq<nat>)
    requires NoValley(ps) && forall i :: 0 <= i < |ps| ==> ps[i] > p
    ensures NoValley([p] + ps)
  {
    var s := [p] + ps;
    forall i | 0 <= i && i + 2 < |s| ensures !(s[i] >= s[i + 1] && s[i + 1] < s[i + 2]) {
      assert s[i + 1] == ps[i] && s[i + 2] == ps[i + 1];
      if i > 0 { assert ps[i + 1] == ps[(i - 1) + 2] && s[i] == ps[i - 1]; }
    }
  }

  lemma SnocNoValley(ps: seq<nat>, p: nat)
    requires NoValley(ps) && forall i :: 0 <= i < |ps| ==> ps[i] >= p
    ensures NoValley(ps + [p])
  {
    var s := ps + [p];
    forall i | 0 <= i && i + 2 < |s| ensures !(s[i] >= s[i + 1] && s[i + 1] < s[i + 2]) {
      assert s[i] == ps[i] && s[i + 1] == ps[i + 1];
      if i + 2 < |ps| { assert s[i + 2] == ps[i + 2]; }
    }
  }

  /**
   * The parser builds the correct tree exactly when the operators have no valley; otherwise it
   * differs from the (unique) correct tree, which exists in every case.
   */
  lemma {:induction false} ParserIsCorrectIffNoValley<A, O>(prec: O -> nat, vec: seq<Token<A, O>>, last: A)
    requires |vec| >= 1
    ensures PrecedenceCorrect(prec, Parse(prec, vec, last)) <==> NoValley(Precs(prec, vec))
    ensures Parse(prec, vec, last) == Ideal(prec, vec, last) <==> NoValley(Precs(prec, vec))
  {
    var t := Parse(prec, vec, last);
    ParseReadsSource(prec, vec, last);
    IdealReadsSource(prec, vec, last);
    IdealIsCorrect(prec, vec, last);
    if NoValley(Precs(prec, vec)) {
      NoValleyParsesCorrectly(prec, vec, last);
      CorrectTreeIsUnique(prec, t, Ideal(prec, vec, last));
    } else if PrecedenceCorrect(prec, t) {
      CorrectCombHasNoValley(prec, t);
    }
  }

  /** The smallest lists that go wrong: what the parser makes of a valley, and what was meant. */
  lemma ValleyIsMisread<A, O>(prec: O -> nat, x: Token<A, O>, y: Token<A, O>, z: Token<A, O>, last: A)
    requires prec(x.op) >= prec(y.op) && prec(y.op) < prec(z.op)
    ensures Parse(prec, [x, y, z], last)
         == Node(Node(Node(Leaf(x.operand), x.op, Leaf(y.operand)), y.op, Leaf(z.operand)), z.op, Leaf(last))
    ensures Ideal(prec, [x, y, z], last)
         == Node(Node(Leaf(x.operand), x.op, Leaf(y.operand)), y.op, Node(Leaf(z.operand), z.op, Leaf(last)))
  {
    var vec := [x, y, z];
    assert vec[1..] == [y, z] && vec[..2] == [x, y] && vec[2..] == [z];
    ParsePair(prec, y, z, last);
    ParsePair(prec, x, y, z.operand);
    IdealReadsSource(prec, vec, last);
    IdealIsCorrect(prec, vec, last);
    var t := Node(Node(Leaf(x.operand), x.op, Leaf(y.operand)), y.op, Node(Leaf(z.operand), z.op, Leaf(last)));
    LeavesRead(x.operand, x.op, y.operand);
    LeavesRead(z.operand, z.op, last);
    assert Tokens(t) == [x] + [y] + [z] && LastAtom(t) == last;
    CorrectTreeIsUnique(prec, t, Ideal(prec, vec, last));
  }

  lemma LeavesRead<A, O>(a: A, op: O, b: A)
    ensures Reads(Node(Leaf(a), op, Leaf(b)), [Token(a, op)], b)
  {
  }

  lemma ParsePair<A, O>(prec: O -> nat, x: Token<A, O>, y: Token<A, O>, last: A)
    ensures Parse(prec, [x, y], last)
         == if prec(y.op) > prec(x.op)
            then Node(Leaf(x.operand), x.op, Node(Leaf(y.operand), y.op, Leaf(last)))
            else Node(Node(Leaf(x.operand), x.op, Leaf(y.operand)), y.op, Leaf(last))
  {
    assert [x, y][1..] == [y] && [x, y][..1] == [x];
    assert Parse(prec, [y], last) == Node(Leaf(y.operand), y.op, Leaf(last));
    assert Parse(prec, [x], y.operand) == Node(Leaf(x.operand), x.op, Leaf(y.operand));
  }

  // ---------------------------------------------------------------- how much is allocated

  function Pow2(n: nat): nat {
    if n == 0 then 1 else 2 * Pow2(n - 1)
  }

  predicate StrictlyRising(ps: seq<nat>) {
    forall i :: 0 < i < |ps| ==> ps[i - 1] < ps[i]
  }

  predicate NeverRising(ps: seq<nat>) {
    forall i :: 0 < i < |ps| ==> ps[i - 1] >= ps[i]
  }

  /** Both properties can be read off the list without its first or without its last element. */
  lemma MonotoneSlices(ps: seq<nat>)
    requires |ps| >= 2
    ensures StrictlyRising(ps) <==> ps[0] < ps[1] && StrictlyRising(ps[1..])
    ensures NeverRising(ps) <==> ps[0] >= ps[1] && NeverRising(ps[1..])
    ensures NeverRising(ps) ==> NeverRising(ps[..|ps| - 1])
  {
    var tail := ps[1..];
    assert ps[0] < ps[1] && StrictlyRising(tail) ==> StrictlyRising(ps) by {
      if ps[0] < ps[1] && StrictlyRising(tail) {
        forall i | 0 < i < |ps| ensures ps[i - 1] < ps[i] {
          if i > 1 { assert tail[i - 2] < tail[i - 1]; }
        }
      }
    }
    assert ps[0] >= ps[1] && NeverRising(tail) ==> NeverRising(ps) by {
      if ps[0] >= ps[1] && NeverRising(tail) {
        forall i | 0 < i < |ps| ensures ps[i - 1] >= ps[i] {
          if i > 1 { assert tail[i - 2] >= tail[i - 1]; }
        }
      }
    }
    assert forall i :: 0 <= i < |tail| ==> tail[i] == ps[i + 1];
  }

  lemma {:induction false} NeverRisingFromFirst(ps: seq<nat>, j: nat)
    requires NeverRising(ps) && j < |ps|
    ensures ps[0] >= ps[j]
  {
    if j > 0 { NeverRisingFromFirst(ps, j - 1); }
  }

  /** Root of the tree of a strictly rising list is its first operator, of a never rising one its last. */
  lemma {:induction false} RootOfMonotoneList<A, O>(prec: O -> nat, vec: seq<Token<A, O>>, last: A)
    requires |vec| >= 1
    ensures StrictlyRising(Precs(prec, vec)) ==> Parse(prec, vec, last).op == vec[0].op
    ensures NeverRising(Precs(prec, vec)) ==> Parse(prec, vec, last).op == vec[|vec| - 1].op
    decreases |vec|
  {
    var ps := Precs(prec, vec);
    if |vec| > 1 {
      RootOfMonotoneList(prec, vec[1..], last);
      MonotoneSlices(ps);
      assert Precs(prec, vec[1..]) == ps[1..];
      if NeverRising(ps) { NeverRisingFromFirst(ps, |vec| - 1); }
    }
  }

  lemma {:induction false} FewestNodes<A, O>(prec: O -> nat, vec: seq<Token<A, O>>, last: A)
    requires |vec| >= 1
    ensures |vec| <= Build(prec, vec, last).nodes
    ensures Build(prec, vec, last).nodes == |vec| <==> StrictlyRising(Precs(prec, vec))
    decreases |vec|
  {
    var n, ps := |vec|, Precs(prec, vec);
    if n > 1 {
      var tail := vec[1..];
      FewestNodes(prec, tail, last);
      RootOfMonotoneList(prec, tail, last);
      MonotoneSlices(ps);
      assert Precs(prec, tail) == ps[1..];
    }
  }

  lemma {:induction false} MostNodes<A, O>(prec: O -> nat, vec: seq<Token<A, O>>, last: A)
    requires |vec| >= 1
    ensures Build(prec, vec, last).nodes <= Pow2(|vec|) - 1
    ensures Build(prec, vec, last).nodes == Pow2(|vec|) - 1 <==> NeverRising(Precs(prec, vec))
    decreases |vec|
  {
    var n, ps := |vec|, Precs(prec, vec);
    if n > 1 {
      var tail, init := vec[1..], vec[..n - 1];
      MostNodes(prec, tail, last);
      RootOfMonotoneList(prec, tail, last);
      Pow2AtLeast(n - 1);
      MonotoneSlices(ps);
      assert Precs(prec, tail) == ps[1..];
      if prec(Parse(prec, tail, last).op) > prec(vec[0].op) {
        if NeverRising(ps) { NeverRisingFromFirst(ps, n - 1); }
      } else {
        MostNodes(prec, init, vec[n - 1].operand);
        assert Precs(prec, init) == ps[..n - 1];
        if n > 2 { MonotoneSlices(ps[..n - 1]); }
      }
    }
  }

  /**
   * For n operators the parser allocates between n and 2^n - 1 nodes. The lower bound is met
   * exactly by strictly rising precedences, the upper one exactly by precedences that never rise.
   */
  lemma AllocationBounds<A, O>(prec: O -> nat, vec: seq<Token<A, O>>, last: A)
    requires |vec| >= 1
    ensures |vec| <= Build(prec, vec, last).nodes <= Pow2(|vec|) - 1
    ensures Build(prec, vec, last).nodes == |vec| <==> StrictlyRising(Precs(prec, vec))
    ensures Build(prec, vec, last).nodes == Pow2(|vec|) - 1 <==> NeverRising(Precs(prec, vec))
  {
    FewestNodes(prec, vec, last);
    MostNodes(prec, vec, last);
  }

  lemma Pow2AtLeast(n: nat)
    ensures Pow2(n) >= n + 1
  {
    if n > 0 { Pow2AtLeast(n - 1); }
  }

  /** The nodes that the returned tree does not contain are lost, unless the precedences strictly rise. */
  lemma LeakedNodes<A, O>(prec: O -> nat, vec: seq<Token<A, O>>, last: A)
    requires |vec| >= 1
    ensures Build(prec, vec, last).nodes == Size(Parse(prec, vec, last)) <==> StrictlyRising(Precs(prec, vec))
  {
    ParseReadsSource(prec, vec, last);
    AllocationBounds(prec, vec, last);
  }
}
