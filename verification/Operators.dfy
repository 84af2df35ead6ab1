/** The operator tables that the after-parser is used with, and lists it gets wrong. */
module Operators {
  import opened Precedence

  // ---------------------------------------------------------------- arithmetic

  datatype ArithmeticOperator = ADDITION | SUBTRACTION | MULTIPLICATION | DIVISION | MODULO | POWER

  function ArithmeticPrecedence(op: ArithmeticOperator): nat {
    match op
    case ADDITION | SUBTRACTION => 1
    case MULTIPLICATION | DIVISION | MODULO => 2
    case POWER => 3
  }

  predicate IsSum(op: ArithmeticOperator) { op == ADDITION || op == SUBTRACTION }
  predicate IsProduct(op: ArithmeticOperator) { op == MULTIPLICATION || op == DIVISION || op == MODULO }

  /** `a + b * c` is `a + (b * c)`, `a * b ** c` is `a * (b ** c)`, and everything else leans to the left. */
  lemma ArithmeticPairs(a: int, p: ArithmeticOperator, b: int, q: ArithmeticOperator, c: int)
    ensures Parse(ArithmeticPrecedence, [Token(a, p), Token(b, q)], c)
         == if (IsSum(p) && (IsProduct(q) || q == POWER)) || (IsProduct(p) && q == POWER)
            then Node(Leaf(a), p, Node(Leaf(b), q, Leaf(c)))
            else Node(Node(Leaf(a), p, Leaf(b)), q, Leaf(c))
  {
    ParsePair(ArithmeticPrecedence, Token(a, p), Token(b, q), c);
  }

  /** Value of an arithmetic tree built from sums, differences and products of integers. */
  function Value(t: Tree<int, ArithmeticOperator>): int {
    match t
    case Leaf(n) => n
    case Node(l, ADDITION, r) => Value(l) + Value(r)
    case Node(l, SUBTRACTION, r) => Value(l) - Value(r)
    case Node(l, MULTIPLICATION, r) => Value(l) * Value(r)
    case Node(_, _, _) => 0
  }

  /** a*b + c*d is read as (a*b + c)*d, and the two differ in value for some numbers. */
  lemma SumOfProductsIsMisread(a: int, b: int, c: int, d: int)
    ensures var vec := [Token(a, MULTIPLICATION), Token(b, ADDITION), Token(c, MULTIPLICATION)];
      && Value(Parse(ArithmeticPrecedence, vec, d)) == (a * b + c) * d
      && Value(Ideal(ArithmeticPrecedence, vec, d)) == a * b + c * d
    ensures (2 * 3 + 4) * 5 != 2 * 3 + 4 * 5
  {
    ValleyIsMisread(ArithmeticPrecedence, Token(a, MULTIPLICATION), Token(b, ADDITION), Token(c, MULTIPLICATION), d);
    var product := Node(Leaf(a), MULTIPLICATION, Leaf(b));
    assert Value(product) == a * b;
    assert Value(Node(product, ADDITION, Leaf(c))) == a * b + c;
    assert Value(Node(Leaf(c), MULTIPLICATION, Leaf(d))) == c * d;
  }

  // ---------------------------------------------------------------- formulas

  datatype BooleanOperator = AND | OR | XOR | IFF | IMPLIES

  function BooleanPrecedence(op: BooleanOperator): nat {
    match op
    case IMPLIES | XOR | IFF => 0
    case OR => 1
    case AND => 2
  }

  predicate IsWeakest(op: BooleanOperator) { op == IMPLIES || op == XOR || op == IFF }

  /** `a => b | c` is `a => (b | c)`, `a | b & c` is `a | (b & c)`, and everything else leans to the left. */
  lemma BooleanPairs(a: bool, p: BooleanOperator, b: bool, q: BooleanOperator, c: bool)
    ensures Parse(BooleanPrecedence, [Token(a, p), Token(b, q)], c)
         == if (IsWeakest(p) && (q == OR || q == AND)) || (p == OR && q == AND)
            then Node(Leaf(a), p, Node(Leaf(b), q, Leaf(c)))
            else Node(Node(Leaf(a), p, Leaf(b)), q, Leaf(c))
  {
    ParsePair(BooleanPrecedence, Token(a, p), Token(b, q), c);
  }

  function Truth(t: Tree<bool, BooleanOperator>): bool {
    match t
    case Leaf(b) => b
    case Node(l, AND, r) => Truth(l) && Truth(r)
    case Node(l, OR, r) => Truth(l) || Truth(r)
    case Node(l, XOR, r) => Truth(l) != Truth(r)
    case Node(l, IFF, r) => Truth(l) == Truth(r)
    case Node(l, IMPLIES, r) => Truth(l) ==> Truth(r)
  }

  /** Every list that joins two conjunctions by a weaker operator is misread, whatever its operands. */
  lemma JoinedConjunctionsAreMisread(a: bool, b: bool, c: bool, d: bool, op: BooleanOperator)
    requires op != AND
    ensures var vec := [Token(a, AND), Token(b, op), Token(c, AND)];
      !PrecedenceCorrect(BooleanPrecedence, Parse(BooleanPrecedence, vec, d))
  {
    var vec := [Token(a, AND), Token(b, op), Token(c, AND)];
    var ps := Precs(BooleanPrecedence, vec);
    ParserIsCorrectIffNoValley(BooleanPrecedence, vec, d);
    assert ps[0] >= ps[0 + 1] && ps[0 + 1] < ps[0 + 2];
  }

  lemma TruthOfConjunction(l: Tree<bool, BooleanOperator>, r: Tree<bool, BooleanOperator>)
    ensures Truth(Node(l, AND, r)) <==> Truth(l) && Truth(r)
    ensures r.Leaf? ==> (Truth(r) <==> r == Leaf(true))
    ensures l.Leaf? ==> (Truth(l) <==> l == Leaf(true))
  {
  }

  /** With every weaker operator this changes what some formula means, whatever its third operand. */
  lemma MisreadFormulaChangesTruth(op: BooleanOperator, c: bool)
    requires op != AND
    ensures exists a, b, d :: TruthAsBuilt(a, b, c, d, op) != TruthAsMeant(a, b, c, d, op)
  {
    var a := op == OR || op == XOR;
    ValleyIsMisread(BooleanPrecedence, Token(a, AND), Token(a, op), Token(c, AND), false);
    var left, right := Node(Leaf(a), AND, Leaf(a)), Node(Leaf(c), AND, Leaf(false));
    TruthOfConjunction(Leaf(a), Leaf(a));
    TruthOfConjunction(Leaf(c), Leaf(false));
    TruthOfConjunction(Node(left, op, Leaf(c)), Leaf(false));
    match op {
      case OR => assert Truth(Node(left, OR, right));
      case XOR => assert Truth(Node(left, XOR, right));
      case IFF => assert Truth(Node(left, IFF, right));
      case IMPLIES => assert Truth(Node(left, IMPLIES, right));
    }
    assert TruthAsBuilt(a, a, c, false, op) != TruthAsMeant(a, a, c, false, op);
  }

  /** The truth of (a & b op c & d) as the parser groups it, and as the precedences demand. */
  function TruthAsBuilt(a: bool, b: bool, c: bool, d: bool, op: BooleanOperator): bool {
    Truth(Parse(BooleanPrecedence, [Token(a, AND), Token(b, op), Token(c, AND)], d))
  }

  function TruthAsMeant(a: bool, b: bool, c: bool, d: bool, op: BooleanOperator): bool {
    Truth(Ideal(BooleanPrecedence, [Token(a, AND), Token(b, op), Token(c, AND)], d))
  }

  lemma OrsThenAnds(ps: seq<nat>, k: nat)
    requires |ps| >= 1 && k <= |ps|
    requires forall i :: 0 <= i < |ps| ==> ps[i] == if i < k then 1 else 2
    ensures NoValley(ps) <==> k <= 1 || k == |ps|
  {
    if 2 <= k < |ps| {
      var i := k - 2;
      assert ps[i] == 1 && ps[i + 1] == 1 && ps[i + 2] == 2;
    }
  }

  /** With two operators only, a list with at most one change from weak to strong is read correctly. */
  lemma ConjunctionsLastAreReadCorrectly(vec: seq<Token<bool, BooleanOperator>>, last: bool, k: nat)
    requires |vec| >= 1 && k <= |vec|
    requires forall i :: 0 <= i < |vec| ==> vec[i].op == if i < k then OR else AND
    ensures Parse(BooleanPrecedence, vec, last) == Ideal(BooleanPrecedence, vec, last) <==> k <= 1 || k == |vec|
  {
    OrsThenAnds(Precs(BooleanPrecedence, vec), k);
    ParserIsCorrectIffNoValley(BooleanPrecedence, vec, last);
  }
}
