/** Values of the language and their encoding as Prolog terms. */
module PrologValues {

  // ---------------------------------------------------------------- types and values

  datatype Type = BoolType | NumberType | SymbolType | StringType | UndefinedType
                | CompoundType(name: string) | ListType(elem: Type)

  function TypeName(t: Type): string {
    match t
    case BoolType => "bool"
    case NumberType => "number"
    case SymbolType => "symbol"
    case StringType => "string"
    case UndefinedType => "~undefined~"
    case CompoundType(n) => n
    case ListType(e) => "list[" + TypeName(e) + "]"
  }

  /** A number in one of the machine representations. */
  datatype Number = UnsignedInt(n: nat) | Int(i: int) | UnsignedLong(n: nat) | Long(i: int) | Double(d: real)

  datatype Value =
    | Bool(b: bool)
    | Num(num: Number)
    | Symbol(s: string)
    | Str(s: string)
    | Compound(compoundType: string, fields: seq<Field>)  // in the iteration order of the hash table
    | List(elemType: Type, elems: seq<Value>)
    | Undefined

  datatype Field = Field(name: string, value: Value)

  function TypeOf(v: Value): Type {
    match v
    case Bool(_) => BoolType
    case Num(_) => NumberType
    case Symbol(_) => SymbolType
    case Str(_) => StringType
    case Compound(n, _) => CompoundType(n)
    case List(t, _) => ListType(t)
    case Undefined => UndefinedType
  }

  /**
   * Declared types by name, the field types of the compound ones, the assignability of one type to
   * another, and the largest value of the platform's long.
   */
  datatype Platform = Platform(types: map<string, Type>, fieldTypes: map<string, map<string, Type>>,
                               assignable: (Type, Type) -> bool, longMax: int)

  const INT_MAX: int := 0x7FFF_FFFF
  const LONG_LONG_MAX: int := 0x7FFF_FFFF_FFFF_FFFF

  ghost predicate ValidPlatform(p: Platform) {
    && INT_MAX <= p.longMax <= LONG_LONG_MAX
    && (forall n <- p.types :: TypeName(p.types[n]) == n)
    && (forall n <- p.fieldTypes :: n in p.types && p.types[n] == CompoundType(n))
    && !p.assignable(StringType, SymbolType)
  }

  predicate InRange(p: Platform, n: Number) {
    match n
    case UnsignedInt(u) => u <= 2 * INT_MAX + 1
    case Int(i) => -INT_MAX - 1 <= i <= INT_MAX
    case UnsignedLong(u) => u <= 2 * p.longMax + 1
    case Long(i) => -p.longMax - 1 <= i <= p.longMax
    case Double(_) => true
  }

  function Numeric(n: Number): real {
    match n
    case UnsignedInt(u) => u as real
    case Int(i) => i as real
    case UnsignedLong(u) => u as real
    case Long(i) => i as real
    case Double(d) => d
  }

  /** Values as the constructors build them: declared fields of assignable type, each once. */
  ghost predicate WellTyped(p: Platform, v: Value) {
    match v
    case Num(n) => InRange(p, n)
    case Compound(t, fs) =>
      && t in p.fieldTypes
      && (forall i, j :: 0 <= i < j < |fs| ==> fs[i].name != fs[j].name)
      && (forall i :: 0 <= i < |fs| ==>
            && fs[i].name in p.fieldTypes[t]
            && p.assignable(p.fieldTypes[t][fs[i].name], TypeOf(fs[i].value))
            && WellTyped(p, fs[i].value))
    case List(_, es) => forall i :: 0 <= i < |es| ==> WellTyped(p, es[i])
    case _ => true
  }

  /** Equality of values, with numbers compared by numeric value and fields by name. */
  ghost predicate Same(v: Value, w: Value)
    decreases v
  {
    match (v, w)
    case (Bool(a), Bool(b)) => a == b
    case (Num(m), Num(n)) => Numeric(m) == Numeric(n)
    case (Symbol(a), Symbol(b)) => a == b
    case (Str(a), Str(b)) => a == b
    case (Compound(t, fs), Compound(u, gs)) =>
      && t == u
      && |fs| == |gs|
      && forall i :: 0 <= i < |fs| ==> SameFieldIn(fs[i], gs)
    case (List(t, es), List(u, hs)) =>
      && TypeName(t) == TypeName(u)
      && |es| == |hs|
      && forall i :: 0 <= i < |es| ==> Same(es[i], hs[i])
    case (Undefined, Undefined) => true
    case _ => false
  }

  ghost predicate SameFieldIn(f: Field, gs: seq<Field>)
    decreases f
  {
    exists j :: 0 <= j < |gs| && f.name == gs[j].name && Same(f.value, gs[j].value)
  }

  // ---------------------------------------------------------------- Prolog terms

  datatype Term = Atom(name: string) | Integer(i: int) | Float(d: real) | Text(s: string)
                | Struct(functor: string, args: seq<Term>)

  function Nil(): Term { Atom("[]") }
  function Cons(head: Term, tail: Term): Term { Struct(".", [head, tail]) }
  predicate IsStruct(t: Term, functor: string, arity: nat) {
    t.Struct? && t.functor == functor && |t.args| == arity
  }
  predicate IsCons(t: Term) { IsStruct(t, ".", 2) }

  datatype Result<+T> = Ok(value: T) | Failure {
    predicate IsFailure() { Failure? }
    function PropagateFailure<U>(): Result<U>
      requires Failure?
    {
      Failure
    }
    function Extract(): T
      requires Ok?
    {
      value
    }
  }

  /** A C string ends at its first null character. */
  function CString(s: string): string {
    if s == [] || s[0] == '\0' then [] else [s[0]] + CString(s[1..])
  }

  // ---------------------------------------------------------------- encoding

  /** Conversion of an unsigned number to the platform's long, which wraps around. */
  function ToLong(p: Platform, n: nat): int {
    if n <= p.longMax then n else n - 2 * (p.longMax + 1)
  }

  function ToLongLong(n: nat): int {
    if n <= LONG_LONG_MAX then n else n - 2 * (LONG_LONG_MAX + 1)
  }

  function EncodeNumber(p: Platform, n: Number): Term {
    match n
    case Double(d) => Float(d)
    case Int(i) => Integer(i)
    case Long(i) => Integer(i)
    case UnsignedInt(u) => Integer(ToLong(p, u))
    case UnsignedLong(u) => Integer(ToLongLong(u))
  }

  function Encode(p: Platform, v: Value): Term
    decreases v, 1
  {
    match v
    case Bool(b) => Atom(if b then "true" else "fail")
    case Num(n) => EncodeNumber(p, n)
    case Symbol(s) => Atom(CString(s))
    case Str(s) => Text(CString(s))
    case Compound(t, fs) => Struct("gpp_compound", [Atom("#" + t), EncodeFields(p, fs)])
    case List(t, es) => Struct("gpp_list", [Atom("#" + TypeName(t)), EncodeElems(p, es)])
    case Undefined => Atom("fail")
  }

  function EncodeField(p: Platform, f: Field): Term
    decreases f, 2
  {
    Struct("#" + f.name, [Encode(p, f.value)])
  }

  /** Fields are consed in iteration order, so the last one comes first. */
  function EncodeFields(p: Platform, fs: seq<Field>): Term
    decreases fs, 0
  {
    if fs == [] then Nil()
    else Cons(EncodeField(p, fs[|fs| - 1]), EncodeFields(p, fs[..|fs| - 1]))
  }

  function EncodeElems(p: Platform, es: seq<Value>): Term
    decreases es, 0
  {
    if es == [] then Nil() else Cons(Encode(p, es[0]), EncodeElems(p, es[1..]))
  }

  method PlTerm(p: Platform, v: Value) returns (t: Term)
    ensures t == Encode(p, v)
    decreases v
  {
    match v {
      case Compound(ct, fs) =>
        var list := Nil();
        for i := 0 to |fs|
          invariant list == EncodeFields(p, fs[..i])
        {
          var sub := PlTerm(p, fs[i].value);
          assert fs[..i + 1][..i] == fs[..i];
          list := Cons(Struct("#" + fs[i].name, [sub]), list);
        }
        assert fs[..|fs|] == fs;
        t := Struct("gpp_compound", [Atom("#" + ct), list]);
      case List(lt, es) =>
        var list := Nil();
        var i := |es|;
        while i > 0
          invariant 0 <= i <= |es|
          invariant list == EncodeElems(p, es[i..])
        {
          i := i - 1;
          var sub := PlTerm(p, es[i]);
          assert es[i..][1..] == es[i + 1..];
          list := Cons(sub, list);
        }
        assert es[0..] == es;
        t := Struct("gpp_list", [Atom("#" + TypeName(lt)), list]);
      case Bool(b) => t := Atom(if b then "true" else "fail");
      case Num(n) => t := EncodeNumber(p, n);
      case Symbol(s) => t := Atom(CString(s));
      case Str(s) => t := Text(CString(s));
      case Undefined => t := Atom("fail");
    }
  }

  // ---------------------------------------------------------------- decoding

  function DecodeInteger(p: Platform, i: int): Result<Value> {
    if -p.longMax - 1 <= i <= p.longMax then Ok(Num(Long(i)))
    else if 0 <= i <= 2 * p.longMax + 1 && i <= LONG_LONG_MAX then Ok(Num(UnsignedLong(i)))
    else Failure
  }

  function DecodeAtom(name: string): Value {
    if name == "true" then Bool(true) else if name == "fail" then Bool(false) else Symbol(name)
  }

  function Decode(p: Platform, t: Term): Result<Value>
    decreases t, 1
  {
    match t
    case Integer(i) => DecodeInteger(p, i)
    case Float(d) => Ok(Num(Double(d)))
    case Atom(name) => Ok(DecodeAtom(name))
    case Text(s) => Ok(Str(s))
    case Struct(f, args) =>
      if f == "gpp_list" && |args| == 2 && args[0].Atom? && IsCons(args[1]) then
        var listType :- LookupListType(p, args[0].name);
        var elems :- DecodeElems(p, listType.elem, args[1]);
        var resultType :- LookupType(p, "list[" + TypeName(listType) + "]");
        if resultType.ListType? then Ok(List(resultType.elem, elems)) else Failure
      else if f == "gpp_compound" && |args| == 2 && args[0].Atom? && IsCons(args[1]) then
        var name :- Unprefixed(args[0].name);
        if name !in p.fieldTypes then Failure
        else
          var fields :- DecodeFields(p, name, args[1]);
          Construct(p, name, fields)
      else Failure
  }

  /** Names carry a prefix character in Prolog. */
  function Unprefixed(s: string): Result<string> {
    if s == [] then Failure else Ok(s[1..])
  }

  function LookupType(p: Platform, name: string): Result<Type> {
    if name in p.types then Ok(p.types[name]) else Failure
  }

  function LookupListType(p: Platform, prefixed: string): (r: Result<Type>)
    ensures r.Ok? ==> r.value.ListType?
  {
    var name :- Unprefixed(prefixed);
    var elem :- LookupType(p, name);
    var listType :- LookupType(p, "list[" + TypeName(elem) + "]");
    if listType.ListType? then Ok(listType) else Failure
  }

  /** Symbols become strings where a string is expected. */
  function Adapt(v: Value, expected: Type): Value {
    if v.Symbol? && expected.StringType? then Str(v.s) else v
  }

  function DecodeElems(p: Platform, elem: Type, list: Term): Result<seq<Value>>
    decreases list, 0
  {
    if !IsCons(list) then Ok([])
    else
      var head :- Decode(p, list.args[0]);
      var tail :- DecodeElems(p, elem, list.args[1]);
      Ok([Adapt(head, elem)] + tail)
  }

  function DecodeField(p: Platform, compoundType: string, t: Term): Result<Field>
    requires compoundType in p.fieldTypes
    decreases t, 2
  {
    if !(t.Struct? && |t.args| == 1) then Failure
    else
      var name :- Unprefixed(t.functor);
      var v :- Decode(p, t.args[0]);
      if !v.Symbol? then Ok(Field(name, v))
      else if name !in p.fieldTypes[compoundType] then Failure
      else Ok(Field(name, Adapt(v, p.fieldTypes[compoundType][name])))
  }

  function DecodeFields(p: Platform, compoundType: string, list: Term): Result<seq<Field>>
    requires compoundType in p.fieldTypes
    decreases list, 0
  {
    if !IsCons(list) then Ok([])
    else
      var head :- DecodeField(p, compoundType, list.args[0]);
      var tail :- DecodeFields(p, compoundType, list.args[1]);
      Ok([head] + tail)
  }

  predicate Assignable(p: Platform, compoundType: string, f: Field)
    requires compoundType in p.fieldTypes
  {
    f.name in p.fieldTypes[compoundType] && p.assignable(p.fieldTypes[compoundType][f.name], TypeOf(f.value))
  }

  /** A later entry for the same name replaces an earlier one. */
  function Put(fs: seq<Field>, f: Field): seq<Field> {
    if fs == [] then [f]
    else if fs[0].name == f.name then [f] + fs[1..]
    else [fs[0]] + Put(fs[1..], f)
  }

  function PutAll(fs: seq<Field>): seq<Field> {
    if fs == [] then [] else Put(PutAll(fs[..|fs| - 1]), fs[|fs| - 1])
  }

  function Construct(p: Platform, compoundType: string, fs: seq<Field>): Result<Value>
    requires compoundType in p.fieldTypes
  {
    if forall i :: 0 <= i < |fs| ==> Assignable(p, compoundType, fs[i]) then Ok(Compound(compoundType, PutAll(fs)))
    else Failure
  }

  method PlTermToValue(p: Platform, t: Term) returns (r: Result<Value>)
    ensures r == Decode(p, t)
    decreases t
  {
    match t {
      case Integer(i) => r := DecodeInteger(p, i);
      case Float(d) => r := Ok(Num(Double(d)));
      case Atom(name) => r := Ok(DecodeAtom(name));
      case Text(s) => r := Ok(Str(s));
      case Struct(f, args) =>
        if f == "gpp_list" && |args| == 2 && args[0].Atom? && IsCons(args[1]) {
          var listType := LookupListType(p, args[0].name);
          if listType.Failure? { return Failure; }
          var elems: seq<Value> := [];
          var list := args[1];
          PrependNothing(DecodeElems(p, listType.value.elem, list));
          while IsCons(list)
            invariant list == args[1] || list < args[1]
            invariant DecodeElems(p, listType.value.elem, args[1])
                   == Prepend(elems, DecodeElems(p, listType.value.elem, list))
            decreases list
          {
            var head := PlTermToValue(p, list.args[0]);
            if head.Failure? { return Failure; }
            PrependOne(elems, Adapt(head.value, listType.value.elem),
                       DecodeElems(p, listType.value.elem, list.args[1]));
            elems := elems + [Adapt(head.value, listType.value.elem)];
            list := list.args[1];
          }
          assert elems + [] == elems;
          var resultType := LookupType(p, "list[" + TypeName(listType.value) + "]");
          if resultType.Failure? || !resultType.value.ListType? { return Failure; }
          r := Ok(List(resultType.value.elem, elems));
        } else if f == "gpp_compound" && |args| == 2 && args[0].Atom? && IsCons(args[1]) {
          var name := Unprefixed(args[0].name);
          if name.Failure? || name.value !in p.fieldTypes { return Failure; }
          var fields: seq<Field> := [];
          var list := args[1];
          PrependNothing(DecodeFields(p, name.value, list));
          while IsCons(list)
            invariant list == args[1] || list < args[1]
            invariant DecodeFields(p, name.value, args[1]) == Prepend(fields, DecodeFields(p, name.value, list))
            decreases list
          {
            var head := list.args[0];
            if !(head.Struct? && |head.args| == 1) { return Failure; }
            var fieldName := Unprefixed(head.functor);
            var sub := PlTermToValue(p, head.args[0]);
            if fieldName.Failure? || sub.Failure? { return Failure; }
            if sub.value.Symbol? {
              if fieldName.value !in p.fieldTypes[name.value] { return Failure; }
              sub := Ok(Adapt(sub.value, p.fieldTypes[name.value][fieldName.value]));
            }
            PrependOne(fields, Field(fieldName.value, sub.value), DecodeFields(p, name.value, list.args[1]));
            fields := fields + [Field(fieldName.value, sub.value)];
            list := list.args[1];
          }
          assert fields + [] == fields;
          r := Construct(p, name.value, fields);
        } else {
          r := Failure;
        }
    }
  }

  function Prepend<T>(front: seq<T>, back: Result<seq<T>>): Result<seq<T>> {
    if back.Ok? then Ok(front + back.value) else Failure
  }

  lemma PrependNothing<T>(back: Result<seq<T>>)
    ensures Prepend([], back) == back
  {
    if back.Ok? { assert [] + back.value == back.value; }
  }

  lemma PrependOne<T>(front: seq<T>, x: T, back: Result<seq<T>>)
    ensures Prepend(front, Prepend([x], back)) == Prepend(front + [x], back)
  {
    if back.Ok? { assert front + ([x] + back.value) == front + [x] + back.value; }
  }

  // ---------------------------------------------------------------- lists, element by element

  function Items(list: Term): seq<Term> {
    if IsCons(list) then [list.args[0]] + Items(list.args[1]) else []
  }

  /** A Prolog list with the proper end. */
  predicate Ended(list: Term) {
    if IsCons(list) then Ended(list.args[1]) else list == Atom("[]")
  }

  lemma {:induction false} EncodedElems(p: Platform, es: seq<Value>)
    ensures var list := EncodeElems(p, es);
      && Ended(list) && |Items(list)| == |es|
      && forall i :: 0 <= i < |es| ==> Items(list)[i] == Encode(p, es[i])
  {
    if es != [] { EncodedElems(p, es[1..]); }
  }

  /** The i-th field stands at the i-th place from the end. */
  predicate FieldAt(p: Platform, fs: seq<Field>, items: seq<Term>, i: nat)
    requires i < |fs| == |items|
  {
    items[|fs| - 1 - i] == Struct("#" + fs[i].name, [Encode(p, fs[i].value)])
  }

  lemma {:induction false} EncodedFields(p: Platform, fs: seq<Field>)
    ensures var list := EncodeFields(p, fs);
      && Ended(list) && |Items(list)| == |fs|
      && forall i: nat :: i < |fs| ==> FieldAt(p, fs, Items(list), i)
  {
    if fs != [] {
      var n := |fs| - 1;
      var rest := EncodeFields(p, fs[..n]);
      EncodedFields(p, fs[..n]);
      var items := Items(EncodeFields(p, fs));
      assert items == [EncodeField(p, fs[n])] + Items(rest);
      forall i: nat | i < |fs| ensures FieldAt(p, fs, items, i) {
        if i < n {
          assert FieldAt(p, fs[..n], Items(rest), i);
          assert items[n - i] == Items(rest)[n - 1 - i];
        }
      }
    }
  }

  /** How values look in Prolog: elements in order, fields in opposite order, and no value like false. */
  lemma EncodedForm(p: Platform, v: Value)
    ensures v == Bool(true) ==> Encode(p, v) == Atom("true")
    ensures v == Bool(false) || v == Undefined ==> Encode(p, v) == Atom("fail")
    ensures v.List? ==>
      && IsStruct(Encode(p, v), "gpp_list", 2)
      && Encode(p, v).args[0] == Atom("#" + TypeName(v.elemType))
      && var list := Encode(p, v).args[1];
      && Ended(list) && |Items(list)| == |v.elems|
      && forall i :: 0 <= i < |v.elems| ==> Items(list)[i] == Encode(p, v.elems[i])
    ensures v.Compound? ==>
      && IsStruct(Encode(p, v), "gpp_compound", 2)
      && Encode(p, v).args[0] == Atom("#" + v.compoundType)
      && var list := Encode(p, v).args[1];
      && Ended(list) && |Items(list)| == |v.fields|
      && forall i: nat :: i < |v.fields| ==> FieldAt(p, v.fields, Items(list), i)
  {
    if v.List? { EncodedElems(p, v.elems); }
    if v.Compound? { EncodedFields(p, v.fields); }
  }

  /** The value read from an atom where a string is expected is a string; everything else is read as it is. */
  predicate Becomes(v: Value, expected: Type, w: Value) {
    if v.Symbol? && expected == StringType then w == Str(v.s) else w == v
  }

  predicate ElemRead(p: Platform, elem: Type, item: Term, v: Value) {
    Decode(p, item).Ok? && Becomes(Decode(p, item).value, elem, v)
  }

  ghost predicate ElemsRead(p: Platform, elem: Type, items: seq<Term>, vs: seq<Value>) {
    |vs| == |items| && forall i :: 0 <= i < |items| ==> ElemRead(p, elem, items[i], vs[i])
  }

  lemma ElemsReadCons(p: Platform, elem: Type, item: Term, items: seq<Term>, v: Value, vs: seq<Value>)
    ensures ElemsRead(p, elem, [item] + items, [v] + vs) <==>
            ElemRead(p, elem, item, v) && ElemsRead(p, elem, items, vs)
  {
    var all, values := [item] + items, [v] + vs;
    assert all[0] == item && values[0] == v;
    assert all[1..] == items && values[1..] == vs;
    assert forall i :: 0 <= i < |items| ==> items[i] == all[i + 1];
    assert forall i :: 0 <= i < |vs| ==> vs[i] == values[i + 1];
  }

  lemma DecodeElemsCons(p: Platform, elem: Type, list: Term, v: Value, vs: seq<Value>)
    requires IsCons(list)
    ensures DecodeElems(p, elem, list) == Ok([v] + vs) <==>
            ElemRead(p, elem, list.args[0], v) && DecodeElems(p, elem, list.args[1]) == Ok(vs)
  {
    assert ([v] + vs)[0] == v && ([v] + vs)[1..] == vs;
    if DecodeElems(p, elem, list).Ok? {
      var head, tail := Decode(p, list.args[0]).value, DecodeElems(p, elem, list.args[1]).value;
      assert ([Adapt(head, elem)] + tail)[0] == Adapt(head, elem) && ([Adapt(head, elem)] + tail)[1..] == tail;
    }
  }

  lemma {:induction false} DecodedElems(p: Platform, elem: Type, list: Term, vs: seq<Value>)
    ensures DecodeElems(p, elem, list) == Ok(vs) <==> ElemsRead(p, elem, Items(list), vs)
  {
    if IsCons(list) && vs != [] {
      assert vs == [vs[0]] + vs[1..];
      DecodeElemsCons(p, elem, list, vs[0], vs[1..]);
      ElemsReadCons(p, elem, list.args[0], Items(list.args[1]), vs[0], vs[1..]);
      DecodedElems(p, elem, list.args[1], vs[1..]);
    }
  }

  /** One field is read: its name without the prefix, and its value as its declared type wants it. */
  ghost predicate FieldRead(p: Platform, compoundType: string, item: Term, f: Field)
    requires compoundType in p.fieldTypes
  {
    && item.Struct? && |item.args| == 1 && item.functor != []
    && f.name == item.functor[1..]
    && Decode(p, item.args[0]).Ok?
    && var v := Decode(p, item.args[0]).value;
    && (v.Symbol? ==> f.name in p.fieldTypes[compoundType])
    && if f.name in p.fieldTypes[compoundType] then Becomes(v, p.fieldTypes[compoundType][f.name], f.value)
       else f.value == v
  }

  ghost predicate FieldsRead(p: Platform, compoundType: string, items: seq<Term>, fs: seq<Field>)
    requires compoundType in p.fieldTypes
  {
    |fs| == |items| && forall i :: 0 <= i < |fs| ==> FieldRead(p, compoundType, items[i], fs[i])
  }

  lemma DecodedField(p: Platform, compoundType: string, item: Term, f: Field)
    requires compoundType in p.fieldTypes
    ensures DecodeField(p, compoundType, item) == Ok(f) <==> FieldRead(p, compoundType, item, f)
  {
  }

  lemma FieldsReadCons(p: Platform, compoundType: string, item: Term, items: seq<Term>, f: Field, fs: seq<Field>)
    requires compoundType in p.fieldTypes
    ensures FieldsRead(p, compoundType, [item] + items, [f] + fs) <==>
            FieldRead(p, compoundType, item, f) && FieldsRead(p, compoundType, items, fs)
  {
    var all, fields := [item] + items, [f] + fs;
    assert all[0] == item && fields[0] == f;
    assert all[1..] == items && fields[1..] == fs;
    assert forall i :: 0 <= i < |items| ==> items[i] == all[i + 1];
    assert forall i :: 0 <= i < |fs| ==> fs[i] == fields[i + 1];
  }

  lemma DecodeFieldsFirst(p: Platform, compoundType: string, list: Term, f: Field, fs: seq<Field>)
    requires compoundType in p.fieldTypes && IsCons(list)
    ensures DecodeFields(p, compoundType, list) == Ok([f] + fs) <==>
            DecodeField(p, compoundType, list.args[0]) == Ok(f) && DecodeFields(p, compoundType, list.args[1]) == Ok(fs)
  {
    assert ([f] + fs)[0] == f && ([f] + fs)[1..] == fs;
    if DecodeFields(p, compoundType, list).Ok? {
      var head := DecodeField(p, compoundType, list.args[0]).value;
      var tail := DecodeFields(p, compoundType, list.args[1]).value;
      assert ([head] + tail)[0] == head && ([head] + tail)[1..] == tail;
    }
  }

  lemma {:induction false} DecodedFields(p: Platform, compoundType: string, list: Term, fs: seq<Field>)
    requires compoundType in p.fieldTypes
    ensures DecodeFields(p, compoundType, list) == Ok(fs) <==> FieldsRead(p, compoundType, Items(list), fs)
  {
    if IsCons(list) && fs != [] {
      assert fs == [fs[0]] + fs[1..];
      DecodedField(p, compoundType, list.args[0], fs[0]);
      DecodeFieldsFirst(p, compoundType, list, fs[0], fs[1..]);
      FieldsReadCons(p, compoundType, list.args[0], Items(list.args[1]), fs[0], fs[1..]);
      DecodedFields(p, compoundType, list.args[1], fs[1..]);
    }
  }

  ghost predicate Distinct(fs: seq<Field>) {
    forall i, j :: 0 <= i < j < |fs| ==> fs[i].name != fs[j].name
  }

  lemma DistinctCons(f: Field, fs: seq<Field>)
    ensures Distinct([f] + fs) <==> Distinct(fs) && forall g <- fs :: g.name != f.name
  {
    var all := [f] + fs;
    assert all[0] == f && forall i :: 0 <= i < |fs| ==> fs[i] == all[i + 1];
    if Distinct(all) {
      forall i, j | 0 <= i < j < |fs| ensures fs[i].name != fs[j].name { assert all[i + 1].name != all[j + 1].name; }
      forall i | 0 <= i < |fs| ensures fs[i].name != f.name { assert all[0].name != all[i + 1].name; }
    }
  }

  lemma {:induction false} PutReplaces(fs: seq<Field>, g: Field)
    requires Distinct(fs)
    ensures Distinct(Put(fs, g))
    ensures forall f :: f in Put(fs, g) <==> f == g || (f in fs && f.name != g.name)
  {
    if fs != [] {
      assert fs == [fs[0]] + fs[1..];
      DistinctCons(fs[0], fs[1..]);
      if fs[0].name != g.name {
        PutReplaces(fs[1..], g);
        DistinctCons(fs[0], Put(fs[1..], g));
      } else {
        DistinctCons(g, fs[1..]);
      }
    }
  }

  ghost predicate LastAt(fs: seq<Field>, f: Field, i: nat) {
    i < |fs| && fs[i] == f && forall j :: i < j < |fs| ==> fs[j].name != f.name
  }

  ghost predicate LastOfItsName(fs: seq<Field>, f: Field) {
    exists i: nat :: LastAt(fs, f, i)
  }

  lemma LastOfLonger(fs: seq<Field>, g: Field, f: Field)
    ensures LastOfItsName(fs + [g], f) <==> f == g || (LastOfItsName(fs, f) && f.name != g.name)
  {
    if f == g {
      assert LastAt(fs + [g], f, |fs|);
    } else {
      if i: nat :| LastAt(fs, f, i) && f.name != g.name { assert LastAt(fs + [g], f, i); }
      if i: nat :| LastAt(fs + [g], f, i) {
        assert i < |fs| && (fs + [g])[|fs|].name != f.name;
        assert forall j :: i < j < |fs| ==> fs[j] == (fs + [g])[j];
        assert LastAt(fs, f, i);
      }
    }
  }

  /** Where a name occurs more than once, the last one counts. */
  lemma {:induction false} LastFieldCounts(fs: seq<Field>)
    ensures Distinct(PutAll(fs)) && Surviving(fs, PutAll(fs))
  {
    if fs != [] {
      var n := |fs| - 1;
      LastFieldCounts(fs[..n]);
      PutReplaces(PutAll(fs[..n]), fs[n]);
      assert fs == fs[..n] + [fs[n]];
      forall f ensures f in PutAll(fs) <==> LastOfItsName(fs, f) {
        LastOfLonger(fs[..n], fs[n], f);
      }
    }
  }

  /** What a list is read as: element by element, in order. */
  lemma DecodedList(p: Platform, name: string, list: Term, v: Value)
    requires IsCons(list) && Decode(p, Struct("gpp_list", [Atom(name), list])) == Ok(v)
    ensures v.List? && LookupListType(p, name).Ok?
    ensures ElemsRead(p, LookupListType(p, name).value.elem, Items(list), v.elems)
  {
    DecodedElems(p, LookupListType(p, name).value.elem, list, v.elems);
  }

  /** A compound is read field by field; all of them have to suit its type, and the last of a name counts. */
  lemma DecodedCompound(p: Platform, name: string, list: Term, v: Value)
    requires IsCons(list)
    ensures Decode(p, Struct("gpp_compound", [Atom("#" + name), list])) == Ok(v) ==>
      && v.Compound? && v.compoundType == name && name in p.fieldTypes && Distinct(v.fields)
      && exists fs :: FieldsRead(p, name, Items(list), fs) && AllAssignable(p, name, fs) && Surviving(fs, v.fields)
  {
    var t := Struct("gpp_compound", [Atom("#" + name), list]);
    assert ("#" + name)[1..] == name;
    if Decode(p, t) == Ok(v) {
      var fs := DecodeFields(p, name, list).value;
      DecodedFields(p, name, list, fs);
      LastFieldCounts(fs);
      assert FieldsRead(p, name, Items(list), fs) && AllAssignable(p, name, fs) && Surviving(fs, v.fields);
    }
  }

  ghost predicate AllAssignable(p: Platform, compoundType: string, fs: seq<Field>)
    requires compoundType in p.fieldTypes
  {
    forall i :: 0 <= i < |fs| ==> Assignable(p, compoundType, fs[i])
  }

  ghost predicate Surviving(fs: seq<Field>, gs: seq<Field>) {
    forall f :: f in gs <==> LastOfItsName(fs, f)
  }

  // ---------------------------------------------------------------- which values survive

  predicate FaithfulNumber(p: Platform, n: Number) {
    match n
    case UnsignedInt(u) => u <= p.longMax
    case UnsignedLong(u) => u <= LONG_LONG_MAX
    case _ => true
  }

  /**
   * No list and no null anywhere, no empty compound, no symbol that names a truth value, no null
   * character in a text, and no unsigned number beyond the signed range it is converted to.
   */
  predicate Faithful(p: Platform, v: Value) {
    match v
    case Bool(_) => true
    case Num(n) => FaithfulNumber(p, n)
    case Symbol(s) => '\0' !in s && s != "true" && s != "fail"
    case Str(s) => '\0' !in s
    case Compound(_, fs) => fs != [] && forall i :: 0 <= i < |fs| ==> Faithful(p, fs[i].value)
    case List(_, _) => false
    case Undefined => false
  }

  ghost predicate RoundTrips(p: Platform, v: Value)
  {
    var r := Decode(p, Encode(p, v));
    r.Ok? && Same(v, r.value)
  }

  /** The round-trip question has the expected answer for this value. */
  ghost predicate Decided(p: Platform, v: Value) {
    RoundTrips(p, v) <==> Faithful(p, v)
  }

  lemma {:induction false} CStringIsIdentityIffNoNull(s: string)
    ensures CString(s) == s <==> '\0' !in s
  {
    if s != [] && s[0] != '\0' {
      CStringIsIdentityIffNoNull(s[1..]);
      assert CString(s) == s <==> CString(s[1..]) == s[1..];
      assert s == [s[0]] + s[1..];
    }
  }

  lemma {:induction false} NumberRoundTrip(p: Platform, n: Number)
    requires ValidPlatform(p) && InRange(p, n)
    ensures RoundTrips(p, Num(n)) <==> FaithfulNumber(p, n)
  {
  }

  /** Only symbols come back as symbols. */
  lemma SymbolsComeFromSymbols(p: Platform, v: Value)
    requires Decode(p, Encode(p, v)).Ok? && Decode(p, Encode(p, v)).value.Symbol?
    ensures v.Symbol?
  {
  }

  lemma SameHasSameType(v: Value, w: Value)
    requires Same(v, w) && !v.List?
    ensures TypeOf(v) == TypeOf(w)
  {
  }

  /** Decoded fields come in opposite order, and agree with the encoded ones exactly where those are faithful. */
  ghost predicate MatchAt(p: Platform, fs: seq<Field>, ds: seq<Field>, i: nat)
    requires i < |fs| == |ds|
  {
    var d := ds[|fs| - 1 - i];
    d.name == fs[i].name && (Same(fs[i].value, d.value) <==> Faithful(p, fs[i].value))
  }

  ghost predicate FieldsMatch(p: Platform, fs: seq<Field>, ds: seq<Field>) {
    |ds| == |fs| && forall i :: 0 <= i < |fs| ==> MatchAt(p, fs, ds, i)
  }

  lemma {:induction false} FieldRoundTrip(p: Platform, ct: string, f: Field)
    requires ValidPlatform(p) && ct in p.fieldTypes && Assignable(p, ct, f)
    requires Decided(p, f.value)
    ensures var r := DecodeField(p, ct, EncodeField(p, f));
      && (r.Failure? ==> !Faithful(p, f.value))
      && (r.Ok? ==> r.value.name == f.name && (Same(f.value, r.value.value) <==> Faithful(p, f.value)))
  {
    var name := "#" + f.name;
    assert name[1..] == f.name;
    var r := Decode(p, Encode(p, f.value));
    if r.Ok? && r.value.Symbol? {
      SymbolsComeFromSymbols(p, f.value);
    }
  }

  lemma MatchOneMore(p: Platform, fs: seq<Field>, last: Field, ds: seq<Field>, d: Field)
    requires FieldsMatch(p, fs, ds)
    requires d.name == last.name && (Same(last.value, d.value) <==> Faithful(p, last.value))
    ensures FieldsMatch(p, fs + [last], [d] + ds)
  {
    var gs, es := fs + [last], [d] + ds;
    forall i | 0 <= i < |gs| ensures MatchAt(p, gs, es, i) {
      if i < |fs| {
        assert MatchAt(p, fs, ds, i);
        assert gs[i] == fs[i] && es[|gs| - 1 - i] == ds[|fs| - 1 - i];
      }
    }
  }

  lemma DecodeFieldsCons(p: Platform, ct: string, head: Term, tail: Term)
    requires ct in p.fieldTypes
    ensures DecodeFields(p, ct, Cons(head, tail)) == Prepended(DecodeField(p, ct, head), DecodeFields(p, ct, tail))
  {
    var list := Cons(head, tail);
    assert IsCons(list) && list.args[0] == head && list.args[1] == tail;
  }

  function Prepended(head: Result<Field>, tail: Result<seq<Field>>): Result<seq<Field>> {
    if head.Ok? && tail.Ok? then Ok([head.value] + tail.value) else Failure
  }

  lemma {:induction false} FieldsRoundTrip(p: Platform, ct: string, fs: seq<Field>)
    requires ValidPlatform(p) && ct in p.fieldTypes
    requires forall i :: 0 <= i < |fs| ==> Assignable(p, ct, fs[i])
    requires forall i :: 0 <= i < |fs| ==> Decided(p, fs[i].value)
    ensures var r := DecodeFields(p, ct, EncodeFields(p, fs));
      && (r.Failure? ==> exists i :: 0 <= i < |fs| && !Faithful(p, fs[i].value))
      && (r.Ok? ==> FieldsMatch(p, fs, r.value))
  {
    if fs != [] {
      var n := |fs| - 1;
      var init, last := fs[..n], fs[n];
      DecodeFieldsCons(p, ct, EncodeField(p, last), EncodeFields(p, init));
      FieldRoundTrip(p, ct, last);
      FieldsRoundTrip(p, ct, init);
      var head, tail := DecodeField(p, ct, EncodeField(p, last)), DecodeFields(p, ct, EncodeFields(p, init));
      if head.Ok? && tail.Ok? {
        MatchOneMore(p, init, last, tail.value, head.value);
        assert fs == init + [last];
      } else if head.Ok? {
        var i :| 0 <= i < n && !Faithful(p, init[i].value);
        assert !Faithful(p, fs[i].value);
      }
    }
  }

  lemma {:induction false} PutNew(fs: seq<Field>, f: Field)
    requires forall i :: 0 <= i < |fs| ==> fs[i].name != f.name
    ensures Put(fs, f) == fs + [f]
  {
    if fs != [] {
      PutNew(fs[1..], f);
      assert fs == [fs[0]] + fs[1..];
    }
  }

  lemma {:induction false} PutAllDistinct(fs: seq<Field>)
    requires Distinct(fs)
    ensures PutAll(fs) == fs
  {
    if fs != [] {
      var n := |fs| - 1;
      PutAllDistinct(fs[..n]);
      PutNew(fs[..n], fs[n]);
      assert fs == fs[..n] + [fs[n]];
    }
  }

  lemma ReversedIsDistinct(p: Platform, fs: seq<Field>, ds: seq<Field>)
    requires FieldsMatch(p, fs, ds) && Distinct(fs)
    ensures Distinct(ds)
  {
    var n := |fs|;
    forall i, j | 0 <= i < j < n ensures ds[i].name != ds[j].name {
      assert MatchAt(p, fs, ds, n - 1 - i) && MatchAt(p, fs, ds, n - 1 - j);
    }
  }

  /** Compounds with the same names in opposite order are the same exactly when their fields are. */
  lemma ReversedFieldsSame(p: Platform, ct: string, fs: seq<Field>, ds: seq<Field>)
    requires FieldsMatch(p, fs, ds) && Distinct(fs)
    ensures Same(Compound(ct, fs), Compound(ct, ds)) <==> forall i :: 0 <= i < |fs| ==> Faithful(p, fs[i].value)
  {
    var n := |fs|;
    if forall i :: 0 <= i < n ==> Faithful(p, fs[i].value) {
      forall i | 0 <= i < n ensures SameFieldIn(fs[i], ds) {
        var k := n - 1 - i;
        assert MatchAt(p, fs, ds, i) && fs[i].name == ds[k].name && Same(fs[i].value, ds[k].value);
      }
    }
    if Same(Compound(ct, fs), Compound(ct, ds)) {
      ReversedIsDistinct(p, fs, ds);
      forall i | 0 <= i < n ensures Faithful(p, fs[i].value) {
        assert SameFieldIn(fs[i], ds);
        var j :| 0 <= j < |ds| && fs[i].name == ds[j].name && Same(fs[i].value, ds[j].value);
        assert MatchAt(p, fs, ds, i) && ds[n - 1 - i].name == fs[i].name;
        assert j == n - 1 - i;
      }
    }
  }

  lemma MatchedFieldsAssignable(p: Platform, ct: string, fs: seq<Field>, ds: seq<Field>)
    requires FieldsMatch(p, fs, ds) && ct in p.fieldTypes
    requires forall i :: 0 <= i < |fs| ==> Assignable(p, ct, fs[i]) && Faithful(p, fs[i].value)
    ensures forall j :: 0 <= j < |ds| ==> Assignable(p, ct, ds[j])
  {
    forall j | 0 <= j < |ds| ensures Assignable(p, ct, ds[j]) {
      var i := |fs| - 1 - j;
      assert MatchAt(p, fs, ds, i);
      SameHasSameType(fs[i].value, ds[j].value);
    }
  }

  lemma DecodeCompound(p: Platform, ct: string, fs: seq<Field>)
    requires ct in p.fieldTypes
    ensures Decode(p, Encode(p, Compound(ct, fs)))
         == if fs == [] then Failure
            else
              var fields :- DecodeFields(p, ct, EncodeFields(p, fs));
              Construct(p, ct, fields)
  {
    var name := "#" + ct;
    assert name[1..] == ct;
  }

  lemma CompoundRoundTrip(p: Platform, v: Value)
    requires ValidPlatform(p) && WellTyped(p, v) && v.Compound?
    requires forall i :: 0 <= i < |v.fields| ==> Decided(p, v.fields[i].value)
    ensures RoundTrips(p, v) <==> Faithful(p, v)
  {
    var ct, fs := v.compoundType, v.fields;
    DecodeCompound(p, ct, fs);
    if fs != [] {
      FieldsRoundTrip(p, ct, fs);
      var r := DecodeFields(p, ct, EncodeFields(p, fs));
      if r.Ok? {
        ReversedIsDistinct(p, fs, r.value);
        PutAllDistinct(r.value);
        ReversedFieldsSame(p, ct, fs, r.value);
        if Faithful(p, v) {
          MatchedFieldsAssignable(p, ct, fs, r.value);
        }
      }
    }
  }

  /** The list decoder looks up the list type of the list type, so a list never comes back as itself. */
  lemma {:induction false} ListsNeverRoundTrip(p: Platform, v: Value)
    requires ValidPlatform(p) && WellTyped(p, v) && v.List?
    ensures !RoundTrips(p, v)
  {
    var r := Decode(p, Encode(p, v));
    if r.Ok? {
      var prefixed := "#" + TypeName(v.elemType);
      assert prefixed[1..] == TypeName(v.elemType);
      var listType := LookupListType(p, prefixed).value;
      assert TypeName(listType) == "list[" + TypeName(v.elemType) + "]";
      assert "list[" + TypeName(r.value.elemType) + "]" == "list[" + TypeName(listType) + "]";
      assert |TypeName(r.value.elemType)| == |TypeName(listType)|;
    }
  }

  /** Decoding the encoding of a value returns an equal value exactly when the value is faithful. */
  lemma {:induction false} ValueRoundTripsIffFaithful(p: Platform, v: Value)
    requires ValidPlatform(p) && WellTyped(p, v)
    ensures RoundTrips(p, v) <==> Faithful(p, v)
  {
    match v {
      case Compound(_, fs) =>
        forall i | 0 <= i < |fs|
          ensures Decided(p, fs[i].value)
        {
          ValueRoundTripsIffFaithful(p, fs[i].value);
        }
        CompoundRoundTrip(p, v);
      case List(_, _) => ListsNeverRoundTrip(p, v);
      case Num(n) => NumberRoundTrip(p, n);
      case Symbol(s) =>
        CStringIsIdentityIffNoNull(s);
      case Str(s) =>
        CStringIsIdentityIffNoNull(s);
      case _ =>
    }
  }
}
