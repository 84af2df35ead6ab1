/** Decimal notation of natural numbers. */
module Decimal {

  predicate IsDigit(c: char) { '0' <= c <= '9' }

  function ToString(n: nat): (s: string)
    ensures s != []
    ensures forall c <- s :: IsDigit(c)
  {
    if n < 10 then ['0' + n as char] else ToString(n / 10) + ['0' + (n % 10) as char]
  }

  lemma {:induction false} ToStringInjective(m: nat, n: nat)
    requires ToString(m) == ToString(n)
    ensures m == n
  {
    var s := ToString(m);
    var k := |s| - 1;
    assert s[k] == '0' + (m % 10) as char && s[k] == '0' + (n % 10) as char;
    assert (m < 10 <==> k == 0) && (n < 10 <==> k == 0);
    if k > 0 {
      assert s[..k] == ToString(m / 10) && s[..k] == ToString(n / 10);
      ToStringInjective(m / 10, n / 10);
    }
  }
}

/** Transitions as strings for the timed-automata encoder, and back. */
module TaptencStrings {
  import opened Golog
  import opened Decimal
  import opened Plans

  // ---------------------------------------------------------------- argument storage

  function ArgSymbol(n: nat): string { "arg" + ToString(n) }

  datatype ArgMaps<V> = ArgMaps(argToSym: map<V, string>, symToArg: map<string, V>)

  /** The two maps are inverse to each other and use the first symbols only. */
  ghost predicate Inverse<V>(m: ArgMaps<V>) {
    && (forall v <- m.argToSym :: m.argToSym[v] in m.symToArg && m.symToArg[m.argToSym[v]] == v)
    && (forall s <- m.symToArg :: m.symToArg[s] in m.argToSym && m.argToSym[m.symToArg[s]] == s)
    && (forall s <- m.symToArg :: exists i: nat :: i < |m.argToSym| && s == ArgSymbol(i))
  }

  /** Everything that could be retrieved before can still be retrieved. */
  ghost predicate Extends<V>(later: ArgMaps<V>, earlier: ArgMaps<V>) {
    forall s <- earlier.symToArg :: s in later.symToArg && later.symToArg[s] == earlier.symToArg[s]
  }

  function Store<V(==)>(m: ArgMaps<V>, v: V): (ArgMaps<V>, string) {
    if v in m.argToSym then (m, m.argToSym[v])
    else
      var sym := ArgSymbol(|m.argToSym|);
      (ArgMaps(m.argToSym[v := sym], m.symToArg[sym := v]), sym)
  }

  function StoreAll<V(==)>(m: ArgMaps<V>, vs: seq<V>): (r: (ArgMaps<V>, seq<string>))
    ensures |r.1| == |vs|
  {
    if vs == [] then (m, [])
    else
      var (m', syms) := StoreAll(m, vs[..|vs| - 1]);
      var (m'', sym) := Store(m', vs[|vs| - 1]);
      (m'', syms + [sym])
  }

  /** A stored argument is retrieved by its symbol; a new symbol is one that was not in use. */
  lemma {:induction false} StoreKeepsInverse<V>(m: ArgMaps<V>, v: V)
    requires Inverse(m)
    ensures Inverse(Store(m, v).0) && Extends(Store(m, v).0, m)
    ensures Store(m, v).1 in Store(m, v).0.symToArg && Store(m, v).0.symToArg[Store(m, v).1] == v
    ensures v !in m.argToSym ==> Store(m, v).1 !in m.symToArg
  {
    var n := |m.argToSym|;
    if v !in m.argToSym {
      if ArgSymbol(n) in m.symToArg {
        var i: nat :| i < n && ArgSymbol(n) == ArgSymbol(i);
        assert ArgSymbol(n)[3..] == ToString(n) && ArgSymbol(i)[3..] == ToString(i);
        ToStringInjective(n, i);
      }
      var m' := Store(m, v).0;
      assert |m'.argToSym| == n + 1;
      forall s <- m'.symToArg ensures exists i: nat :: i < |m'.argToSym| && s == ArgSymbol(i) {
        if s in m.symToArg {
          var i: nat :| i < n && s == ArgSymbol(i);
          assert i < |m'.argToSym|;
        } else {
          assert n < |m'.argToSym| && s == ArgSymbol(n);
        }
      }
    }
  }

  /** Each symbol retrieves the value at its position. */
  ghost predicate Retrievable<V>(m: ArgMaps<V>, syms: seq<string>, vs: seq<V>) {
    |syms| == |vs| && forall i :: 0 <= i < |vs| ==> Lookup(m, syms[i]) == Some(vs[i])
  }

  lemma {:induction false} ExtensionRetrieves<V>(later: ArgMaps<V>, earlier: ArgMaps<V>, syms: seq<string>, vs: seq<V>)
    requires Extends(later, earlier) && Retrievable(earlier, syms, vs)
    ensures Retrievable(later, syms, vs)
  {
    forall i | 0 <= i < |vs| ensures Lookup(later, syms[i]) == Some(vs[i]) {
      assert Lookup(earlier, syms[i]) == Some(vs[i]);
    }
  }

  lemma {:induction false} StoreAllRetrievable<V>(m: ArgMaps<V>, vs: seq<V>)
    requires Inverse(m)
    ensures Inverse(StoreAll(m, vs).0) && Extends(StoreAll(m, vs).0, m)
    ensures Retrievable(StoreAll(m, vs).0, StoreAll(m, vs).1, vs)
  {
    if vs != [] {
      var n := |vs| - 1;
      var (m', syms) := StoreAll(m, vs[..n]);
      StoreAllRetrievable(m, vs[..n]);
      StoreKeepsInverse(m', vs[n]);
      ExtensionRetrieves(Store(m', vs[n]).0, m', syms, vs[..n]);
      RetrievableSnoc(Store(m', vs[n]).0, syms, vs[..n], Store(m', vs[n]).1, vs[n]);
      assert vs == vs[..n] + [vs[n]];
    }
  }

  lemma RetrievableSnoc<V>(m: ArgMaps<V>, syms: seq<string>, vs: seq<V>, sym: string, v: V)
    requires Retrievable(m, syms, vs) && Lookup(m, sym) == Some(v)
    ensures Retrievable(m, syms + [sym], vs + [v])
  {
  }

  class ArgStorage<V(==)> {
    var argToSym: map<V, string>
    var symToArg: map<string, V>

    ghost function Maps(): ArgMaps<V>
      reads this
    {
      ArgMaps(argToSym, symToArg)
    }

    constructor ()
      ensures Maps() == ArgMaps(map[], map[]) && Inverse(Maps())
    {
      argToSym, symToArg := map[], map[];
    }

    method StoreArg(v: V) returns (sym: string)
      modifies this
      ensures (Maps(), sym) == Store(old(Maps()), v)
    {
      if v in argToSym {
        sym := argToSym[v];
      } else {
        sym := "arg" + ToString(|argToSym|);
        argToSym := argToSym[v := sym];
        symToArg := symToArg[sym := v];
      }
    }

    method RetrieveArg(sym: string) returns (v: Option<V>)
      ensures v == Lookup(Maps(), sym)
    {
      if sym !in symToArg {
        return None;
      }
      return Some(symToArg[sym]);
    }

    /** Symbolic name of a transition: hook and action name around a separator, and argument symbols. */
    method EncodeTransition(t: Transition<V>) returns (name: ActionName)
      modifies this
      ensures Maps() == StoreAll(old(Maps()), t.call.args).0
      ensures name == Encoded(t, StoreAll(old(Maps()), t.call.args).1)
    {
      var id := HookName(t.hook) + "G" + t.call.target.name;
      var argstr: seq<string> := [];
      var args := t.call.args;
      for i := 0 to |args|
        invariant (Maps(), argstr) == StoreAll(old(Maps()), args[..i])
      {
        var sym := StoreArg(args[i]);
        assert args[..i + 1][..i] == args[..i];
        argstr := argstr + [sym];
      }
      assert args[..|args|] == args;
      name := ActionName(id, argstr);
    }

    method RetrieveArgs(p: Punctuation, argString: string) returns (r: Option<seq<V>>)
      ensures r == RetrieveAll(p, Maps(), argString)
    {
      var argstr := argString;
      var args: seq<V> := [];
      ghost var whole := RetrieveAll(p, Maps(), argstr);
      AppendToNothing(whole);
      while |argstr| > 0
        invariant whole == AppendTo(args, RetrieveAll(p, Maps(), argstr))
        decreases |argstr|
      {
        var sep := Find(argstr, p.sep);
        var arg := RetrieveArg(if sep.None? then argstr else argstr[..sep.value]);
        if arg.None? {
          return None;
        }
        argstr := if sep.None? then "" else argstr[sep.value + 1..];
        AppendToAppended(args, arg.value, RetrieveAll(p, Maps(), argstr));
        args := args + [arg.value];
      }
      assert args + [] == args;
      return Some(args);
    }

    /** Reads a transition back from the encoder's notation. */
    method ParseTransition(p: Punctuation, actions: map<string, Action>, s: string) returns (t: Option<Transition<V>>)
      ensures t == Parsed(p, actions, Maps(), s)
    {
      var parts := Split(p, s);
      if parts.None? {
        return None;
      }
      var hook := HookOf(parts.value.hook);
      var args := RetrieveArgs(p, parts.value.args);
      if hook.None? || args.None? || parts.value.name !in actions {
        return None;
      }
      return Some(Transition(Call(actions[parts.value.name], args.value), hook.value));
    }

    /** A plan element from a scheduled action; the clock is read once for each end of its window. */
    method ParseDomainAction(p: Punctuation, actions: map<string, Action>, s: string, time: GroundedTime,
                             now: real, now2: real)
      returns (ti: Option<TimedInstruction<V>>)
      ensures ti == ParsedInstruction(p, actions, Maps(), s, time, now, now2)
      ensures ti.Some? ==>
        (ti.value.window.latest - ti.value.window.earliest >= 1.0 <==> now2 - now + time.maxDelay >= 0.0)
      ensures ti.Some? ==>
        && !ti.value.timepointsDefault
        && ti.value.window.earliest == now + time.earliestStart
        && ti.value.window.latest == now2 + time.earliestStart + time.maxDelay +
             if now2 - now + time.maxDelay < 1.0 then 1.0 else 0.0
    {
      var t := ParseTransition(p, actions, s);
      if t.None? {
        return None;
      }
      var window := Window(now + time.earliestStart, now2 + time.earliestStart + time.maxDelay);
      if window.latest - window.earliest < 1.0 {
        window := window.(latest := window.latest + 1.0);
      }
      return Some(TimedInstruction(Trans(t.value), window, false));
    }
  }

  // ---------------------------------------------------------------- strings

  datatype ActionName = ActionName(id: string, args: seq<string>)

  /** The encoder's brackets and argument separator. */
  datatype Punctuation = Punctuation(open: char, close: char, sep: char)

  predicate IsNameChar(c: char) {
    'a' <= c <= 'z' || 'A' <= c <= 'Z' || IsDigit(c) || c == '_'
  }

  /** The encoder's punctuation never occurs in a name. */
  predicate ValidPunctuation(p: Punctuation) {
    && p.open != p.close && p.close != p.sep && p.open != p.sep
    && !IsNameChar(p.open) && !IsNameChar(p.close) && !IsNameChar(p.sep)
  }

  predicate IsName(s: string) {
    forall c <- s :: IsNameChar(c)
  }

  function Encoded<V>(t: Transition<V>, syms: seq<string>): ActionName {
    ActionName(HookName(t.hook) + "G" + t.call.target.name, syms)
  }

  /** The encoder prints names like this: id, bracket, separated arguments, bracket. */
  function Print(p: Punctuation, n: ActionName): string {
    n.id + [p.open] + Join(p, n.args) + [p.close]
  }

  function Join(p: Punctuation, args: seq<string>): string {
    if args == [] then ""
    else if |args| == 1 then args[0]
    else args[0] + [p.sep] + Join(p, args[1..])
  }

  /** Position of the first occurrence of a character. */
  function Find(s: string, c: char): (i: Option<nat>)
    ensures i.Some? ==> i.value < |s| && s[i.value] == c && forall k :: 0 <= k < i.value ==> s[k] != c
    ensures i.None? <==> c !in s
  {
    if s == [] then None
    else if s[0] == c then Some(0)
    else
      match Find(s[1..], c)
      case None => None
      case Some(i) => Some(i + 1)
  }

  function HookOf(name: string): Option<Hook> {
    if name == "start" then Some(START)
    else if name == "end" then Some(END)
    else if name == "fail" then Some(FAIL)
    else if name == "cancel" then Some(CANCEL)
    else if name == "finish" then Some(FINISH)
    else None
  }

  function Lookup<V>(m: ArgMaps<V>, sym: string): Option<V> {
    if sym in m.symToArg then Some(m.symToArg[sym]) else None
  }

  function AppendTo<V>(front: seq<V>, back: Option<seq<V>>): Option<seq<V>> {
    if back.Some? then Some(front + back.value) else None
  }

  lemma AppendToNothing<V>(r: Option<seq<V>>)
    ensures AppendTo([], r) == r
  {
    if r.Some? { assert [] + r.value == r.value; }
  }

  lemma AppendToAppended<V>(front: seq<V>, v: V, r: Option<seq<V>>)
    ensures AppendTo(front, AppendTo([v], r)) == AppendTo(front + [v], r)
  {
    if r.Some? { assert front + ([v] + r.value) == front + [v] + r.value; }
  }

  /** The argument part: symbols between separators, each looked up in the storage. */
  function RetrieveAll<V>(p: Punctuation, m: ArgMaps<V>, argstr: string): Option<seq<V>>
    decreases |argstr|
  {
    if argstr == [] then Some([])
    else
      var sep := Find(argstr, p.sep);
      match Lookup(m, if sep.None? then argstr else argstr[..sep.value])
      case None => None
      case Some(v) => AppendTo([v], RetrieveAll(p, m, if sep.None? then "" else argstr[sep.value + 1..]))
  }

  datatype Parts = Parts(hook: string, name: string, args: string)

  /** Cuts the string at the first separator and the first brackets. */
  function Split(p: Punctuation, s: string): Option<Parts> {
    var hookSep, open, close := Find(s, 'G'), Find(s, p.open), Find(s, p.close);
    if hookSep.None? || open.None? || close.None? || open.value <= hookSep.value || close.value <= open.value then None
    else
      Some(Parts(s[..hookSep.value], s[hookSep.value + 1..open.value], s[open.value + 1..close.value]))
  }

  function Parsed<V>(p: Punctuation, actions: map<string, Action>, m: ArgMaps<V>, s: string): Option<Transition<V>> {
    match Split(p, s)
    case None => None
    case Some(Parts(hookName, name, argstr)) =>
      var hook, args := HookOf(hookName), RetrieveAll(p, m, argstr);
      if hook.None? || args.None? || name !in actions then None
      else Some(Transition(Call(actions[name], args.value), hook.value))
  }

  /** When the encoder schedules an action, counted from the beginning of the plan. */
  datatype GroundedTime = GroundedTime(earliestStart: real, maxDelay: real)

  /** A window narrower than a second gets a second more. */
  function Widened(w: Window): Window {
    if w.latest - w.earliest < 1.0 then Window(w.earliest, w.latest + 1.0) else w
  }

  function ParsedInstruction<V>(p: Punctuation, actions: map<string, Action>, m: ArgMaps<V>, s: string,
                                time: GroundedTime, now: real, now2: real): Option<TimedInstruction<V>> {
    match Parsed(p, actions, m, s)
    case None => None
    case Some(t) =>
      var w := Window(now + time.earliestStart, now2 + time.earliestStart + time.maxDelay);
      Some(TimedInstruction(Trans(t), Widened(w), false))
  }

  // ---------------------------------------------------------------- round trip

  lemma FindAfter(front: string, c: char, back: string)
    requires c !in front
    ensures Find(front + [c] + back, c) == Some(|front|)
  {
    var s := front + [c] + back;
    assert s[|front|] == c && c in s;
    assert forall k :: 0 <= k < |front| ==> s[k] == front[k] && front[k] in front;
  }

  lemma HookNameRoundTrip(h: Hook)
    ensures HookOf(HookName(h)) == Some(h)
    ensures 'G' !in HookName(h) && IsName(HookName(h))
    ensures HookOf("start") == Some(START) && HookOf("cancel") == Some(CANCEL) && HookOf("finish") == Some(FINISH)
    ensures HookOf("fail") == Some(FAIL) && HookOf("end") == Some(END)
  {
  }

  lemma SymbolsAreNames(n: nat)
    ensures IsName(ArgSymbol(n)) && ArgSymbol(n) != []
  {
  }

  lemma RetrieveFirst<V>(p: Punctuation, m: ArgMaps<V>, sym: string, rest: string)
    requires sym != [] && p.sep !in sym && Lookup(m, sym).Some?
    ensures RetrieveAll(p, m, sym + [p.sep] + rest) == AppendTo([Lookup(m, sym).value], RetrieveAll(p, m, rest))
    ensures RetrieveAll(p, m, sym) == Some([Lookup(m, sym).value])
  {
    var s := sym + [p.sep] + rest;
    FindAfter(sym, p.sep, rest);
    assert s[..|sym|] == sym && s[|sym| + 1..] == rest;
    assert [Lookup(m, sym).value] + [] == [Lookup(m, sym).value];
  }

  lemma {:induction false} JoinRetrieves<V>(p: Punctuation, m: ArgMaps<V>, syms: seq<string>, vs: seq<V>)
    requires ValidPunctuation(p) && Retrievable(m, syms, vs)
    requires forall i :: 0 <= i < |syms| ==> syms[i] != [] && IsName(syms[i])
    ensures RetrieveAll(p, m, Join(p, syms)) == Some(vs)
    ensures p.close !in Join(p, syms)
  {
    if vs != [] {
      var rest := Join(p, syms[1..]);
      assert p.sep !in syms[0] && p.close !in syms[0];
      RetrieveFirst(p, m, syms[0], rest);
      JoinRetrieves(p, m, syms[1..], vs[1..]);
      assert [vs[0]] + vs[1..] == vs;
    }
  }

  function Printed(p: Punctuation, hook: string, name: string, args: string): string {
    hook + ['G'] + name + [p.open] + args + [p.close]
  }

  lemma FirstG(p: Punctuation, hook: string, name: string, args: string)
    requires 'G' !in hook
    ensures Find(Printed(p, hook, name, args), 'G') == Some(|hook|)
  {
    Regroup(hook, 'G', name, p.open, args, p.close);
    FindAfter(hook, 'G', name + [p.open] + args + [p.close]);
  }

  lemma FirstOpen(p: Punctuation, hook: string, name: string, args: string)
    requires ValidPunctuation(p) && IsName(hook) && IsName(name)
    ensures Find(Printed(p, hook, name, args), p.open) == Some(|hook| + 1 + |name|)
  {
    Regroup(hook, 'G', name, p.open, args, p.close);
    FindAfter(hook + ['G'] + name, p.open, args + [p.close]);
  }

  lemma FirstClose(p: Punctuation, hook: string, name: string, args: string)
    requires ValidPunctuation(p) && IsName(hook) && IsName(name) && p.close !in args
    ensures Find(Printed(p, hook, name, args), p.close) == Some(|hook| + 1 + |name| + 1 + |args|)
  {
    Regroup(hook, 'G', name, p.open, args, p.close);
    FindAfter(hook + ['G'] + name + [p.open] + args, p.close, []);
  }

  lemma SplitAt(p: Punctuation, s: string, i: nat, j: nat, k: nat)
    requires Find(s, 'G') == Some(i) && Find(s, p.open) == Some(j) && Find(s, p.close) == Some(k) && i < j < k
    ensures Split(p, s) == Some(Parts(s[..i], s[i + 1..j], s[j + 1..k]))
  {
  }

  /** The first G, the first opening and the first closing bracket are the ones the printer put there. */
  lemma SplitPrinted(p: Punctuation, hook: string, name: string, args: string)
    requires ValidPunctuation(p) && IsName(hook) && 'G' !in hook && IsName(name) && p.close !in args
    ensures Split(p, Printed(p, hook, name, args)) == Some(Parts(hook, name, args))
  {
    FirstG(p, hook, name, args);
    FirstOpen(p, hook, name, args);
    FirstClose(p, hook, name, args);
    var i, j := |hook|, |hook| + 1 + |name|;
    SplitAt(p, Printed(p, hook, name, args), i, j, j + 1 + |args|);
    PartsOf(hook, 'G', name, p.open, args, p.close);
  }

  lemma Regroup(a: string, c: char, b: string, d: char, e: string, f: char)
    ensures a + [c] + b + [d] + e + [f] == a + [c] + (b + [d] + e + [f])
    ensures a + [c] + b + [d] + e + [f] == (a + [c] + b) + [d] + (e + [f])
    ensures a + [c] + b + [d] + e + [f] == (a + [c] + b + [d] + e) + [f] + []
  {
  }

  lemma PartsOf(a: string, c: char, b: string, d: char, e: string, f: char)
    ensures var s, j := a + [c] + b + [d] + e + [f], |a| + 1 + |b|;
      s[..|a|] == a && s[|a| + 1..j] == b && s[j + 1..j + 1 + |e|] == e
  {
  }

  /**
   * A transition whose arguments were stored is read back unchanged from its printed name, at any
   * later time, whatever has been stored in between.
   */
  lemma {:induction false} TransitionRoundTrip<V>(p: Punctuation, actions: map<string, Action>, t: Transition<V>,
                                   before: ArgMaps<V>, later: ArgMaps<V>)
    requires ValidPunctuation(p) && IsName(t.call.target.name)
    requires t.call.target.name in actions && actions[t.call.target.name] == t.call.target
    requires Inverse(before) && Extends(later, StoreAll(before, t.call.args).0)
    ensures Parsed(p, actions, later, Print(p, Encoded(t, StoreAll(before, t.call.args).1))) == Some(t)
  {
    var (m, syms) := StoreAll(before, t.call.args);
    StoreAllRetrievable(before, t.call.args);
    forall i | 0 <= i < |syms|
      ensures syms[i] != [] && IsName(syms[i]) && Lookup(later, syms[i]) == Some(t.call.args[i])
    {
      assert Lookup(m, syms[i]) == Some(t.call.args[i]);
      var n: nat :| n < |m.argToSym| && syms[i] == ArgSymbol(n);
      SymbolsAreNames(n);
    }
    JoinRetrieves(p, later, syms, t.call.args);
    HookNameRoundTrip(t.hook);
    SplitPrinted(p, HookName(t.hook), t.call.target.name, Join(p, syms));
  }

  /** Storing more arguments keeps a storage an extension of every earlier one. */
  lemma {:induction false} LaterStoresExtend<V>(earlier: ArgMaps<V>, m: ArgMaps<V>, vs: seq<V>)
    requires Inverse(m) && Extends(m, earlier)
    ensures Inverse(StoreAll(m, vs).0) && Extends(StoreAll(m, vs).0, earlier)
  {
    StoreAllRetrievable(m, vs);
  }
}
