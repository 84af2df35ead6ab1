/** Whole plans in the scheduler's notation, and back. */
module TaptencPlans {
  import opened Golog
  import opened Plans
  import opened TaptencStrings

  datatype Bounds = Bounds(min: real, max: real)

  /** Times are relative to the beginning of the plan. */
  datatype PlanAction = PlanAction(name: ActionName, time: Bounds, duration: Bounds)

  function Shifted(t: real, begin: real): real {
    Max(0.0, t - begin)
  }

  function TimesOf<V>(ti: TimedInstruction<V>, begin: real): Bounds {
    Bounds(Shifted(ti.window.earliest, begin), Shifted(ti.window.latest, begin))
  }

  /** Plan elements that are no transitions are dropped. */
  function TransitionsOnly<V>(es: seq<TimedInstruction<V>>): seq<TimedInstruction<V>> {
    if es == [] then []
    else
      var last := es[|es| - 1];
      TransitionsOnly(es[..|es| - 1]) + (if last.instruction.Trans? then [last] else [])
  }

  function EncodedAction<V>(ti: TimedInstruction<V>, syms: seq<string>, begin: real): PlanAction
    requires ti.instruction.Trans?
  {
    var duration := ti.instruction.trans.call.target.duration;
    PlanAction(Encoded(ti.instruction.trans, syms), TimesOf(ti, begin), Bounds(duration.min, duration.max))
  }

  function EncodedPlan<V(==)>(m: ArgMaps<V>, es: seq<TimedInstruction<V>>, begin: real): (ArgMaps<V>, seq<PlanAction>) {
    if es == [] then (m, [])
    else
      var last := es[|es| - 1];
      var (m', r) := EncodedPlan(m, es[..|es| - 1], begin);
      if last.instruction.Trans? then
        var (m'', syms) := StoreAll(m', last.instruction.trans.call.args);
        (m'', r + [EncodedAction(last, syms, begin)])
      else (m', r)
  }

  method PlanToTaptenc<V(==)>(storage: ArgStorage<V>, plan: Plan<V>) returns (r: seq<PlanAction>)
    requires plan.elements != []
    modifies storage
    ensures (storage.Maps(), r) == EncodedPlan(old(storage.Maps()), plan.elements, plan.elements[0].window.earliest)
  {
    r := [];
    var es := plan.elements;
    var begin := es[0].window.earliest;
    for i := 0 to |es|
      invariant (storage.Maps(), r) == EncodedPlan(old(storage.Maps()), es[..i], begin)
    {
      var ti := es[i];
      assert es[..i + 1][..i] == es[..i];
      if ti.instruction.Trans? {
        var trans := ti.instruction.trans;
        var name := storage.EncodeTransition(trans);
        var times := Bounds(Max(0.0, ti.window.earliest - begin), Max(0.0, ti.window.latest - begin));
        var duration := trans.call.target.duration;
        r := r + [PlanAction(name, times, Bounds(duration.min, duration.max))];
      }
    }
    assert es[..|es|] == es;
  }

  // ---------------------------------------------------------------- round trip

  /** The actions of a plan can be printed and are known by their names. */
  ghost predicate Known<V>(actions: map<string, Action>, es: seq<TimedInstruction<V>>) {
    forall ti <- es :: ti.instruction.Trans? ==>
      var a := ti.instruction.trans.call.target;
      IsName(a.name) && a.name in actions && actions[a.name] == a
  }

  /** The times of an action that the scheduler leaves as they are. */
  function AsPlanned(a: PlanAction): GroundedTime {
    GroundedTime(a.time.min, a.time.max - a.time.min)
  }

  /** The plan's window, moved so that the plan begins now; the clock is read once for each end. */
  function Moved(w: Window, begin: real, now: real, now2: real): Window {
    Window(now + Shifted(w.earliest, begin), now2 + Shifted(w.latest, begin))
  }

  /**
   * An encoded action carries the durations of the element, and is read back as its transition; if it is
   * scheduled as planned, then with its window, moved to begin now.
   */
  ghost predicate Stands<V>(p: Punctuation, actions: map<string, Action>, m: ArgMaps<V>, begin: real, now: real,
                            now2: real, a: PlanAction, ti: TimedInstruction<V>)
  {
    && ti.instruction.Trans?
    && Parsed(p, actions, m, Print(p, a.name)) == Some(ti.instruction.trans)
    && ParsedInstruction(p, actions, m, Print(p, a.name), AsPlanned(a), now, now2)
       == Some(TimedInstruction(ti.instruction, Widened(Moved(ti.window, begin, now, now2)), false))
    && a.duration.min == ti.instruction.trans.call.target.duration.min
    && a.duration.max == ti.instruction.trans.call.target.duration.max
    && IsOffset(a.time.min, ti.window.earliest, begin) && IsOffset(a.time.max, ti.window.latest, begin)
  }

  /** How long after the beginning a time is; no time before the beginning counts. */
  predicate IsOffset(d: real, t: real, begin: real) {
    d >= 0.0 && if t >= begin then begin + d == t else d == 0.0
  }

  ghost predicate AllStand<V>(p: Punctuation, actions: map<string, Action>, m: ArgMaps<V>, begin: real, now: real,
                              now2: real, r: seq<PlanAction>, tis: seq<TimedInstruction<V>>)
  {
    |r| == |tis| && forall i :: 0 <= i < |r| ==> Stands(p, actions, m, begin, now, now2, r[i], tis[i])
  }

  /**
   * A window that does not begin before the plan keeps its distance from the plan's beginning, and its
   * width; what lies before the plan's beginning is moved to now.
   */
  lemma MovedKeepsWindow(w: Window, begin: real, now: real, now2: real)
    requires w.earliest <= w.latest && now <= now2
    ensures var m := Moved(w, begin, now, now2);
      && IsOffset(m.earliest - now, w.earliest, begin) && IsOffset(m.latest - now2, w.latest, begin)
      && Widened(m).latest - Widened(m).earliest >= 1.0 && Widened(m).earliest == m.earliest
      && (begin <= w.earliest ==> m.latest - m.earliest >= w.latest - w.earliest)
      && (begin <= w.earliest && w.latest - w.earliest >= 1.0 ==> Widened(m) == m)
  {
  }

  /** Of two lists put together, the transitions are those of the first and then those of the second. */
  lemma {:induction false} TransitionsOfBoth<V>(a: seq<TimedInstruction<V>>, b: seq<TimedInstruction<V>>)
    ensures TransitionsOnly(a + b) == TransitionsOnly(a) + TransitionsOnly(b)
  {
    if b == [] {
      assert a + b == a;
    } else {
      var n := |b| - 1;
      assert (a + b)[..|a + b| - 1] == a + b[..n];
      TransitionsOfBoth(a, b[..n]);
    }
  }

  /** No transition of a plan is dropped, and nothing else is kept. */
  lemma {:induction false} TransitionsAreKept<V>(a: seq<TimedInstruction<V>>, ti: TimedInstruction<V>,
                                                 b: seq<TimedInstruction<V>>)
    ensures TransitionsOnly(a + [ti] + b)
         == TransitionsOnly(a) + (if ti.instruction.Trans? then [ti] else []) + TransitionsOnly(b)
    ensures (forall x <- a :: x.instruction.Trans?) ==> TransitionsOnly(a) == a
    ensures forall x <- TransitionsOnly(a) :: x.instruction.Trans?
    decreases |a|
  {
    TransitionsOfBoth(a + [ti], b);
    TransitionsOfBoth(a, [ti]);
    assert [ti][..0] == [];
    if a != [] {
      var n := |a| - 1;
      assert a == a[..n] + [a[n]] && a[n] in a;
      TransitionsAreKept(a[..n], ti, b);
    }
  }

  lemma {:induction false} EncodingExtends<V>(m: ArgMaps<V>, es: seq<TimedInstruction<V>>, begin: real)
    requires Inverse(m)
    ensures Inverse(EncodedPlan(m, es, begin).0) && Extends(EncodedPlan(m, es, begin).0, m)
  {
    if es != [] {
      EncodingExtends(m, es[..|es| - 1], begin);
      var m' := EncodedPlan(m, es[..|es| - 1], begin).0;
      var last := es[|es| - 1].instruction;
      if last.Trans? { LaterStoresExtend(m, m', last.trans.call.args); }
    }
  }

  /** Given what its name is read back as, an encoded action stands for its element. */
  lemma NameStands<V>(p: Punctuation, actions: map<string, Action>, m: ArgMaps<V>, begin: real, now: real,
                      now2: real, a: PlanAction, ti: TimedInstruction<V>, printed: string)
    requires ti.instruction.Trans? && Parsed(p, actions, m, printed) == Some(ti.instruction.trans)
    requires a.time == TimesOf(ti, begin)
    ensures ParsedInstruction(p, actions, m, printed, AsPlanned(a), now, now2)
         == Some(TimedInstruction(ti.instruction, Widened(Moved(ti.window, begin, now, now2)), false))
  {
  }

  lemma ActionStands<V>(p: Punctuation, actions: map<string, Action>, m: ArgMaps<V>, ti: TimedInstruction<V>,
                        begin: real, now: real, now2: real, later: ArgMaps<V>)
    requires ValidPunctuation(p) && Inverse(m) && Known(actions, [ti]) && ti.instruction.Trans?
    requires Extends(later, StoreAll(m, ti.instruction.trans.call.args).0)
    ensures Stands(p, actions, later, begin, now, now2,
                   EncodedAction(ti, StoreAll(m, ti.instruction.trans.call.args).1, begin), ti)
  {
    assert ti in [ti];
    TransitionRoundTrip(p, actions, ti.instruction.trans, m, later);
    var a := EncodedAction(ti, StoreAll(m, ti.instruction.trans.call.args).1, begin);
    NameStands(p, actions, later, begin, now, now2, a, ti, Print(p, a.name));
  }

  /**
   * Every transition of a plan is read back from its encoding, in order, with whatever the storage has
   * become since; a schedule that keeps the planned times gives the plan's windows, moved to begin now.
   */
  lemma {:induction false} PlanRoundTrip<V>(p: Punctuation, actions: map<string, Action>, m: ArgMaps<V>,
                                           es: seq<TimedInstruction<V>>, begin: real, now: real, now2: real,
                                           later: ArgMaps<V>)
    requires ValidPunctuation(p) && Inverse(m) && Known(actions, es)
    requires Extends(later, EncodedPlan(m, es, begin).0)
    ensures AllStand(p, actions, later, begin, now, now2, EncodedPlan(m, es, begin).1, TransitionsOnly(es))
  {
    if es != [] {
      var init, last := es[..|es| - 1], es[|es| - 1];
      var m' := EncodedPlan(m, init, begin).0;
      EncodingExtends(m, init, begin);
      if last.instruction.Trans? {
        var t := last.instruction.trans;
        LaterStoresExtend(m', m', t.call.args);
        ExtendsTransitive(later, StoreAll(m', t.call.args).0, m');
        assert last in es;
        ActionStands(p, actions, m', last, begin, now, now2, later);
      }
      PlanRoundTrip(p, actions, m, init, begin, now, now2, later);
    }
  }

  lemma ExtendsTransitive<V>(a: ArgMaps<V>, b: ArgMaps<V>, c: ArgMaps<V>)
    requires Extends(a, b) && Extends(b, c)
    ensures Extends(a, c)
  {
  }
}
