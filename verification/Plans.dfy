/** Plans: instructions with time windows, and how the windows are propagated. */
module Plans {
  import opened Golog

  /** A transition, or any other plan element (a test marker or a component state switch). */
  datatype Instruction<V> = Trans(trans: Transition<V>) | Other(name: string)

  /** Both ends of a window are time points in seconds. */
  datatype Window = Window(earliest: real, latest: real)

  datatype TimedInstruction<V> = TimedInstruction(instruction: Instruction<V>, window: Window, timepointsDefault: bool)

  // ---------------------------------------------------------------- matching ends with starts

  predicate EndLike<V>(i: Instruction<V>) {
    i.Trans? && HookRank(i.trans.hook) <= HookRank(END)
  }

  predicate IsStartOf<V(==)>(i: Instruction<V>, t: Transition<V>) {
    i.Trans? && i.trans.hook == START && i.trans.call == t.call
  }

  /** Element j is the nearest earlier start of the call that element i ends. */
  ghost predicate Matches<V>(es: seq<Instruction<V>>, j: nat, i: nat)
    requires i < |es|
  {
    && EndLike(es[i])
    && j < i
    && IsStartOf(es[j], es[i].trans)
    && forall k :: j < k < i ==> !IsStartOf(es[k], es[i].trans)
  }

  ghost predicate Unmatched<V>(es: seq<Instruction<V>>, i: nat)
    requires i < |es|
  {
    EndLike(es[i]) && forall k :: 0 <= k < i ==> !IsStartOf(es[k], es[i].trans)
  }

  /** The last start of t's call among the first n elements. */
  function StartBefore<V(==)>(es: seq<Instruction<V>>, n: nat, t: Transition<V>): (r: Option<nat>)
    requires n <= |es|
    ensures r.Some? ==> r.value < n && IsStartOf(es[r.value], t) && forall k :: r.value < k < n ==> !IsStartOf(es[k], t)
    ensures r.None? ==> forall k :: 0 <= k < n ==> !IsStartOf(es[k], t)
  {
    if n == 0 then None
    else if IsStartOf(es[n - 1], t) then Some(n - 1)
    else StartBefore(es, n - 1, t)
  }

  // ---------------------------------------------------------------- window propagation

  function Max(a: real, b: real): real { if a < b then b else a }

  function MinDuration<V>(i: Instruction<V>): real
    requires i.Trans?
  {
    i.trans.call.target.duration.min
  }

  function MaxDuration<V>(i: Instruction<V>): real
    requires i.Trans?
  {
    i.trans.call.target.duration.max
  }

  /** The window of element i > 0, from the windows of the elements before it. */
  function WindowStep<V(==)>(es: seq<Instruction<V>>, ws: seq<Window>, i: nat): Window
    requires 0 < i < |es| && i <= |ws|
  {
    var prev := ws[i - 1];
    if EndLike(es[i]) then
      match StartBefore(es, i, es[i].trans)
      case None => Window(prev.earliest, prev.latest + MaxDuration(es[i]))
      case Some(j) => Window(Max(ws[j].earliest + MinDuration(es[i]), prev.earliest),
                             Max(ws[j].latest + MaxDuration(es[i]), prev.latest))
    else prev
  }

  /** The window for the last of the given instructions; the clock stands in for a missing predecessor. */
  function NextWindow<V(==)>(es: seq<Instruction<V>>, ws: seq<Window>, now: Window): Window
    requires |es| == |ws| + 1
  {
    if |ws| > 0 then WindowStep(es, ws, |ws|)
    else if EndLike(es[0]) then Window(now.earliest, now.latest + MaxDuration(es[0]))
    else now
  }

  /** All windows, propagated from a given first one. */
  function Propagated<V(==)>(es: seq<Instruction<V>>, first: Window): (ws: seq<Window>)
    ensures |ws| == |es|
  {
    if es == [] then []
    else if |es| == 1 then [first]
    else
      var ws := Propagated(es[..|es| - 1], first);
      ws + [NextWindow(es, ws, first)]
  }

  function Instructions<V>(es: seq<TimedInstruction<V>>): (r: seq<Instruction<V>>)
    ensures |r| == |es| && forall i :: 0 <= i < |es| ==> r[i] == es[i].instruction
  {
    seq(|es|, i requires 0 <= i < |es| => es[i].instruction)
  }

  function Windows<V>(es: seq<TimedInstruction<V>>): (ws: seq<Window>)
    ensures |ws| == |es| && forall i :: 0 <= i < |es| ==> ws[i] == es[i].window
  {
    seq(|es|, i requires 0 <= i < |es| => es[i].window)
  }

  /** A plan after one more element was appended. */
  function Appended<V(==)>(es: seq<TimedInstruction<V>>, ti: TimedInstruction<V>, now: Window)
    : seq<TimedInstruction<V>>
  {
    if ti.timepointsDefault then
      es + [TimedInstruction(ti.instruction, NextWindow(Instructions(es) + [ti.instruction], Windows(es), now), false)]
    else es + [ti]
  }

  class Plan<V(==)> {
    var elements: seq<TimedInstruction<V>>

    constructor ()
      ensures elements == []
    {
      elements := [];
    }

    /** `now` holds the two clock readings that are taken when there is no previous element. */
    method Append(ti: TimedInstruction<V>, now: Window)
      modifies this
      ensures elements == Appended(old(elements), ti, now)
    {
      elements := elements + [ti];
      if ti.timepointsDefault {
        SanitizeTimeWindow(|elements| - 1, now);
        assert Instructions(elements[..|elements|]) == Instructions(old(elements)) + [ti.instruction];
        assert Windows(elements[..|elements| - 1]) == Windows(old(elements));
      }
    }

    /** Moves the whole plan: the first window starts now, the others follow. */
    method MakeStartSlack(slack: real, now: real, now2: real)
      requires elements != []
      modifies this
      ensures Instructions(elements) == Instructions(old(elements))
      ensures Windows(elements) == Propagated(Instructions(old(elements)), Window(now, now2 + slack))
      ensures forall i :: 0 <= i < |elements| ==> !elements[i].timepointsDefault
    {
      ghost var es := Instructions(elements);
      var first := Window(now, now2 + slack);
      elements := elements[0 := elements[0].(window := first, timepointsDefault := false)];
      assert Windows(elements[..1]) == [first] && es[..1] == [es[0]];
      for i := 1 to |elements|
        invariant Instructions(elements) == es
        invariant |elements| == |es|
        invariant Windows(elements[..i]) == Propagated(es[..i], first)
        invariant forall k :: 0 <= k < i ==> !elements[k].timepointsDefault
      {
        ghost var before := elements;
        SanitizeTimeWindow(i, first);
        assert elements[..i] == before[..i];
        assert es[..i + 1][..i] == es[..i];
        assert Instructions(before[..i + 1]) == es[..i + 1];
        assert Windows(elements[..i + 1]) == Windows(elements[..i]) + [elements[i].window];
      }
      assert elements[..|elements|] == elements && es[..|es|] == es;
    }

    /** Gives element i the window that follows from the elements before it; touches nothing else. */
    method SanitizeTimeWindow(i: nat, now: Window)
      requires i < |elements|
      modifies this
      ensures |elements| == old(|elements|)
      ensures forall k :: 0 <= k < |elements| && k != i ==> elements[k] == old(elements[k])
      ensures elements[i] == TimedInstruction(
        old(elements[i].instruction),
        NextWindow(Instructions(old(elements[..i + 1])), Windows(old(elements[..i])), now),
        false)
    {
      var ti := elements[i];
      var prev := now;
      if i > 0 {
        prev := elements[i - 1].window;
      }
      if ti.instruction.Trans? && HookRank(ti.instruction.trans.hook) <= HookRank(END) {
        var trans := ti.instruction.trans;
        var start := FindStart(i, trans);
        var duration := trans.call.target.duration;
        if start.None? {
          ti := ti.(window := Window(prev.earliest, prev.latest + duration.max));
        } else {
          var w := elements[start.value].window;
          ti := ti.(window := Window(Max(w.earliest + duration.min, prev.earliest),
                                     Max(w.latest + duration.max, prev.latest)));
        }
      } else {
        ti := ti.(window := prev);
      }
      elements := elements[i := ti.(timepointsDefault := false)];
    }

    /** Searches backwards from element i for a start of the same call. */
    method FindStart(i: nat, t: Transition<V>) returns (r: Option<nat>)
      requires i < |elements|
      ensures r == StartBefore(Instructions(elements[..i + 1]), i, t)
    {
      ghost var es := Instructions(elements[..i + 1]);
      var k := i;
      while k > 0
        invariant 0 <= k <= i
        invariant StartBefore(es, i, t) == StartBefore(es, k, t)
      {
        k := k - 1;
        if IsStartOf(elements[k].instruction, t) {
          return Some(k);
        }
      }
      return None;
    }

    /** The time before which the first element has to be executed. */
    method NextTimeout() returns (t: real)
      requires elements != []
      ensures t == elements[0].window.latest + 0.1
    {
      t := elements[0].window.latest + 0.1;
    }
  }

  // ---------------------------------------------------------------- the windows solve a constraint system

  /** Element i comes no earlier than the one before it, and than its minimal duration after its start. */
  ghost predicate EarliestOk<V>(es: seq<Instruction<V>>, t: seq<real>, i: nat)
    requires 0 < i < |es| == |t|
  {
    && t[i] >= t[i - 1]
    && forall j: nat :: j < i && Matches(es, j, i) ==> t[i] >= t[j] + MinDuration(es[i])
  }

  ghost predicate EarliestFeasible<V>(es: seq<Instruction<V>>, t0: real, t: seq<real>) {
    && |t| == |es| > 0
    && t[0] >= t0
    && forall i: nat :: 0 < i < |es| ==> EarliestOk(es, t, i)
  }

  /** Element i may come as late as the one before it and as its maximal duration after its start, or
      after the element before it where an end has no start in the plan. */
  ghost predicate LatestOk<V>(es: seq<Instruction<V>>, t: seq<real>, i: nat)
    requires 0 < i < |es| == |t|
  {
    && (!Unmatched(es, i) ==> t[i] >= t[i - 1])
    && (Unmatched(es, i) ==> t[i] >= t[i - 1] + MaxDuration(es[i]))
    && forall j: nat :: j < i && Matches(es, j, i) ==> t[i] >= t[j] + MaxDuration(es[i])
  }

  ghost predicate LatestFeasible<V>(es: seq<Instruction<V>>, t0: real, t: seq<real>) {
    && |t| == |es| > 0
    && t[0] >= t0
    && forall i: nat :: 0 < i < |es| ==> LatestOk(es, t, i)
  }

  function Earliest(ws: seq<Window>): (t: seq<real>)
    ensures |t| == |ws| && forall i :: 0 <= i < |ws| ==> t[i] == ws[i].earliest
  {
    seq(|ws|, i requires 0 <= i < |ws| => ws[i].earliest)
  }

  function Latest(ws: seq<Window>): (t: seq<real>)
    ensures |t| == |ws| && forall i :: 0 <= i < |ws| ==> t[i] == ws[i].latest
  {
    seq(|ws|, i requires 0 <= i < |ws| => ws[i].latest)
  }

  /** Window i depends on the first i + 1 instructions only. */
  lemma {:induction false} PropagatedPrefix<V>(es: seq<Instruction<V>>, first: Window, n: nat)
    requires n <= |es|
    ensures Propagated(es[..n], first) == Propagated(es, first)[..n]
  {
    if n < |es| {
      var init := es[..|es| - 1];
      PropagatedPrefix(init, first, n);
      assert init[..n] == es[..n];
      if |es| > 1 {
        assert Propagated(es, first)[..n] == Propagated(init, first)[..n];
      }
    } else {
      assert es[..n] == es;
    }
  }

  lemma StartBeforePrefix<V>(es: seq<Instruction<V>>, m: nat, n: nat, t: Transition<V>)
    requires n <= m <= |es|
    ensures StartBefore(es[..m], n, t) == StartBefore(es, n, t)
  {
    if n > 0 { StartBeforePrefix(es, m, n - 1, t); }
  }

  lemma {:induction false} WindowAt<V>(es: seq<Instruction<V>>, first: Window, i: nat)
    requires i < |es|
    ensures i == 0 ==> Propagated(es, first)[0] == first
    ensures i > 0 ==> Propagated(es, first)[i] == WindowStep(es, Propagated(es, first), i)
  {
    var ws, pre := Propagated(es, first), es[..i + 1];
    PropagatedPrefix(es, first, i + 1);
    assert ws[i] == Propagated(pre, first)[i];
    if i > 0 {
      PropagatedPrefix(es, first, i);
      assert pre[..i] == es[..i];
      assert ws[i] == WindowStep(pre, ws[..i], i);
      if EndLike(es[i]) { StartBeforePrefix(es, i + 1, i, es[i].trans); }
    }
  }

  lemma FirstWindow<V>(es: seq<TimedInstruction<V>>, first: Window)
    requires es != [] && Windows(es) == Propagated(Instructions(es), first)
    ensures es[0].window == first
  {
    WindowAt(Instructions(es), first, 0);
    assert Windows(es)[0] == es[0].window;
  }

  /** The backwards search finds the match, if there is one. */
  lemma MatchedOrNot<V>(es: seq<Instruction<V>>, i: nat) returns (j: Option<nat>)
    requires i < |es|
    ensures j == if EndLike(es[i]) then StartBefore(es, i, es[i].trans) else None
    ensures j.Some? ==> j.value < i && Matches(es, j.value, i) && !Unmatched(es, i)
    ensures j.None? ==> (EndLike(es[i]) <==> Unmatched(es, i))
    ensures forall k: nat :: k < i && Matches(es, k, i) ==> j == Some(k)
  {
    j := if EndLike(es[i]) then StartBefore(es, i, es[i].trans) else None;
  }

  lemma EarliestOkAt<V>(es: seq<Instruction<V>>, first: Window, i: nat)
    requires 0 < i < |es|
    ensures EarliestOk(es, Earliest(Propagated(es, first)), i)
  {
    WindowAt(es, first, i);
    var j := MatchedOrNot(es, i);
  }

  /** The earliest times are the pointwise least feasible ones. */
  lemma EarliestIsLeast<V>(es: seq<Instruction<V>>, first: Window)
    requires es != []
    ensures EarliestFeasible(es, first.earliest, Earliest(Propagated(es, first)))
    ensures forall t :: EarliestFeasible(es, first.earliest, t) ==> AllBelow(Earliest(Propagated(es, first)), t)
  {
    WindowAt(es, first, 0);
    forall i: nat | 0 < i < |es| ensures EarliestOk(es, Earliest(Propagated(es, first)), i) {
      EarliestOkAt(es, first, i);
    }
    forall t | EarliestFeasible(es, first.earliest, t) ensures AllBelow(Earliest(Propagated(es, first)), t) {
      forall i: nat | i < |es| ensures Earliest(Propagated(es, first))[i] <= t[i] {
        EarliestBelow(es, first, t, i);
      }
    }
  }

  ghost predicate AllBelow(s: seq<real>, t: seq<real>) {
    |s| == |t| && forall i: nat :: i < |s| ==> s[i] <= t[i]
  }

  lemma {:induction false} EarliestBelow<V>(es: seq<Instruction<V>>, first: Window, t: seq<real>, i: nat)
    requires EarliestFeasible(es, first.earliest, t) && i < |es|
    ensures Propagated(es, first)[i].earliest <= t[i]
  {
    WindowAt(es, first, i);
    if i > 0 {
      assert EarliestOk(es, t, i);
      EarliestBelow(es, first, t, i - 1);
      var j := MatchedOrNot(es, i);
      if j.Some? { EarliestBelow(es, first, t, j.value); }
    }
  }

  lemma LatestOkAt<V>(es: seq<Instruction<V>>, first: Window, i: nat)
    requires 0 < i < |es|
    ensures LatestOk(es, Latest(Propagated(es, first)), i)
  {
    WindowAt(es, first, i);
    var j := MatchedOrNot(es, i);
  }

  /** The latest times are the pointwise least ones that allow the maximal durations. */
  lemma LatestIsLeast<V>(es: seq<Instruction<V>>, first: Window)
    requires es != []
    ensures LatestFeasible(es, first.latest, Latest(Propagated(es, first)))
    ensures forall t :: LatestFeasible(es, first.latest, t) ==> AllBelow(Latest(Propagated(es, first)), t)
  {
    WindowAt(es, first, 0);
    forall i: nat | 0 < i < |es| ensures LatestOk(es, Latest(Propagated(es, first)), i) {
      LatestOkAt(es, first, i);
    }
    forall t | LatestFeasible(es, first.latest, t) ensures AllBelow(Latest(Propagated(es, first)), t) {
      forall i: nat | i < |es| ensures Latest(Propagated(es, first))[i] <= t[i] {
        LatestBelow(es, first, t, i);
      }
    }
  }

  lemma {:induction false} LatestBelow<V>(es: seq<Instruction<V>>, first: Window, t: seq<real>, i: nat)
    requires LatestFeasible(es, first.latest, t) && i < |es|
    ensures Propagated(es, first)[i].latest <= t[i]
  {
    WindowAt(es, first, i);
    if i > 0 {
      assert LatestOk(es, t, i);
      LatestBelow(es, first, t, i - 1);
      var j := MatchedOrNot(es, i);
      if j.Some? { LatestBelow(es, first, t, j.value); }
    }
  }

  // ---------------------------------------------------------------- one window, by the names of the hooks

  predicate IsEnd<V>(i: Instruction<V>) {
    i.Trans? && (i.trans.hook == FINISH || i.trans.hook == FAIL || i.trans.hook == END)
  }

  /** What an end is measured from: the last start before it of the same action with the same arguments. */
  lemma MatchesByName<V>(es: seq<Instruction<V>>, j: nat, i: nat)
    requires i < |es|
    ensures EndLike(es[i]) <==> IsEnd(es[i])
    ensures Matches(es, j, i) <==>
      && IsEnd(es[i]) && j < i
      && es[j] == Trans(Transition(es[i].trans.call, START))
      && forall k :: j < k < i ==> es[k] != Trans(Transition(es[i].trans.call, START))
    ensures Unmatched(es, i) <==>
      IsEnd(es[i]) && forall k :: 0 <= k < i ==> es[k] != Trans(Transition(es[i].trans.call, START))
  {
  }

  /** Both ends of window i are the least that the windows before it allow. */
  ghost predicate LeastAt<V>(es: seq<Instruction<V>>, ws: seq<Window>, i: nat)
    requires 0 < i < |es| == |ws|
  {
    && EarliestOk(es, Earliest(ws), i)
    && LatestOk(es, Latest(ws), i)
    && (forall w :: EarliestOk(es, Earliest(ws[i := w]), i) ==> ws[i].earliest <= w.earliest)
    && (forall w :: LatestOk(es, Latest(ws[i := w]), i) ==> ws[i].latest <= w.latest)
  }

  /** Where the other windows come from does not matter. */
  lemma StepIsLeast<V>(es: seq<Instruction<V>>, ws: seq<Window>, i: nat)
    requires 0 < i < |es| == |ws| && ws[i] == WindowStep(es, ws, i)
    ensures LeastAt(es, ws, i)
  {
    var j := MatchedOrNot(es, i);
  }

  /** The later of two times. */
  predicate IsLater(t: real, a: real, b: real) {
    t >= a && t >= b && (t == a || t == b)
  }

  /** An end whose last start of the same call is element j. */
  lemma EndWindow<V>(es: seq<Instruction<V>>, ws: seq<Window>, j: nat, i: nat)
    requires j < i < |es| && i <= |ws| && IsEnd(es[i])
    requires es[j] == Trans(Transition(es[i].trans.call, START))
    requires forall k :: j < k < i ==> es[k] != Trans(Transition(es[i].trans.call, START))
    ensures var w, d := WindowStep(es, ws, i), es[i].trans.call.target.duration;
      && IsLater(w.earliest, ws[j].earliest + d.min, ws[i - 1].earliest)
      && IsLater(w.latest, ws[j].latest + d.max, ws[i - 1].latest)
  {
    MatchesByName(es, j, i);
    var m := MatchedOrNot(es, i);
  }

  /** An end whose start is not in the plan, and everything that is no end. */
  lemma WindowWithoutStart<V>(es: seq<Instruction<V>>, ws: seq<Window>, i: nat)
    requires 0 < i < |es| && i <= |ws|
    requires IsEnd(es[i]) ==> forall k :: 0 <= k < i ==> es[k] != Trans(Transition(es[i].trans.call, START))
    ensures var w := WindowStep(es, ws, i);
      && w.earliest == ws[i - 1].earliest
      && w.latest == ws[i - 1].latest + if IsEnd(es[i]) then es[i].trans.call.target.duration.max else 0.0
  {
    MatchesByName(es, 0, i);
    var m := MatchedOrNot(es, i);
  }

  /** An end belongs to the start with its own arguments, not to a later one of the same action. */
  lemma ArgumentsTellStartsApart<V>(a: Action, xs: seq<V>, ys: seq<V>, hook: Hook, v: Window, w: Window)
    requires xs != ys && (hook == FINISH || hook == FAIL || hook == END)
    ensures var g, h := Call(a, xs), Call(a, ys);
      var es := [Trans(Transition(g, START)), Trans(Transition(h, START)), Trans(Transition(g, hook))];
      && IsLater(WindowStep(es, [v, w], 2).earliest, v.earliest + a.duration.min, w.earliest)
      && IsLater(WindowStep(es, [v, w], 2).latest, v.latest + a.duration.max, w.latest)
  {
    var g, h := Call(a, xs), Call(a, ys);
    var es := [Trans(Transition(g, START)), Trans(Transition(h, START)), Trans(Transition(g, hook))];
    EndWindow(es, [v, w], 0, 2);
  }

  // ---------------------------------------------------------------- width and order of the windows

  ghost predicate SaneDurations<V>(es: seq<Instruction<V>>) {
    forall i :: 0 <= i < |es| && es[i].Trans? ==> MinDuration(es[i]) <= MaxDuration(es[i]) && MaxDuration(es[i]) >= 0.0
  }

  /** No window is narrower than the slack, and both ends move forward along the plan. */
  lemma {:induction false} WindowKeepsSlack<V>(es: seq<Instruction<V>>, first: Window, i: nat)
    requires SaneDurations(es) && i < |es|
    ensures var ws := Propagated(es, first);
      && ws[i].latest - ws[i].earliest >= first.latest - first.earliest
      && (i > 0 ==> ws[i - 1].earliest <= ws[i].earliest && ws[i - 1].latest <= ws[i].latest)
  {
    WindowAt(es, first, i);
    if i > 0 {
      WindowKeepsSlack(es, first, i - 1);
      var j := MatchedOrNot(es, i);
      if j.Some? { WindowKeepsSlack(es, first, j.value); }
    }
  }

  /** After a re-slacking at a clock that does not run backwards. */
  lemma {:induction false} SlackIsKept<V>(es: seq<Instruction<V>>, now: real, now2: real, slack: real)
    requires SaneDurations(es) && now <= now2
    ensures var ws := Propagated(es, Window(now, now2 + slack));
      && (forall i :: 0 <= i < |es| ==> ws[i].latest - ws[i].earliest >= slack)
      && (forall i, j :: 0 <= i <= j < |es| ==> ws[i].earliest <= ws[j].earliest && ws[i].latest <= ws[j].latest)
  {
    var ws := Propagated(es, Window(now, now2 + slack));
    forall i: nat | i < |es|
      ensures ws[i].latest - ws[i].earliest >= slack
      ensures i > 0 ==> ws[i - 1].earliest <= ws[i].earliest && ws[i - 1].latest <= ws[i].latest
    {
      WindowKeepsSlack(es, Window(now, now2 + slack), i);
    }
    forall i, j | 0 <= i <= j < |es| ensures ws[i].earliest <= ws[j].earliest && ws[i].latest <= ws[j].latest {
      StepsCompose(ws, i, j);
    }
  }

  lemma {:induction false} StepsCompose(ws: seq<Window>, i: nat, j: nat)
    requires i <= j < |ws|
    requires forall k :: 0 < k < |ws| ==> ws[k - 1].earliest <= ws[k].earliest && ws[k - 1].latest <= ws[k].latest
    ensures ws[i].earliest <= ws[j].earliest && ws[i].latest <= ws[j].latest
    decreases j
  {
    if i < j { StepsCompose(ws, i, j - 1); }
  }

  // ---------------------------------------------------------------- the windows are an exact envelope

  /**
   * Element i of an execution that never dawdles: an end follows its start after an allowed duration
   * (or, without a start in the plan, the previous element after at most the maximal duration) but
   * never before the previous element, and everything else happens at once.
   */
  ghost predicate PromptAt<V>(es: seq<Instruction<V>>, d: seq<real>, t: seq<real>, i: nat)
    requires 0 < i < |es| == |d| == |t|
  {
    && (!EndLike(es[i]) ==> t[i] == t[i - 1])
    && (Unmatched(es, i) ==> 0.0 <= d[i] <= MaxDuration(es[i]) && t[i] == t[i - 1] + d[i])
    && forall j: nat :: j < i && Matches(es, j, i) ==>
         MinDuration(es[i]) <= d[i] <= MaxDuration(es[i]) && t[i] == Max(t[j] + d[i], t[i - 1])
  }

  ghost predicate PromptRun<V>(es: seq<Instruction<V>>, first: Window, d: seq<real>, t: seq<real>) {
    && |t| == |d| == |es| > 0
    && first.earliest <= t[0] <= first.latest
    && forall i: nat :: 0 < i < |es| ==> PromptAt(es, d, t, i)
  }

  /** Whatever the durations turn out to be, every element happens within its window. */
  lemma {:induction false} PromptRunsStayInWindows<V>(es: seq<Instruction<V>>, first: Window,
                                                     d: seq<real>, t: seq<real>, i: nat)
    requires PromptRun(es, first, d, t) && i < |es|
    ensures Propagated(es, first)[i].earliest <= t[i] <= Propagated(es, first)[i].latest
  {
    WindowAt(es, first, i);
    if i > 0 {
      assert PromptAt(es, d, t, i);
      PromptRunsStayInWindows(es, first, d, t, i - 1);
      var j := MatchedOrNot(es, i);
      if j.Some? { PromptRunsStayInWindows(es, first, d, t, j.value); }
    }
  }

  function Shortest<V(==)>(es: seq<Instruction<V>>): (d: seq<real>)
    ensures |d| == |es|
  {
    seq(|es|, i requires 0 <= i < |es| =>
      if EndLike(es[i]) && StartBefore(es, i, es[i].trans).Some? then MinDuration(es[i]) else 0.0)
  }

  function Longest<V>(es: seq<Instruction<V>>): (d: seq<real>)
    ensures |d| == |es|
  {
    seq(|es|, i requires 0 <= i < |es| => if EndLike(es[i]) then MaxDuration(es[i]) else 0.0)
  }

  lemma ShortestIsPrompt<V>(es: seq<Instruction<V>>, first: Window, i: nat)
    requires 0 < i < |es| && SaneDurations(es)
    ensures PromptAt(es, Shortest(es), Earliest(Propagated(es, first)), i)
  {
    WindowAt(es, first, i);
    var j := MatchedOrNot(es, i);
    assert Shortest(es)[i] == if j.Some? then MinDuration(es[i]) else 0.0;
  }

  lemma LongestIsPrompt<V>(es: seq<Instruction<V>>, first: Window, i: nat)
    requires 0 < i < |es| && SaneDurations(es)
    ensures PromptAt(es, Longest(es), Latest(Propagated(es, first)), i)
  {
    WindowAt(es, first, i);
    var j := MatchedOrNot(es, i);
    assert Longest(es)[i] == if EndLike(es[i]) then MaxDuration(es[i]) else 0.0;
  }

  /** Both ends are attained: by the run with the shortest and by the run with the longest durations. */
  lemma WindowsAreTight<V>(es: seq<Instruction<V>>, first: Window)
    requires es != [] && SaneDurations(es) && first.earliest <= first.latest
    ensures PromptRun(es, first, Shortest(es), Earliest(Propagated(es, first)))
    ensures PromptRun(es, first, Longest(es), Latest(Propagated(es, first)))
  {
    WindowAt(es, first, 0);
    forall i: nat | 0 < i < |es|
      ensures PromptAt(es, Shortest(es), Earliest(Propagated(es, first)), i)
      ensures PromptAt(es, Longest(es), Latest(Propagated(es, first)), i)
    {
      ShortestIsPrompt(es, first, i);
      LongestIsPrompt(es, first, i);
    }
  }

  // ---------------------------------------------------------------- building a plan element by element

  /** Appending elements one after the other to an empty plan. */
  function Built<V(==)>(tis: seq<TimedInstruction<V>>, now: seq<Window>): seq<TimedInstruction<V>>
    requires |now| == |tis|
  {
    if tis == [] then []
    else
      var n := |tis| - 1;
      Appended(Built(tis[..n], now[..n]), tis[n], now[n])
  }

  /** An append changes no earlier element, and an element that comes with its own window is kept as it is. */
  lemma AppendKeepsPrefix<V>(es: seq<TimedInstruction<V>>, ti: TimedInstruction<V>, now: Window)
    ensures |Appended(es, ti, now)| == |es| + 1 && Appended(es, ti, now)[..|es|] == es
    ensures Appended(es, ti, now)[|es|].instruction == ti.instruction
    ensures !ti.timepointsDefault ==> Appended(es, ti, now)[|es|] == ti
  {
  }

  /** The window of an appended element that comes without one: what its place demands, and no more. */
  ghost predicate FitsIn<V>(es: seq<Instruction<V>>, ws: seq<Window>, now: Window, i: nat)
    requires i < |es| == |ws|
  {
    if i > 0 then LeastAt(es, ws, i)
    else ws[0] == Window(now.earliest, now.latest + if IsEnd(es[0]) then es[0].trans.call.target.duration.max else 0.0)
  }

  lemma {:induction false} BuiltPrefix<V>(tis: seq<TimedInstruction<V>>, now: seq<Window>, n: nat)
    requires |now| == |tis| && n <= |tis|
    ensures |Built(tis, now)| == |tis| && |Built(tis[..n], now[..n])| == n
    ensures Built(tis, now)[..n] == Built(tis[..n], now[..n])
  {
    if n == |tis| {
      assert tis[..n] == tis && now[..n] == now;
      if n > 0 { BuiltPrefix(tis[..n - 1], now[..n - 1], n - 1); }
    } else {
      var m := |tis| - 1;
      assert tis[..m][..n] == tis[..n] && now[..m][..n] == now[..n];
      BuiltPrefix(tis[..m], now[..m], n);
    }
  }

  lemma WindowStepPrefix<V>(es: seq<Instruction<V>>, ws: seq<Window>, i: nat)
    requires 0 < i < |es| == |ws|
    ensures WindowStep(es[..i + 1], ws[..i], i) == WindowStep(es, ws, i)
  {
    if EndLike(es[i]) { StartBeforePrefix(es, i + 1, i, es[i].trans); }
  }

  /**
   * Whatever is appended to an empty plan, in whatever mixture: elements that come with a window keep it,
   * and every other one gets the least window that the elements before it allow, wherever theirs are from.
   */
  lemma {:induction false} AppendsSolve<V>(tis: seq<TimedInstruction<V>>, now: seq<Window>, i: nat)
    requires |now| == |tis| && i < |tis|
    ensures var b := Built(tis, now);
      && |b| == |tis| && b[i].instruction == tis[i].instruction
      && (!tis[i].timepointsDefault ==> b[i] == tis[i])
      && (tis[i].timepointsDefault ==> FitsIn(Instructions(tis), Windows(b), now[i], i))
  {
    var b, pre := Built(tis, now), Built(tis[..i], now[..i]);
    var es, ws := Instructions(tis), Windows(b);
    BuiltPrefix(tis, now, i);
    BuiltPrefix(tis, now, i + 1);
    assert tis[..i + 1][..i] == tis[..i] && now[..i + 1][..i] == now[..i];
    assert b[..i + 1] == Appended(pre, tis[i], now[i]);
    assert b[i] == Appended(pre, tis[i], now[i])[i];
    if tis[i].timepointsDefault {
      BuiltInstructions(tis[..i], now[..i]);
      assert Instructions(pre) + [tis[i].instruction] == es[..i + 1];
      assert Windows(pre) == ws[..i];
      assert ws[i] == NextWindow(es[..i + 1], ws[..i], now[i]);
      if i > 0 {
        WindowStepPrefix(es, ws, i);
        StepIsLeast(es, ws, i);
      }
    }
  }

  lemma {:induction false} BuiltInstructions<V>(tis: seq<TimedInstruction<V>>, now: seq<Window>)
    requires |now| == |tis|
    ensures Instructions(Built(tis, now)) == Instructions(tis)
  {
    if tis != [] {
      var n := |tis| - 1;
      BuiltInstructions(tis[..n], now[..n]);
      assert Instructions(tis) == Instructions(tis[..n]) + [tis[n].instruction];
    }
  }

  /** Successive appends of unconstrained elements give the windows that propagation from the first one gives. */
  lemma {:induction false} AppendsPropagate<V>(tis: seq<TimedInstruction<V>>, now: seq<Window>)
    requires |now| == |tis| > 0
    requires forall i :: 0 <= i < |tis| ==> tis[i].timepointsDefault
    ensures Instructions(Built(tis, now)) == Instructions(tis)
    ensures Windows(Built(tis, now)) == Propagated(Instructions(tis), Windows(Built(tis, now))[0])
    decreases |tis|
  {
    var n := |tis| - 1;
    var pre, last := Built(tis[..n], now[..n]), tis[n];
    var es := Instructions(tis);
    assert es[..n] == Instructions(tis[..n]);
    if n > 0 {
      AppendsPropagate(tis[..n], now[..n]);
      assert Instructions(pre) + [last.instruction] == es;
      assert Windows(Built(tis, now)) == Windows(pre) + [NextWindow(es, Windows(pre), now[n])];
      assert NextWindow(es, Windows(pre), now[n]) == NextWindow(es, Windows(pre), Windows(pre)[0]);
    } else {
      assert pre == [];
      assert Instructions(Built(tis, now)) == [last.instruction] == es;
    }
  }
}
