/**
 * The engine in its imperative form: activity objects, the backend's activity map, and the controller
 * with its event queue, its history and its main loop. A method is one section under a lock, or is made
 * of such sections; what other threads do between them is an argument. The controller's ghost trace
 * proves that everything it does is a run of the step machine.
 */
module Engine {
  import opened Golog
  import opened Machine
  import opened ActivityProtocol
  import opened EventQueue
  import opened ContextTimes
  import opened Plans

  class Activity {
    const id: nat
    const call: Key
    var state: ActivityState
    var sensed: string

    constructor (id: nat, call: Key)
      ensures this.id == id && this.call == call && state == IDLE && sensed == ""
    {
      this.id, this.call, state, sensed := id, call, IDLE, "";
    }

    method SetState(s: ActivityState)
      modifies `state
      ensures state == s
    {
      state := s;
    }
  }

  class PlatformBackend {
    var activities: map<Key, Activity>
    /** Everything that was ever started; the threads of the platform hold on to these objects. */
    var started: seq<Activity>
    var scheduledWakeups: set<real>

    ghost predicate Valid()
      reads this
    {
      && (forall i :: 0 <= i < |started| ==> started[i].id == i)
      && (forall g <- activities :: activities[g].id < |started| && started[activities[g].id] == activities[g])
    }

    ghost function StateOf(g: Key): ActivityState
      reads this, Objects()
      requires Valid()
    {
      if g in activities then (assert activities[g] in Objects(); activities[g].state) else IDLE
    }

    ghost function Objects(): set<Activity>
      reads this
    {
      set a <- started
    }

    ghost function Pool(): seq<Snapshot>
      reads this, started
    {
      seq(|started|, i requires 0 <= i < |started| reads this, started =>
        Snapshot(started[i].call, started[i].state, started[i].sensed))
    }

    ghost function Ids(): map<Key, nat>
      reads this
    {
      map g <- activities :: activities[g].id
    }

    constructor ()
      ensures Valid() && activities == map[] && started == [] && scheduledWakeups == {}
    {
      activities, started, scheduledWakeups := map[], [], {};
    }

    method CurrentState(g: Key) returns (s: ActivityState)
      requires Valid()
      ensures s == StateOf(g)
    {
      if g !in activities {
        s := IDLE;
      } else {
        s := activities[g].state;
      }
    }

    method StartActivity(trans: Transition<string>) returns (error: Option<Error>)
      requires Valid()
      modifies `activities, `started
      ensures Valid()
      ensures error == if trans.hook != START then Some(Bug)
                       else if trans.call in old(Ids()) then Some(UserError) else None
      ensures Ids() == if error.None? then old(Ids())[trans.call := |old(Pool())|] else old(Ids())
      ensures Pool() == if error.None? then old(Pool()) + [Snapshot(trans.call, RUNNING, "")] else old(Pool())
      ensures fresh(Objects() - old(Objects()))
    {
      if trans.hook != START {
        return Some(Bug);
      }
      if trans.call in activities {
        return Some(UserError);
      }
      var a := new Activity(|started|, trans.call);
      a.SetState(TargetState(trans.hook));
      started := started + [a];
      activities := activities[trans.call := a];
      return None;
    }

    /** Cancelling is only a request; the platform answers it with an update later. */
    method CancelActivity(trans: Transition<string>) returns (error: Option<Error>)
      requires Valid()
      ensures error == if trans.call in activities then None else Some(Bug)
    {
      if trans.call !in activities {
        return Some(Bug);
      }
      return None;
    }

    method EraseActivity(trans: Transition<string>) returns (error: Option<Error>)
      requires Valid()
      modifies `activities
      ensures Valid()
      ensures error == if trans.call !in old(Ids()) then Some(LostTransition)
                       else if Erasable(trans.hook, old(StateOf(trans.call))) then None
                       else Some(InconsistentTransition)
      ensures Ids() == if error.None? then old(Ids()) - {trans.call} else old(Ids())
    {
      if trans.call !in activities {
        return Some(LostTransition);
      }
      var state := activities[trans.call].state;
      if (trans.hook == END && (state == FINAL || state == FAILED || state == CANCELLED))
         || state == TargetState(trans.hook)
      {
        activities := activities - {trans.call};
        return None;
      }
      return Some(InconsistentTransition);
    }

    /** Only the first request for a time spawns a thread that sleeps until then. */
    method ScheduleTimerEvent(when: real) returns (spawned: bool)
      modifies `scheduledWakeups
      ensures spawned <==> when !in old(scheduledWakeups)
      ensures scheduledWakeups == old(scheduledWakeups) + {when}
    {
      if when in scheduledWakeups {
        return false;
      }
      scheduledWakeups := scheduledWakeups + {when};
      return true;
    }
  }

  /**
   * The run along this trace leads here, with these readings and invocations. The trace is bound once
   * more, so that a proof unfolds the run only where it names it.
   */
  ghost predicate Reaches(origin: Sys, trace: seq<Label>, s: Sys, readings: seq<real>, invocations: seq<Invocation>) {
    forall ls :: trace <= ls <= trace ==>
      && Legal(origin, ls) && Run(origin, ls) == s
      && Reads(origin, ls) == readings && Invocations(origin, ls) == invocations
  }

  lemma Unfold(origin: Sys, trace: seq<Label>, s: Sys, readings: seq<real>, invocations: seq<Invocation>)
    requires Reaches(origin, trace, s, readings, invocations)
    ensures Legal(origin, trace) && Run(origin, trace) == s
    ensures Reads(origin, trace) == readings && Invocations(origin, trace) == invocations
  {
    assert Legal(origin, trace);
  }

  lemma Fold(origin: Sys, trace: seq<Label>)
    requires Legal(origin, trace)
    ensures Reaches(origin, trace, Run(origin, trace), Reads(origin, trace), Invocations(origin, trace))
  {
    var s, rs, is' := Run(origin, trace), Reads(origin, trace), Invocations(origin, trace);
    forall ls | trace <= ls <= trace
      ensures Legal(origin, ls) && Run(origin, ls) == s && Reads(origin, ls) == rs && Invocations(origin, ls) == is'
    {
      assert ls == trace;
    }
  }

  lemma Step(origin: Sys, trace: seq<Label>, s: Sys, readings: seq<real>, invocations: seq<Invocation>, l: Label)
    requires Reaches(origin, trace, s, readings, invocations) && Enabled(s, l)
    ensures Reaches(origin, trace + [l], Next(s, l),
                    if l.ReadTime? then readings + [ContextTime(s)] else readings,
                    if l.Invoke? then invocations + [Invocation(l.t, ContextTime(s), s.clock, s.queue)]
                    else invocations)
  {
    Unfold(origin, trace, s, readings, invocations);
    RunSnoc(origin, trace, l);
    WatchSnoc(origin, trace, l);
    Fold(origin, trace + [l]);
  }

  lemma StartStep(origin: Sys, trace: seq<Label>, s: Sys, readings: seq<real>, invocations: seq<Invocation>,
                  t: Transition<string>)
    requires Reaches(origin, trace, s, readings, invocations) && s.pc == Acting(t) && t.hook == START
    ensures t.call in s.activities ==>
      Reaches(origin, trace + [Act], s.(pc := Raised(UserError, t)), readings, invocations)
    ensures t.call !in s.activities ==>
      Reaches(origin, trace + [Act],
              s.(activities := s.activities[t.call := |s.pool|],
                 pool := s.pool + [Snapshot(t.call, RUNNING, "")],
                 pc := Appending(t)),
              readings, invocations)
  {
    Step(origin, trace, s, readings, invocations, Act);
  }

  lemma EraseStep(origin: Sys, trace: seq<Label>, s: Sys, readings: seq<real>, invocations: seq<Invocation>,
                  t: Transition<string>, error: Option<Error>)
    requires Reaches(origin, trace, s, readings, invocations) && s.pc == Acting(t) && HookRank(t.hook) <= HookRank(END)
    requires error == if t.call !in s.activities then Some(LostTransition)
                      else if Erasable(t.hook, CurrentState(s, t.call)) then None else Some(InconsistentTransition)
    ensures error.Some? ==>
      Reaches(origin, trace + [Act], s.(pc := Raised(error.value, t)), readings, invocations)
    ensures error.None? ==>
      Reaches(origin, trace + [Act], s.(activities := s.activities - {t.call}, pc := Appending(t)),
              readings, invocations)
  {
    Step(origin, trace, s, readings, invocations, Act);
  }

  /** What arrived and what was taken out by the steps of a drain that has emptied the queue. */
  lemma DrainSummary(origin: Sys, trace: seq<Label>, s0: Sys, readings: seq<real>, invocations: seq<Invocation>,
                     steps: seq<Label>, s1: Sys)
    returns (arrived: seq<Event>, drained: seq<Event>)
    requires Initial(origin) && InsideDrain(steps) && s1.queue == []
    requires Reaches(origin, trace, s0, readings, invocations)
    requires Reaches(origin, trace + steps, s1, readings, invocations)
    ensures s1.history == s0.history + RenderAll(s1.pool, drained)
    ensures Extension(s1.pool, s0.history, drained, s1.history)
    ensures Same(s0.queue + arrived, drained)
    ensures PopsOnly(steps) ==> arrived == [] && drained == s0.queue
  {
    Unfold(origin, trace, s0, readings, invocations);
    Unfold(origin, trace + steps, s1, readings, invocations);
    RunSplit(origin, trace, steps);
    ExtendsRun(origin, trace);
    DrainAppends(s0, steps);
    NothingIsLost(s0, steps);
    arrived, drained := Arrived(s0, steps), Popped(s0, steps);
    RenderedExtends(s1.pool, s0.history, drained);
    assert drained + [] == drained;
    if PopsOnly(steps) { PopsAreInOrder(s0, steps); }
  }

  /** What other threads do before each locked section of a transition. */
  datatype Interference = Interference(check: seq<Label>, again: seq<Label>, act: seq<Label>, append: seq<Label>)

  datatype Outcome = Succeeded | NotPossible | Threw(error: Error)

  /** Whether a transition is possible while its activity is not running. */
  predicate Passes(h: Hook, state: ActivityState, precondition: bool) {
    match h
    case CANCEL => false
    case START => precondition
    case FINISH => state == FINAL
    case FAIL => state == FAILED
    case END => state == FINAL || state == FAILED
  }

  /** While it is running, and until other threads update it: only a cancel is possible. */
  predicate PassesRunning(h: Hook, e: Interference, ok: bool) {
    && (h == CANCEL ==> ok)
    && (h != CANCEL && (h == END ==> e.again == []) ==> !ok)
  }

  /** What becomes of a plan element that is not a transition. */
  datatype Elsewhere = Performed | Impossible | ReturnsPlan

  /** Everything around one round of the main loop that the controller does not decide itself. */
  datatype Round = Round(
    terminated: bool, arrivals: seq<Label>, drain: seq<seq<Label>>, stateChanged: bool,
    precondition: bool, others: Interference, elsewhere: Elsewhere,
    wait: seq<Label>, terminatedWaiting: bool, late: seq<Label>, waitDrain: seq<seq<Label>>,
    stateChangedWaiting: bool, replan: seq<Label>)

  datatype Waited = Woken | TimedOut | Stopped | Asleep

  datatype Result = Finished | Shutdown | Waiting | Failed(error: Error)

  function StopOf(r: Outcome, round: Round): Result {
    if r.Threw? then Failed(r.error) else if round.terminatedWaiting then Shutdown else Waiting
  }

  /** The transitions in a history. */
  function Executions(h: seq<Entry>): seq<Transition<string>> {
    if h == [] then []
    else
      var last := h[|h| - 1];
      Executions(h[..|h| - 1]) + (if last.Executed? then [last.trans] else [])
  }

  lemma {:induction false} ExecutionsAppend(h: seq<Entry>, more: seq<Entry>)
    requires forall e <- more :: !e.Executed?
    ensures Executions(h + more) == Executions(h)
  {
    if more == [] {
      assert h + more == h;
    } else {
      var n := |more| - 1;
      assert (h + more)[..|h + more| - 1] == h + more[..n];
      ExecutionsAppend(h, more[..n]);
    }
  }

  lemma {:induction false} NoExecutions(h: seq<Entry>, pool: seq<Snapshot>, es: seq<Event>)
    ensures Executions(h + RenderAll(pool, es)) == Executions(h)
    decreases |es|
  {
    if es == [] {
      assert h + [] == h;
    } else {
      ExecutionsAppend(h, Render(pool, es[0]));
      NoExecutions(h + Render(pool, es[0]), pool, es[1..]);
      Assoc(h, Render(pool, es[0]), RenderAll(pool, es[1..]));
    }
  }

  function TransitionOf(i: Instruction<string>): seq<Transition<string>> {
    if i.Trans? then [i.trans] else []
  }

  // ---------------------------------------------------------------- what the main loop does with a plan

  type Elements = seq<TimedInstruction<string>>

  /**
   * One round: the plan, the context time read and the clock just after that, what became of the first
   * element; if it was not possible, the context time read after waiting (unless the loop ended there)
   * and whether a component had changed its state; and the plan that is left.
   */
  datatype Log = Log(plan: Elements, context: real, begun: real, outcome: Outcome,
                     seen: Option<real>, stateChanged: bool, next: Elements)

  /** The first element's time has come, as far as the executor knows. */
  predicate Due(l: Log)
    requires l.plan != []
  {
    l.plan[0].window.earliest <= l.context
  }

  /** The same instructions, with the windows that follow from a first one of 16384 seconds from now on. */
  ghost predicate Reslacked(p: Elements, q: Elements, from: real, to: real) {
    && q != [] && Instructions(q) == Instructions(p)
    && Windows(q) == Propagated(Instructions(q), q[0].window)
    && from <= q[0].window.earliest <= q[0].window.latest - 16384.0 <= to
  }

  /**
   * The first element is executed only when it is due, and is then removed. Otherwise the plan stays as
   * it is, except that it is moved if its first window has passed or a component has changed its state.
   */
  ghost predicate LogOk(l: Log, now: real) {
    && l.plan != []
    && l.context <= l.begun <= now
    && (l.outcome.Succeeded? ==> Due(l) && l.next == l.plan[1..])
    && (l.outcome.Threw? ==>
         && Due(l) && l.next == l.plan
         && l.outcome.error == if l.plan[0].instruction.Trans? then UserError else Bug)
    && (l.outcome.NotPossible? ==>
         if l.seen.Some? && (l.seen.value > l.plan[0].window.latest || l.stateChanged)
         then Reslacked(l.plan, l.next, l.begun, now)
         else l.next == l.plan)
  }

  ghost predicate AllOk(logs: seq<Log>, now: real) {
    forall l <- logs :: LogOk(l, now)
  }

  /** A round that is followed by another one has executed its element, or waited and looked again. */
  predicate GoesOn(l: Log) {
    l.outcome.Succeeded? || (l.outcome.NotPossible? && l.seen.Some?)
  }

  function Became(e: Elsewhere): Outcome {
    match e
    case Performed => Succeeded
    case Impossible => NotPossible
    case ReturnsPlan => Threw(Bug)
  }

  ghost predicate Answers(l: Log, r: Round) {
    && !r.terminated && l.stateChanged == r.stateChangedWaiting
    && (l.plan != [] && Due(l) && l.plan[0].instruction.Other? ==> l.outcome == Became(r.elsewhere))
  }

  ghost predicate FromRounds(logs: seq<Log>, rounds: seq<Round>) {
    && |logs| <= |rounds|
    && (forall i :: 0 <= i < |logs| ==> Answers(logs[i], rounds[i]))
    && (forall i :: 0 <= i < |logs| - 1 ==> GoesOn(logs[i]))
  }

  /** The loop ends when the plan is done, for one of these reasons, or when nothing more is said to happen. */
  ghost predicate Ended(result: Result, rest: Elements, logs: seq<Log>, rounds: seq<Round>)
    requires |logs| <= |rounds|
  {
    var goesOn := logs == [] || GoesOn(logs[|logs| - 1]);
    match result
    case Finished => rest == [] && goesOn
    case Failed(error) => rest != [] && !goesOn && logs[|logs| - 1].outcome == Threw(error)
    case Shutdown =>
      rest != [] && if goesOn then |logs| < |rounds| && rounds[|logs|].terminated
                    else logs[|logs| - 1].outcome.NotPossible? && rounds[|logs| - 1].terminatedWaiting
    case Waiting =>
      rest != [] && if goesOn then |logs| == |rounds|
                    else logs[|logs| - 1].outcome.NotPossible? && !rounds[|logs| - 1].terminatedWaiting
  }

  /** Each round takes up the plan that the one before it has left. */
  ghost predicate Chained(p: Elements, logs: seq<Log>, q: Elements) {
    if logs == [] then p == q
    else
      var last := logs[|logs| - 1];
      Chained(p, logs[..|logs| - 1], last.plan) && last.next == q
  }

  function Collect<T>(logs: seq<Log>, f: Log -> seq<T>): seq<T> {
    if logs == [] then [] else Collect(logs[..|logs| - 1], f) + f(logs[|logs| - 1])
  }

  /** The context times that a round has read. */
  function ReadIn(l: Log): seq<real> {
    [l.context] + if l.seen.Some? then [l.seen.value] else []
  }

  /** The transition that a round has called, successful or not; nothing is called before the queue is drained. */
  function Called(l: Log): seq<Invocation> {
    if l.plan != [] then CalledAt(l.plan[0], l.context, l.begun) else []
  }

  function CalledAt(front: TimedInstruction<string>, context: real, begun: real): seq<Invocation> {
    if front.window.earliest <= context && front.instruction.Trans?
    then [Invocation(front.instruction.trans, context, begun, [])]
    else []
  }

  function Completed(l: Log): seq<Instruction<string>> {
    if l.plan != [] && l.outcome.Succeeded? then [l.plan[0].instruction] else []
  }

  function Recorded(l: Log): seq<Transition<string>> {
    if l.plan != [] && l.outcome.Succeeded? then TransitionOf(l.plan[0].instruction) else []
  }

  lemma CollectSnoc<T>(logs: seq<Log>, l: Log, f: Log -> seq<T>, start: seq<T>)
    ensures start + Collect(logs + [l], f) == start + Collect(logs, f) + f(l)
  {
    assert (logs + [l])[..|logs|] == logs;
    Assoc(start, Collect(logs, f), f(l));
  }

  lemma AllOkLater(logs: seq<Log>, before: real, now: real)
    requires AllOk(logs, before) && before <= now
    ensures AllOk(logs, now)
  {
    forall l <- logs ensures LogOk(l, now) {
      assert LogOk(l, before);
    }
  }

  /** The rounds so far have brought the plan from p to q. */
  ghost predicate Logged(p: Elements, logs: seq<Log>, q: Elements, rounds: seq<Round>, now: real) {
    Chained(p, logs, q) && AllOk(logs, now) && FromRounds(logs, rounds)
  }

  ghost predicate AllGoOn(logs: seq<Log>) {
    forall l <- logs :: GoesOn(l)
  }

  lemma AddLog(p: Elements, logs: seq<Log>, l: Log, rounds: seq<Round>, before: real, now: real)
    requires Logged(p, logs, l.plan, rounds, before) && LogOk(l, now) && before <= now
    requires AllGoOn(logs) && |logs| < |rounds| && Answers(l, rounds[|logs|])
    ensures Logged(p, logs + [l], l.next, rounds, now)
    ensures GoesOn(l) ==> AllGoOn(logs + [l])
  {
    assert (logs + [l])[..|logs|] == logs;
    AllOkLater(logs, before, now);
    forall i | 0 <= i < |logs| ensures GoesOn((logs + [l])[i]) {
      assert logs[i] in logs;
    }
  }

  function LogOf(log: Option<Log>): seq<Log> {
    if log.Some? then [log.value] else []
  }

  lemma EndedByRound(stop: Result, rest: Elements, logs: seq<Log>, log: Option<Log>, rounds: seq<Round>)
    requires |logs| < |rounds| && AllGoOn(logs) && rest != []
    requires log.None? ==> stop == Shutdown && rounds[|logs|].terminated
    requires log.Some? ==> !GoesOn(log.value) && stop == StopOf(log.value.outcome, rounds[|logs|])
    ensures Ended(stop, rest, logs + LogOf(log), rounds)
    ensures log.None? ==> logs + LogOf(log) == logs
  {
    if log.None? {
      assert logs + LogOf(log) == logs;
      if logs != [] { assert logs[|logs| - 1] in logs; }
    }
  }

  /** A round that has run adds its log; one that stops before looking at the plan ends the loop. */
  lemma AddRound(p: Elements, logs: seq<Log>, log: Option<Log>, rounds: seq<Round>, before: Elements, rest: Elements,
                 then': real, now: real, r0: seq<real>, r1: seq<real>, r2: seq<real>,
                 c0: seq<Invocation>, c1: seq<Invocation>, c2: seq<Invocation>,
                 h0: seq<Entry>, h1: seq<Entry>, h2: seq<Entry>)
    requires Logged(p, logs, before, rounds, then') && then' <= now && AllGoOn(logs) && |logs| < |rounds|
    requires Tallied(logs, (r0, r1), (c0, c1), (h0, h1))
    requires log.None? ==> rest == before && r2 == r1 && c2 == c1 && Executions(h2) == Executions(h1)
    requires log.Some? ==>
      && log.value.plan == before && log.value.next == rest && LogOk(log.value, now)
      && Answers(log.value, rounds[|logs|])
      && r2 == r1 + ReadIn(log.value) && c2 == c1 + Called(log.value)
      && Executions(h2) == Executions(h1) + Recorded(log.value)
    ensures Logged(p, logs + LogOf(log), rest, rounds, now)
    ensures Tallied(logs + LogOf(log), (r0, r2), (c0, c2), (h0, h2))
    ensures log.Some? && GoesOn(log.value) ==> AllGoOn(logs + LogOf(log))
  {
    if log.Some? {
      AddLog(p, logs, log.value, rounds, then', now);
      TallyRound(logs, log.value, r0, r1, r2, c0, c1, c2, h0, h1, h2);
    } else {
      AllOkLater(logs, then', now);
      assert logs + LogOf(log) == logs;
    }
  }

  lemma EndedByItself(rest: Elements, logs: seq<Log>, rounds: seq<Round>)
    requires AllGoOn(logs) && |logs| <= |rounds| && (rest == [] || |logs| == |rounds|)
    ensures Ended(if rest == [] then Finished else Waiting, rest, logs, rounds)
  {
    if logs != [] { assert logs[|logs| - 1] in logs; }
  }

  /** What the executor has read, called and recorded, from before the rounds to after them. */
  ghost predicate Tallied(logs: seq<Log>, readings: (seq<real>, seq<real>), called: (seq<Invocation>, seq<Invocation>),
                          history: (seq<Entry>, seq<Entry>))
  {
    && readings.1 == readings.0 + Collect(logs, ReadIn)
    && called.1 == called.0 + Collect(logs, Called)
    && Executions(history.1) == Executions(history.0) + Collect(logs, Recorded)
  }

  lemma TallyRound(logs: seq<Log>, l: Log, r0: seq<real>, r1: seq<real>, r2: seq<real>,
                   c0: seq<Invocation>, c1: seq<Invocation>, c2: seq<Invocation>,
                   h0: seq<Entry>, h1: seq<Entry>, h2: seq<Entry>)
    requires Tallied(logs, (r0, r1), (c0, c1), (h0, h1))
    requires r2 == r1 + ReadIn(l) && c2 == c1 + Called(l) && Executions(h2) == Executions(h1) + Recorded(l)
    ensures Tallied(logs + [l], (r0, r2), (c0, c2), (h0, h2))
  {
    CollectSnoc(logs, l, ReadIn, r0);
    CollectSnoc(logs, l, Called, c0);
    CollectSnoc(logs, l, Recorded, Executions(h0));
  }

  /** Starts minus finishes, fails and ends of a call in a list of transitions. */
  function Sum(g: Key, ts: seq<Transition<string>>): int {
    if ts == [] then 0 else Sum(g, ts[..|ts| - 1]) + Weight(g, ts[|ts| - 1])
  }

  function TransitionsIn(es: seq<Instruction<string>>): seq<Transition<string>> {
    if es == [] then [] else TransitionsIn(es[..|es| - 1]) + TransitionOf(es[|es| - 1])
  }

  /**
   * Whenever the plan starts an action, the history and the part of the plan before that have ended all
   * earlier starts of the same call.
   */
  ghost predicate StartsAreFree(es: seq<Instruction<string>>, h: seq<Entry>) {
    forall k :: 0 <= k < |es| && es[k].Trans? && es[k].trans.hook == START ==>
      Sum(es[k].trans.call, Executions(h) + TransitionsIn(es[..k])) == 0
  }

  lemma {:induction false} BalanceIsSum(g: Key, h: seq<Entry>)
    ensures Balance(g, h) == Sum(g, Executions(h))
  {
    if h != [] {
      var n := |h| - 1;
      BalanceIsSum(g, h[..n]);
      var before := Executions(h[..n]);
      if h[n].Executed? {
        assert (before + [h[n].trans])[..|before|] == before;
      } else {
        assert before + [] == before;
      }
    }
  }

  lemma {:induction false} RecordedIsCompleted(logs: seq<Log>)
    ensures Collect(logs, Recorded) == TransitionsIn(Collect(logs, Completed))
  {
    if logs != [] {
      var n := |logs| - 1;
      var done, last := Collect(logs[..n], Completed), Completed(logs[n]);
      RecordedIsCompleted(logs[..n]);
      if last == [] {
        assert done + last == done;
      } else {
        assert (done + last)[..|done|] == done;
      }
    }
  }

  /** Where all starts are free, the next element of the plan cannot be a start that clashes. */
  lemma NextStartIsFree(es: seq<Instruction<string>>, h0: seq<Entry>, logs: seq<Log>, rest: Elements, h1: seq<Entry>)
    requires StartsAreFree(es, h0) && Collect(logs, Completed) + Instructions(rest) == es
    requires Executions(h1) == Executions(h0) + Collect(logs, Recorded)
    requires rest != [] && rest[0].instruction.Trans? && rest[0].instruction.trans.hook == START
    ensures Balance(rest[0].instruction.trans.call, h1) == 0
  {
    var done := Collect(logs, Completed);
    assert es[|done|] == rest[0].instruction && es[..|done|] == done;
    RecordedIsCompleted(logs);
    BalanceIsSum(rest[0].instruction.trans.call, h1);
  }

  lemma InstructionsTail(es: Elements)
    requires es != []
    ensures Instructions(es) == [es[0].instruction] + Instructions(es[1..])
  {
  }

  /** What has been executed and what is left are the plan. */
  lemma {:induction false} NothingIsSkipped(p: Elements, logs: seq<Log>, q: Elements, now: real)
    requires Chained(p, logs, q) && AllOk(logs, now)
    ensures Collect(logs, Completed) + Instructions(q) == Instructions(p)
  {
    if logs == [] {
      assert [] + Instructions(q) == Instructions(q);
    } else {
      var n := |logs| - 1;
      var l := logs[n];
      NothingIsSkipped(p, logs[..n], l.plan, now);
      assert LogOk(l, now);
      assert Completed(l) + Instructions(q) == Instructions(l.plan) by {
        if l.outcome.Succeeded? { InstructionsTail(l.plan); } else { assert [] + Instructions(q) == Instructions(q); }
      }
      Assoc(Collect(logs[..n], Completed), Completed(l), Instructions(q));
    }
  }

  class ExecutionController {
    const backend: PlatformBackend
    var queue: seq<Event>
    var history: seq<Entry>
    var silent: bool
    var clock: real
    const start: real

    ghost const origin: Sys
    /** The steps so far, and where the executor is. */
    ghost var trace: seq<Label>
    ghost var pc: PC
    /** The context times that were read so far, and the transitions that were called. */
    ghost var readings: seq<real>
    ghost var invocations: seq<Invocation>

    ghost function Abs(): Sys
      reads this, backend, backend.started
    {
      Sys(backend.Ids(), backend.Pool(), queue, history, silent, clock, start, pc)
    }

    /** The controller is where a run of the step machine has taken it. */
    ghost predicate Valid()
      reads this, backend, backend.started
    {
      && backend.Valid()
      && Initial(origin) && origin.start == start
      && Reaches(origin, trace, Abs(), readings, invocations)
    }

    constructor (now: real)
      ensures Valid() && fresh(backend)
      ensures queue == [] && history == [] && trace == [] && pc == Idle && readings == [] && invocations == []
      ensures clock == start == now
      ensures backend.started == []
    {
      backend := new PlatformBackend();
      queue, history, silent, clock, start := [], [], true, now, now;
      origin := Sys(map[], [], [], [], true, now, now, Idle);
      trace, pc, readings, invocations := [], Idle, [], [];
    }

    // ---------------------------------------------------------------- the event queue

    method ExogQueuePush(e: Event)
      modifies `queue
      ensures queue == old(queue) + [e]
    {
      queue := queue + [e];
    }

    method ExogQueuePushFront(e: Event)
      modifies `queue
      ensures queue == [e] + old(queue)
    {
      queue := [e] + queue;
    }

    method ExogQueuePop() returns (e: Event)
      requires queue != []
      modifies `queue
      ensures [e] + queue == old(queue)
    {
      e := queue[0];
      queue := queue[1..];
    }

    // ---------------------------------------------------------------- steps of other threads

    method Tick(dt: real)
      requires Valid() && dt >= 0.0
      modifies `clock, `trace
      ensures Valid() && trace == old(trace) + [Label.Tick(dt)] && clock == old(clock) + dt
    {
      Step(origin, trace, Abs(), readings, invocations, Label.Tick(dt));
      clock := clock + dt;
      trace := trace + [Label.Tick(dt)];
    }

    method Post(e: Event)
      requires Valid() && (e.SwitchState? || e.Exog?)
      modifies `queue, `trace
      ensures Valid() && trace == old(trace) + [Label.Post(e)] && queue == old(queue) + [e]
    {
      Step(origin, trace, Abs(), readings, invocations, Label.Post(e));
      ExogQueuePush(e);
      trace := trace + [Label.Post(e)];
    }

    /** A time step enters the queue at the front. */
    method PushWakeup(when: real)
      requires Valid() && start <= when <= clock
      modifies `queue, `trace
      ensures Valid() && trace == old(trace) + [Wakeup(when)] && queue == [StepTime(when)] + old(queue)
    {
      Step(origin, trace, Abs(), readings, invocations, Wakeup(when));
      ExogQueuePushFront(StepTime(when));
      trace := trace + [Wakeup(when)];
    }

    /** An activity changes its state and puts itself into the queue. */
    method UpdateActivity(a: Activity, hook: Hook, sensed: string)
      requires Valid() && a.id < |backend.started| && backend.started[a.id] == a
      requires a.state == RUNNING && (hook.FINISH? || hook.FAIL? || hook.CANCEL?)
      modifies `queue, `trace, a
      ensures Valid() && trace == old(trace) + [Update(a.id, hook, sensed)]
      ensures a.state == TargetState(hook) && a.sensed == sensed && queue == old(queue) + [Report(a.id)]
    {
      var l := Update(a.id, hook, sensed);
      ghost var pool := backend.Pool();
      Step(origin, trace, Abs(), readings, invocations, l);
      a.sensed := sensed;
      a.SetState(TargetState(hook));
      ExogQueuePush(Report(a.id));
      trace := trace + [l];
      assert backend.Pool() == pool[a.id := Snapshot(a.call, TargetState(hook), sensed)];
    }

    /** What other threads do meanwhile; steps that are not enabled do not happen. */
    method Interfere(ls: seq<Label>)
      requires Valid()
      modifies `queue, `clock, `trace, backend.Objects()
      ensures Valid() && old(trace) <= trace && EnvironmentOnly(trace[|old(trace)|..])
      ensures old(clock) <= clock
      ensures forall a <- backend.Objects() :: old(a.state) != RUNNING || ls == [] ==> a.state == old(a.state)
      ensures ls == [] ==> queue == old(queue) && clock == old(clock)
    {
      for i := 0 to |ls|
        invariant Valid() && old(trace) <= trace && EnvironmentOnly(trace[|old(trace)|..])
        invariant old(clock) <= clock
        invariant forall a <- backend.Objects() :: old(a.state) != RUNNING || i == 0 ==> a.state == old(a.state)
        invariant i == 0 ==> queue == old(queue) && clock == old(clock)
      {
        match ls[i]
        case Tick(dt) =>
          if dt >= 0.0 { Tick(dt); }
        case Post(e) =>
          if e.SwitchState? || e.Exog? { Post(e); }
        case Wakeup(when) =>
          if start <= when <= clock { PushWakeup(when); }
        case Update(id, hook, sensed) =>
          if id < |backend.started| && (hook.FINISH? || hook.FAIL? || hook.CANCEL?) {
            var a := backend.started[id];
            if a.state == RUNNING { UpdateActivity(a, hook, sensed); }
          }
        case _ =>
      }
    }

    /** Reads the clock and then pushes what it has read, with other threads at work in between. */
    method ExogTimerWakeup(meanwhile: seq<Label>) returns (now: real)
      requires Valid()
      modifies `queue, `clock, `trace, backend.Objects()
      ensures Valid() && old(trace) <= trace && old(clock) == now <= clock
      ensures queue != [] && queue[0] == StepTime(now)
      ensures meanwhile == [] ==> queue == [StepTime(now)] + old(queue)
    {
      now := clock;
      Unfold(origin, trace, Abs(), readings, invocations);
      ReadsInRange(origin, trace);
      Interfere(meanwhile);
      PushWakeup(now);
    }

    // ---------------------------------------------------------------- steps of a transition

    method SetSilent()
      requires Valid() && pc == Idle
      modifies `silent, `trace
      ensures Valid() && trace == old(trace) + [Label.SetSilent] && silent
    {
      Step(origin, trace, Abs(), readings, invocations, Label.SetSilent);
      silent := true;
      trace := trace + [Label.SetSilent];
    }

    ghost method Invoke(t: Transition<string>)
      requires Valid() && pc == Idle
      modifies `pc, `trace, `invocations
      ensures Valid() && trace == old(trace) + [Label.Invoke(t)] && pc == Reading(t)
      ensures invocations == old(invocations) + [Invocation(t, LastTime(history, start), clock, queue)]
    {
      Step(origin, trace, Abs(), readings, invocations, Label.Invoke(t));
      invocations := invocations + [Invocation(t, LastTime(history, start), clock, queue)];
      pc := Reading(t);
      trace := trace + [Label.Invoke(t)];
    }

    lemma StateAgrees(g: Key)
      requires backend.Valid()
      ensures Machine.CurrentState(Abs(), g) == backend.StateOf(g)
    {
    }

    method Check(t: Transition<string>) returns (state: ActivityState)
      requires Valid() && (pc == Reading(t) || pc == Rereading(t))
      modifies `pc, `trace
      ensures Valid() && trace == old(trace) + [Read] && pc == AfterRead(t, old(pc).Rereading?, state)
      ensures state == backend.StateOf(t.call)
    {
      Step(origin, trace, Abs(), readings, invocations, Read);
      StateAgrees(t.call);
      state := backend.CurrentState(t.call);
      trace, pc := trace + [Read], AfterRead(t, pc.Rereading?, state);
      assert Abs() == Next(old(Abs()), Read);
    }

    ghost method Evaluate(t: Transition<string>, precondition: bool)
      requires Valid() && pc == Evaluating(t)
      modifies `pc, `trace
      ensures Valid() && trace == old(trace) + [Label.Evaluate(precondition)]
      ensures pc == if precondition then Acting(t) else Idle
    {
      Step(origin, trace, Abs(), readings, invocations, Label.Evaluate(precondition));
      pc := if precondition then Acting(t) else Idle;
      trace := trace + [Label.Evaluate(precondition)];
    }

    method Start(t: Transition<string>) returns (error: Option<Error>)
      requires Valid() && pc == Acting(t) && t.hook == START
      modifies `pc, `trace, backend`activities, backend`started
      ensures Valid() && trace == old(trace) + [Act]
      ensures error == if t.call in old(backend.activities) then Some(UserError) else None
      ensures pc == if error.Some? then Raised(error.value, t) else Appending(t)
      ensures fresh(backend.Objects() - old(backend.Objects()))
    {
      ghost var s := Abs();
      StartStep(origin, trace, s, readings, invocations, t);
      assert t.call in s.activities <==> t.call in backend.activities;
      error := backend.StartActivity(t);
      trace, pc := trace + [Act], if error.Some? then Raised(error.value, t) else Appending(t);
      assert Abs() == if error.Some? then s.(pc := pc)
                      else s.(activities := s.activities[t.call := |s.pool|],
                              pool := s.pool + [Snapshot(t.call, RUNNING, "")],
                              pc := pc);
    }

    method Cancel(t: Transition<string>) returns (error: Option<Error>)
      requires Valid() && pc == Acting(t) && t.hook == CANCEL
      modifies `pc, `trace
      ensures Valid() && trace == old(trace) + [Act]
      ensures error.None? <==> t.call in backend.activities
      ensures pc == if error.Some? then Raised(error.value, t) else Appending(t)
    {
      Step(origin, trace, Abs(), readings, invocations, Act);
      error := backend.CancelActivity(t);
      trace, pc := trace + [Act], if error.Some? then Raised(error.value, t) else Appending(t);
      assert Abs() == Acted(old(Abs()), t);
    }

    method Erase(t: Transition<string>) returns (error: Option<Error>)
      requires Valid() && pc == Acting(t) && HookRank(t.hook) <= HookRank(END)
      modifies `pc, `trace, backend`activities
      ensures Valid() && trace == old(trace) + [Act]
      ensures pc == if error.Some? then Raised(error.value, t) else Appending(t)
    {
      ghost var s := Abs();
      StateAgrees(t.call);
      error := backend.EraseActivity(t);
      EraseStep(origin, trace, s, readings, invocations, t, error);
      trace, pc := trace + [Act], if error.Some? then Raised(error.value, t) else Appending(t);
      assert Abs() == if error.Some? then s.(pc := pc) else s.(activities := s.activities - {t.call}, pc := pc);
    }

    method Append(t: Transition<string>)
      requires Valid() && pc == Appending(t)
      modifies `pc, `trace, `silent, `history
      ensures Valid() && trace == old(trace) + [Label.Append] && pc == Idle
      ensures history == old(history) + [Entry.Executed(t)]
    {
      Step(origin, trace, Abs(), readings, invocations, Label.Append);
      if !t.call.target.silent {
        silent := false;
      }
      history := history + [Entry.Executed(t)];
      pc := Idle;
      trace := trace + [Label.Append];
    }

    method FirstCheck(t: Transition<string>, e: Interference) returns (state: ActivityState)
      requires Valid() && pc == Idle
      modifies `queue, `clock, `trace, `pc, `invocations, backend.Objects()
      ensures Valid() && old(trace) <= trace && old(clock) <= clock
      ensures invocations == old(invocations) + [Invocation(t, LastTime(old(history), start), old(clock), old(queue))]
      ensures pc == AfterRead(t, false, state) && state == backend.StateOf(t.call)
      ensures old(backend.StateOf(t.call)) != RUNNING || e.check == [] ==> state == old(backend.StateOf(t.call))
    {
      Invoke(t);
      Interfere(e.check);
      state := Check(t);
    }

    /** The check: may the transition be performed? The state is read once, or twice for an end. */
    method Guard(t: Transition<string>, precondition: bool, e: Interference) returns (ok: bool)
      requires Valid() && pc == Idle
      modifies `queue, `clock, `trace, `pc, `invocations, backend.Objects()
      ensures Valid() && old(trace) <= trace && old(clock) <= clock
      ensures invocations == old(invocations) + [Invocation(t, LastTime(old(history), start), old(clock), old(queue))]
      ensures pc == if ok then Acting(t) else Idle
      ensures old(backend.StateOf(t.call)) != RUNNING ==>
        && backend.StateOf(t.call) == old(backend.StateOf(t.call))
        && ok == Passes(t.hook, backend.StateOf(t.call), precondition)
      ensures old(backend.StateOf(t.call)) == RUNNING && e.check == [] ==> PassesRunning(t.hook, e, ok)
    {
      var state := FirstCheck(t, e);
      match t.hook {
        case CANCEL =>
          ok := state == RUNNING;
        case START =>
          ok := false;
          if state != RUNNING {
            Interfere(e.again);
            Evaluate(t, precondition);
            ok := precondition;
          }
        case FINISH =>
          ok := state == FINAL;
        case FAIL =>
          ok := state == FAILED;
        case END =>
          ok := state == FAILED;
          if !ok {
            Interfere(e.again);
            state := Check(t);
            ok := state == FINAL;
          }
      }
    }

    method Perform(t: Transition<string>) returns (error: Option<Error>)
      requires Valid() && pc == Acting(t)
      modifies `pc, `trace, backend`activities, backend`started
      ensures Valid() && trace == old(trace) + [Act]
      ensures t.hook == START || t.hook == CANCEL ==>
        (error.Some? <==> (t.hook == START <==> t.call in old(backend.activities)))
      ensures pc == if error.Some? then Raised(error.value, t) else Appending(t)
      ensures fresh(backend.Objects() - old(backend.Objects()))
    {
      match t.hook {
        case CANCEL => error := Cancel(t);
        case START => error := Start(t);
        case FINISH => error := Erase(t);
        case FAIL => error := Erase(t);
        case END => error := Erase(t);
      }
    }

    /** All that is proved about runs of the machine holds of the controller, for instance: */
    lemma AllowedErrors()
      requires Valid() && pc.Raised?
      ensures pc.error == UserError && pc.t.hook == START
      ensures Terminated(backend.StateOf(pc.t.call))
      ensures Balance(pc.t.call, history) == 1
    {
      StateAgrees(pc.t.call);
      Unfold(origin, trace, Abs(), readings, invocations);
      OnlyUserErrors(origin, trace);
      HistoryMatchesMap(origin, trace, pc.t.call);
    }

    /** The user error: a start of a call that the history has an open start of. */
    ghost predicate Clashes(i: Instruction<string>, error: Error)
      reads this
    {
      error == UserError && i.Trans? && i.trans.hook == START && Balance(i.trans.call, history) == 1
    }

    /** Between transitions the backend holds an activity exactly if the history has an open start of its call. */
    lemma StartsMatchActivities(g: Key)
      requires Valid() && pc == Idle
      ensures Balance(g, history) == if g in backend.activities then 1 else 0
    {
      Unfold(origin, trace, Abs(), readings, invocations);
      HistoryMatchesMap(origin, trace, g);
      assert g in backend.Ids() <==> g in backend.activities;
    }

    /** The action of a transition that has passed its check. */
    method Complete(t: Transition<string>, e: Interference) returns (r: Outcome)
      requires Valid() && pc == Acting(t)
      modifies `queue, `clock, `trace, `pc, `silent, `history, backend`activities, backend`started, backend.Objects()
      ensures Valid() && old(trace) <= trace && old(clock) <= clock
      ensures r.Succeeded? ==> pc == Idle && history == old(history) + [Entry.Executed(t)]
      ensures !r.Succeeded? ==> r.Threw? && pc == Raised(r.error, t) && history == old(history)
      ensures t.hook == START ==> (r.Threw? <==> t.call in old(backend.activities))
      ensures t.hook == CANCEL ==> (r.Succeeded? <==> t.call in old(backend.activities))
      ensures fresh(backend.Objects() - old(backend.Objects()))
    {
      Interfere(e.act);
      var error := Perform(t);
      if error.Some? { return Threw(error.value); }
      Interfere(e.append);
      Append(t);
      return Succeeded;
    }

    /**
     * One transition: a check and an action, with other threads at work before each of its sections.
     * It enters the history exactly if it succeeds, and the only exception is that of a start whose
     * call still has a terminated activity. Other threads matter only if the activity is running.
     */
    method Trans(t: Transition<string>, precondition: bool, e: Interference) returns (r: Outcome)
      requires Valid() && pc == Idle
      modifies `queue, `clock, `trace, `pc, `silent, `history, `invocations
      modifies backend`activities, backend`started, backend.Objects()
      ensures Valid() && old(trace) <= trace && old(clock) <= clock
      ensures invocations == old(invocations) + [Invocation(t, LastTime(old(history), start), old(clock), old(queue))]
      ensures old(backend.StateOf(t.call)) != RUNNING ==>
        r == if !Passes(t.hook, old(backend.StateOf(t.call)), precondition) then NotPossible
             else if t.hook == START && t.call in old(backend.activities) then Threw(UserError)
             else Succeeded
      ensures old(backend.StateOf(t.call)) == RUNNING && e.check == [] ==>
        && (t.hook == CANCEL ==> r == Succeeded)
        && (t.hook != CANCEL && (t.hook == END ==> e.again == []) ==> r == NotPossible)
      ensures history == old(history) + if r.Succeeded? then [Entry.Executed(t)] else []
      ensures r.Threw? ==> r.error == UserError && t.hook == START && pc == Raised(UserError, t)
      ensures r.Threw? ==> Terminated(backend.StateOf(t.call)) && Balance(t.call, history) == 1
      ensures !r.Threw? ==> pc == Idle
      ensures fresh(backend.Objects() - old(backend.Objects()))
    {
      var ok := Guard(t, precondition, e);
      if !ok { return NotPossible; }
      r := Complete(t, e);
      if r.Threw? { AllowedErrors(); }
    }

    // ---------------------------------------------------------------- draining the queue

    /** Reports in the queue refer to activities that were started. */
    lemma QueuedReports()
      requires Valid()
      ensures ReportsDone(Abs())
    {
      Unfold(origin, trace, Abs(), readings, invocations);
      ExtendsRun(origin, trace);
    }

    ghost method BeginDrain()
      requires Valid() && pc == Idle
      modifies `pc, `trace
      ensures Valid() && trace == old(trace) + [Label.BeginDrain] && pc == Draining(|history|)
    {
      Step(origin, trace, Abs(), readings, invocations, Label.BeginDrain);
      trace, pc := trace + [Label.BeginDrain], Draining(|history|);
    }

    ghost method EndDrain()
      requires Valid() && pc.Draining? && queue == []
      modifies `pc, `trace
      ensures Valid() && trace == old(trace) + [Label.EndDrain] && pc == Idle
    {
      Step(origin, trace, Abs(), readings, invocations, Label.EndDrain);
      trace, pc := trace + [Label.EndDrain], Idle;
    }

    /** An event enters the history, after the sensing result if it is a sensing activity. */
    method Record(e: Event)
      requires backend.Valid() && (e.Report? ==> e.id < |backend.started|)
      modifies `history, `silent
      ensures history == old(history) + Render(backend.Pool(), e)
      ensures silent == (old(silent) && Quiet(backend.Pool(), e))
      ensures match e
        case SwitchState(_) => history == old(history) && silent == old(silent)
        case StepTime(t) => history == old(history) + [TimeStep(t)] && !silent
        case Exog(name, quiet) => history == old(history) + [Happened(name)] && silent == (old(silent) && quiet)
        case Report(id) =>
          var a := backend.started[id];
          && silent == (old(silent) && a.call.target.silent)
          && if a.call.target.senses
             then history == old(history) + [Sensed(a.call, a.sensed), Reported(a.call, a.state)]
             else history == old(history) + [Reported(a.call, a.state)]
    {
      match e {
        case SwitchState(_) =>
        case StepTime(t) =>
          silent := false;
          history := history + [TimeStep(t)];
        case Exog(name, quiet) =>
          if !quiet { silent := false; }
          history := history + [Happened(name)];
        case Report(id) =>
          var a := backend.started[id];
          if !a.call.target.silent { silent := false; }
          if a.call.target.senses {
            history := history + [Sensed(a.call, a.sensed)];
          }
          history := history + [Reported(a.call, a.state)];
      }
    }

    method DrainOne()
      requires Valid() && pc.Draining? && queue != []
      modifies `queue, `history, `silent, `trace
      ensures Valid() && trace == old(trace) + [Pop]
      ensures |queue| == |old(queue)| - 1
    {
      ghost var s := Abs();
      QueuedReports();
      Step(origin, trace, s, readings, invocations, Pop);
      assert queue[0] in queue;
      var e := ExogQueuePop();
      Record(e);
      trace := trace + [Pop];
      assert Abs() == Next(s, Pop);
    }

    method DrainAll(batches: seq<seq<Label>>) returns (ghost steps: seq<Label>)
      requires Valid() && pc.Draining?
      modifies `queue, `clock, `trace, `silent, `history, backend.Objects()
      ensures Valid() && queue == [] && old(clock) <= clock
      ensures trace == old(trace) + steps && InsideDrain(steps) && (batches == [] ==> PopsOnly(steps))
    {
      steps := [];
      var i := 0;
      while queue != []
        invariant Valid() && i <= |batches| && old(clock) <= clock
        invariant trace == old(trace) + steps && InsideDrain(steps) && (batches == [] ==> PopsOnly(steps))
        decreases |batches| - i, |queue|
      {
        DrainOne();
        steps := steps + [Pop];
        if i < |batches| {
          ghost var before := trace;
          Interfere(batches[i]);
          steps := steps + trace[|before|..];
          i := i + 1;
        }
      }
    }

    /**
     * Drains the queue. Everything that was queued or arrived meanwhile is taken out once, and the
     * history is extended by what tells of exactly that.
     */
    method DrainExogQueue(batches: seq<seq<Label>>) returns (ghost arrived: seq<Event>, ghost drained: seq<Event>)
      requires Valid() && pc == Idle
      modifies `queue, `clock, `trace, `pc, `silent, `history, backend.Objects()
      ensures Valid() && old(trace) <= trace && old(clock) <= clock
      ensures pc == Idle && queue == []
      ensures Same(old(queue) + arrived, drained)
      ensures history == old(history) + RenderAll(backend.Pool(), drained)
      ensures Extension(backend.Pool(), old(history), drained, history)
      ensures batches == [] ==> arrived == [] && drained == old(queue)
    {
      BeginDrain();
      ghost var t0, s0 := trace, Abs();
      ghost var steps := DrainAll(batches);
      arrived, drained := DrainSummary(origin, t0, s0, readings, invocations, steps, Abs());
      EndDrain();
    }

    // ---------------------------------------------------------------- the main loop

    method ReadContextTime() returns (t: real)
      requires Valid() && pc == Idle
      modifies `trace, `readings
      ensures Valid() && trace == old(trace) + [ReadTime]
      ensures t == LastTime(history, start) && start <= t <= clock
      ensures readings == old(readings) + [t]
    {
      Unfold(origin, trace, Abs(), readings, invocations);
      ReadsInRange(origin, trace);
      Step(origin, trace, Abs(), readings, invocations, ReadTime);
      t := LastTime(history, start);
      trace, readings := trace + [ReadTime], readings + [t];
    }

    /** Readings are never ahead of the clock, and never decrease while wakeups come in order. */
    lemma ReadingsAreSafe()
      requires Valid()
      ensures AllWithin(start, readings, clock)
      ensures Ordered(start, trace) ==> Ascending(readings)
    {
      Unfold(origin, trace, Abs(), readings, invocations);
      ContextTimeIsSafe(origin, trace);
    }

    /** Executes a plan element. Only transitions are expected to touch the history. */
    method Execute(i: Instruction<string>, round: Round) returns (r: Outcome)
      requires Valid() && pc == Idle
      modifies `queue, `clock, `trace, `pc, `silent, `history, `invocations
      modifies backend`activities, backend`started, backend.Objects()
      ensures Valid() && old(trace) <= trace && old(clock) <= clock
      ensures !r.Threw? ==> pc == Idle
      ensures invocations == old(invocations) +
              if i.Trans? then [Invocation(i.trans, LastTime(old(history), start), old(clock), old(queue))] else []
      ensures Executions(history) == Executions(old(history)) + if r.Succeeded? then TransitionOf(i) else []
      ensures if i.Trans? then r.Threw? ==> Clashes(i, r.error) else r == Became(round.elsewhere)
      ensures fresh(backend.Objects() - old(backend.Objects()))
    {
      match i {
        case Trans(t) =>
          r := Trans(t, round.precondition, round.others);
          assert r.Succeeded? ==> history[..|history| - 1] == old(history);
          assert !r.Succeeded? ==> history == old(history);
        case Other(_) =>
          r := Became(round.elsewhere);
      }
    }

    /** Executes the first element of the plan, or arranges to be woken up if it is too early. */
    method TryFront(front: TimedInstruction<string>, round: Round)
      returns (r: Outcome, context: real, ghost begun: real)
      requires Valid() && pc == Idle && queue == []
      modifies `queue, `clock, `trace, `pc, `silent, `history, `readings, `invocations
      modifies backend`activities, backend`started, backend`scheduledWakeups, backend.Objects()
      ensures Valid() && old(trace) <= trace
      ensures !r.Threw? ==> pc == Idle
      ensures context <= begun == old(clock) <= clock && readings == old(readings) + [context]
      ensures context < front.window.earliest ==> r.NotPossible? && history == old(history)
      ensures backend.scheduledWakeups ==
              old(backend.scheduledWakeups) + if context < front.window.earliest then {front.window.earliest} else {}
      ensures invocations == old(invocations) + CalledAt(front, context, begun)
      ensures Executions(history) ==
              Executions(old(history)) + if r.Succeeded? then TransitionOf(front.instruction) else []
      ensures front.window.earliest <= context ==>
        if front.instruction.Trans? then r.Threw? ==> Clashes(front.instruction, r.error)
        else r == Became(round.elsewhere)
      ensures fresh(backend.Objects() - old(backend.Objects()))
    {
      context := ReadContextTime();
      begun := clock;
      if front.window.earliest > context {
        var _ := backend.ScheduleTimerEvent(front.window.earliest);
        r := NotPossible;
      } else {
        r := Execute(front.instruction, round);
      }
    }

    /** Draining adds no transitions to the history. */
    method DrainEvents(batches: seq<seq<Label>>) returns (ghost drained: seq<Event>)
      requires Valid() && pc == Idle
      modifies `queue, `clock, `trace, `pc, `silent, `history, backend.Objects()
      ensures Valid() && old(trace) <= trace && old(clock) <= clock && pc == Idle && queue == []
      ensures Executions(history) == Executions(old(history))
      ensures history == old(history) + RenderAll(backend.Pool(), drained) && (old(queue) != [] ==> drained != [])
    {
      ghost var arrived;
      arrived, drained := DrainExogQueue(batches);
      NoExecutions(old(history), backend.Pool(), drained);
      if old(queue) != [] { assert old(queue)[0] in multiset(old(queue) + arrived); }
    }

    /**
     * Waits for events, until the timeout at the latest, and drains them. After a timeout the history
     * holds a time step that is not before it; if nothing else happens, this is the context time.
     */
    method DrainExogQueueBlocking(round: Round, timeout: real) returns (w: Waited, ghost drained: seq<Event>)
      requires Valid() && pc == Idle
      modifies `queue, `clock, `trace, `pc, `silent, `history, backend.Objects()
      ensures Valid() && old(trace) <= trace && old(clock) <= clock && pc == Idle
      ensures Executions(history) == Executions(old(history))
      ensures w == Stopped <==> round.terminatedWaiting
      ensures history == old(history) + RenderAll(backend.Pool(), drained)
      ensures w == Woken || w == TimedOut <==> drained != []
      ensures w == Woken || w == TimedOut ==> queue == []
      ensures w == TimedOut ==> exists e <- history :: e.TimeStep? && timeout <= e.t <= clock
      ensures w == TimedOut && round.late == [] && round.waitDrain == [] ==> timeout <= LastTime(history, start)
      ensures w == Asleep ==> queue == [] && clock < timeout
    {
      Interfere(round.wait);
      drained := [];
      if round.terminatedWaiting { return Stopped, []; }
      if queue != [] {
        drained := DrainEvents(round.waitDrain);
        return Woken, drained;
      }
      if clock < timeout { return Asleep, []; }
      drained := WakeUpAndDrain(round);
      return TimedOut, drained;
    }

    method WakeUpAndDrain(round: Round) returns (ghost drained: seq<Event>)
      requires Valid() && pc == Idle && queue == []
      modifies `queue, `clock, `trace, `pc, `silent, `history, backend.Objects()
      ensures Valid() && old(trace) <= trace && old(clock) <= clock && pc == Idle && queue == []
      ensures Executions(history) == Executions(old(history))
      ensures history == old(history) + RenderAll(backend.Pool(), drained) && StepTime(old(clock)) in drained
      ensures TimeStep(old(clock)) in history
      ensures round.late == [] && round.waitDrain == [] ==> LastTime(history, start) == old(clock)
    {
      var now := ExogTimerWakeup(round.late);
      ghost var q := queue;
      ghost var arrived;
      arrived, drained := DrainExogQueue(round.waitDrain);
      NoExecutions(old(history), backend.Pool(), drained);
      assert StepTime(now) in drained by {
        assert q[0] in multiset(q + arrived);
      }
      TimeStepRecorded(backend.Pool(), drained, now);
      if round.late == [] && round.waitDrain == [] {
        assert drained == [StepTime(now)] && RenderAll(backend.Pool(), drained) == [TimeStep(now)];
      }
    }

    /** The plan stays as it is, in a new object; other transformations are not modelled. */
    method Transform(plan: Plan<string>) returns (p: Plan<string>)
      ensures fresh(p) && p.elements == plan.elements
    {
      p := new Plan();
      p.elements := plan.elements;
    }

    method Reslack(plan: Plan<string>, round: Round) returns (next: Plan<string>)
      requires Valid() && plan.elements != []
      modifies plan, `queue, `clock, `trace, backend.Objects()
      ensures Valid() && old(trace) <= trace && old(clock) <= clock
      ensures fresh(next) && Reslacked(old(plan.elements), next.elements, old(clock), clock)
    {
      var now := clock;
      Interfere(round.replan);
      plan.MakeStartSlack(16384.0, now, clock);
      FirstWindow(plan.elements, Window(now, clock + 16384.0));
      next := Transform(plan);
    }

    /** Moves the plan if its first window has passed or a component has changed its state. */
    method Replan(plan: Plan<string>, round: Round) returns (next: Plan<string>, context: real)
      requires Valid() && pc == Idle && plan.elements != []
      modifies plan, `queue, `clock, `trace, `readings, backend.Objects()
      ensures Valid() && old(trace) <= trace && old(clock) <= clock
      ensures readings == old(readings) + [context] && context == LastTime(history, start)
      ensures if context > old(plan.elements[0].window.latest) || round.stateChangedWaiting
              then fresh(next) && Reslacked(old(plan.elements), next.elements, old(clock), clock)
              else next == plan && next.elements == old(plan.elements)
    {
      context := ReadContextTime();
      next := plan;
      if context > plan.elements[0].window.latest || round.stateChangedWaiting {
        next := Reslack(plan, round);
      }
    }

    /** Looks at the queue before an attempt. */
    method Prepare(plan: Plan<string>, round: Round) returns (next: Plan<string>)
      requires Valid() && pc == Idle
      modifies `queue, `clock, `trace, `pc, `silent, `history, backend.Objects()
      ensures Valid() && old(trace) <= trace && old(clock) <= clock && pc == Idle
      ensures queue == [] && Executions(history) == Executions(old(history))
      ensures (next == plan || fresh(next)) && next.elements == plan.elements
    {
      Interfere(round.arrivals);
      next := plan;
      if queue != [] {
        ghost var _ := DrainEvents(round.drain);
        if round.stateChanged { next := Transform(plan); }
      }
    }

    /** What follows an attempt that failed: waiting, and perhaps moving the plan. */
    method WaitAndReplan(plan: Plan<string>, round: Round)
      returns (next: Plan<string>, stop: Option<Result>, ghost seen: Option<real>, ghost timedOut: bool)
      requires Valid() && pc == Idle && plan.elements != []
      modifies plan, `queue, `clock, `trace, `pc, `silent, `history, `readings, backend.Objects()
      ensures Valid() && old(trace) <= trace && old(clock) <= clock && pc == Idle
      ensures Executions(history) == Executions(old(history))
      ensures next == plan || fresh(next)
      ensures readings == old(readings) + if seen.Some? then [seen.value] else []
      ensures if seen.Some? && (seen.value > old(plan.elements[0].window.latest) || round.stateChangedWaiting)
              then Reslacked(old(plan.elements), next.elements, old(clock), clock)
              else next.elements == old(plan.elements)
      ensures stop.None? <==> seen.Some?
      ensures stop.Some? ==> stop.value == if round.terminatedWaiting then Shutdown else Waiting
      ensures stop == Some(Waiting) ==> clock < old(plan.elements[0].window.latest) + 0.1
      ensures timedOut && round.late == [] && round.waitDrain == [] ==>
        seen.Some? && seen.value > old(plan.elements[0].window.latest)
    {
      var timeout := plan.NextTimeout();
      var w;
      ghost var drained;
      w, drained := DrainExogQueueBlocking(round, timeout);
      next, timedOut := plan, w == TimedOut;
      match w {
        case Stopped => stop, seen := Some(Shutdown), None;
        case Asleep => stop, seen := Some(Waiting), None;
        case _ =>
          var context;
          next, context := Replan(plan, round);
          stop, seen := None, Some(context);
      }
    }

    /** Tries the first element of the plan, and removes it if that was successful. */
    method TryPlan(plan: Plan<string>, round: Round) returns (r: Outcome, context: real, ghost begun: real)
      requires Valid() && pc == Idle && queue == [] && plan.elements != []
      modifies plan, `queue, `clock, `trace, `pc, `silent, `history, `readings, `invocations
      modifies backend`activities, backend`started, backend`scheduledWakeups, backend.Objects()
      ensures Valid() && old(trace) <= trace
      ensures !r.Threw? ==> pc == Idle
      ensures !r.NotPossible? ==> old(plan.elements[0].window.earliest) <= context
      ensures old(plan.elements[0].window.earliest) <= context ==>
        if old(plan.elements[0].instruction).Trans?
        then r.Threw? ==> Clashes(old(plan.elements[0].instruction), r.error)
        else r == Became(round.elsewhere)
      ensures context <= begun == old(clock) <= clock && readings == old(readings) + [context]
      ensures plan.elements == if r.Succeeded? then old(plan.elements)[1..] else old(plan.elements)
      ensures invocations == old(invocations) + CalledAt(old(plan.elements[0]), context, begun)
      ensures Executions(history) == Executions(old(history))
        + if r.Succeeded? then TransitionOf(old(plan.elements[0].instruction)) else []
      ensures fresh(backend.Objects() - old(backend.Objects()))
    {
      r, context, begun := TryFront(plan.elements[0], round);
      if r.Succeeded? {
        plan.elements := plan.elements[1..];
      }
    }

    /** An attempt at the first element of the plan, and what follows if that fails. */
    method TryAndWait(plan: Plan<string>, round: Round)
      returns (next: Plan<string>, stop: Option<Result>, ghost log: Log)
      requires Valid() && pc == Idle && queue == [] && plan.elements != []
      modifies plan, `queue, `clock, `trace, `pc, `silent, `history, `readings, `invocations
      modifies backend`activities, backend`started, backend`scheduledWakeups, backend.Objects()
      ensures Valid() && old(trace) <= trace && old(clock) <= clock
      ensures stop.None? ==> pc == Idle
      ensures next == plan || fresh(next)
      ensures log.plan == old(plan.elements) && log.next == next.elements
      ensures LogOk(log, clock) && old(clock) <= log.begun
      ensures !round.terminated ==> Answers(log, round)
      ensures stop.None? <==> GoesOn(log)
      ensures stop.Some? ==> next.elements != [] && stop.value == StopOf(log.outcome, round)
      ensures stop == Some(Failed(UserError)) ==> Clashes(next.elements[0].instruction, UserError)
      ensures readings == old(readings) + ReadIn(log)
      ensures invocations == old(invocations) + Called(log)
      ensures Executions(history) == Executions(old(history)) + Recorded(log)
      ensures fresh(backend.Objects() - old(backend.Objects()))
    {
      var r, context;
      ghost var begun;
      r, context, begun := TryPlan(plan, round);
      next := plan;
      ghost var seen: Option<real> := None;
      match r {
        case Threw(error) =>
          stop := Some(Failed(error));
        case Succeeded =>
          stop := None;
        case NotPossible =>
          ghost var timedOut;
          next, stop, seen, timedOut := WaitAndReplan(plan, round);
      }
      log := Log(old(plan.elements), context, begun, r, seen, round.stateChangedWaiting, next.elements);
    }

    /** One round of the loop over a plan; a termination request may end it before the plan is looked at. */
    method RunRound(plan: Plan<string>, round: Round)
      returns (next: Plan<string>, stop: Option<Result>, ghost log: Option<Log>)
      requires Valid() && pc == Idle && plan.elements != []
      modifies plan, `queue, `clock, `trace, `pc, `silent, `history, `readings, `invocations
      modifies backend`activities, backend`started, backend`scheduledWakeups, backend.Objects()
      ensures Valid() && old(trace) + [Label.SetSilent] <= trace && old(clock) <= clock
      ensures stop.None? ==> pc == Idle
      ensures next == plan || fresh(next)
      ensures log.None? <==> round.terminated
      ensures log.None? ==> stop == Some(Shutdown) && next.elements == old(plan.elements)
      ensures log.None? ==>
        readings == old(readings) && invocations == old(invocations) && history == old(history)
      ensures log.Some? ==>
        log.value.plan == old(plan.elements) && log.value.next == next.elements && LogOk(log.value, clock)
      ensures log.Some? ==> Answers(log.value, round) && (stop.None? <==> GoesOn(log.value))
      ensures log.Some? && stop.Some? ==> stop.value == StopOf(log.value.outcome, round)
      ensures stop.Some? ==> next.elements != []
      ensures stop == Some(Failed(UserError)) ==> Clashes(next.elements[0].instruction, UserError)
      ensures log.Some? ==>
        && readings == old(readings) + ReadIn(log.value) && invocations == old(invocations) + Called(log.value)
        && Executions(history) == Executions(old(history)) + Recorded(log.value)
      ensures fresh(backend.Objects() - old(backend.Objects()))
    {
      SetSilent();
      if round.terminated {
        return plan, Some(Shutdown), None;
      }
      next := Prepare(plan, round);
      ghost var l;
      next, stop, l := TryAndWait(next, round);
      log := Some(l);
    }

    /** The next round of a loop that has logged its rounds so far, since it began with these elements. */
    method NextRound(plan: Plan<string>, rounds: seq<Round>, i: nat, ghost logs: seq<Log>, ghost first: Elements,
                     ghost r0: seq<real>, ghost c0: seq<Invocation>, ghost h0: seq<Entry>)
      returns (next: Plan<string>, stop: Option<Result>, ghost longer: seq<Log>)
      requires Valid() && pc == Idle && plan.elements != []
      requires |logs| == i < |rounds| && Logged(first, logs, plan.elements, rounds, clock) && AllGoOn(logs)
      requires Tallied(logs, (r0, readings), (c0, invocations), (h0, history))
      modifies plan, `queue, `clock, `trace, `pc, `silent, `history, `readings, `invocations
      modifies backend`activities, backend`started, backend`scheduledWakeups, backend.Objects()
      ensures Valid() && old(trace) <= trace
      ensures next == plan || fresh(next)
      ensures Logged(first, longer, next.elements, rounds, clock)
      ensures Tallied(longer, (r0, readings), (c0, invocations), (h0, history))
      ensures stop.None? ==> pc == Idle && |longer| == i + 1 && AllGoOn(longer)
      ensures stop.Some? ==> Ended(stop.value, next.elements, longer, rounds)
      ensures stop == Some(Failed(UserError)) ==> Clashes(next.elements[0].instruction, UserError)
      ensures fresh(backend.Objects() - old(backend.Objects()))
    {
      ghost var log;
      next, stop, log := RunRound(plan, rounds[i]);
      AddRound(first, logs, log, rounds, old(plan.elements), next.elements, old(clock), clock,
               r0, old(readings), readings, c0, old(invocations), invocations, h0, old(history), history);
      if stop.Some? { EndedByRound(stop.value, next.elements, logs, log, rounds); }
      longer := logs + LogOf(log);
    }

    method RunRounds(plan: Plan<string>, rounds: seq<Round>)
      returns (rest: Plan<string>, result: Result, ghost logs: seq<Log>)
      requires Valid() && pc == Idle
      modifies plan, `queue, `clock, `trace, `pc, `silent, `history, `readings, `invocations
      modifies backend`activities, backend`started, backend`scheduledWakeups, backend.Objects()
      ensures Valid() && old(trace) <= trace
      ensures Logged(old(plan.elements), logs, rest.elements, rounds, clock)
      ensures Tallied(logs, (old(readings), readings), (old(invocations), invocations), (old(history), history))
      ensures Ended(result, rest.elements, logs, rounds)
      ensures result == Failed(UserError) ==> Clashes(rest.elements[0].instruction, UserError)
    {
      rest, logs := plan, [];
      var i := 0;
      while rest.elements != [] && i < |rounds|
        invariant Valid() && pc == Idle && old(trace) <= trace && |logs| == i <= |rounds|
        invariant rest == plan || fresh(rest)
        invariant fresh(backend.Objects() - old(backend.Objects()))
        invariant Logged(old(plan.elements), logs, rest.elements, rounds, clock) && AllGoOn(logs)
        invariant Tallied(logs, (old(readings), readings), (old(invocations), invocations), (old(history), history))
        decreases |rounds| - i
      {
        var stop;
        rest, stop, logs := NextRound(rest, rounds, i, logs, old(plan.elements),
                                      old(readings), old(invocations), old(history));
        if stop.Some? { return rest, stop.value, logs; }
        i := i + 1;
      }
      EndedByItself(rest.elements, logs, rounds);
      result := if rest.elements == [] then Finished else Waiting;
    }

    /**
     * The loop over a plan, with the identity transformation. Whatever happens meanwhile, every round
     * starts from the plan that the last one left, executes its first element only when that is due, and
     * otherwise only moves the plan. Nothing else is called or enters the history as a transition.
     */
    method RunPlan(plan: Plan<string>, rounds: seq<Round>)
      returns (rest: Plan<string>, result: Result, ghost logs: seq<Log>)
      requires Valid() && pc == Idle
      modifies plan, `queue, `clock, `trace, `pc, `silent, `history, `readings, `invocations
      modifies backend`activities, backend`started, backend`scheduledWakeups, backend.Objects()
      ensures Valid() && old(trace) <= trace
      ensures Chained(old(plan.elements), logs, rest.elements) && AllOk(logs, clock) && FromRounds(logs, rounds)
      ensures readings == old(readings) + Collect(logs, ReadIn)
      ensures invocations == old(invocations) + Collect(logs, Called)
      ensures Executions(history) == Executions(old(history)) + Collect(logs, Recorded)
      ensures Collect(logs, Completed) + Instructions(rest.elements) == Instructions(old(plan.elements))
      ensures AllWithin(start, readings, clock) && (Ordered(start, trace) ==> Ascending(readings))
      ensures Ended(result, rest.elements, logs, rounds)
      ensures StartsAreFree(Instructions(old(plan.elements)), old(history)) ==> result != Failed(UserError)
    {
      rest, result, logs := RunRounds(plan, rounds);
      NothingIsSkipped(old(plan.elements), logs, rest.elements, clock);
      ReadingsAreSafe();
      if StartsAreFree(Instructions(old(plan.elements)), old(history)) && result == Failed(UserError) {
        NextStartIsFree(Instructions(old(plan.elements)), old(history), logs, rest.elements, history);
      }
    }
  }
}
