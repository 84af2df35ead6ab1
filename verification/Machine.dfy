/**
 * The execution engine as a step machine. One executor thread calls transitions and drains the event
 * queue; backend threads update activities, post events and fire timers in between. Every section under
 * a lock is one step.
 */
module Machine {
  import opened Golog

  datatype ActivityState = IDLE | RUNNING | FINAL | CANCELLED | FAILED

  function TargetState(h: Hook): ActivityState {
    match h
    case START => RUNNING
    case CANCEL => CANCELLED
    case FINISH => FINAL
    case FAIL => FAILED
    case END => IDLE
  }

  /** Calls with ground arguments, which are given by their text. */
  type Key = Call<string>

  /** What a sensing activity has sensed is a value that the platform provides with the activity's update. */
  datatype Snapshot = Snapshot(call: Key, state: ActivityState, sensed: string)

  /** What waits in the queue: a time step, a component state switch, an exogenous action, or an activity. */
  datatype Event = StepTime(t: real) | SwitchState(id: nat) | Exog(name: string, quiet: bool) | Report(id: nat)

  datatype Entry = Executed(trans: Transition<string>) | TimeStep(t: real) | Happened(name: string)
                 | Sensed(call: Key, value: string) | Reported(call: Key, state: ActivityState)

  datatype Error = UserError | LostTransition | InconsistentTransition | Bug

  /** Where the executor is. A drain remembers the length of the history at its start. */
  datatype PC = Idle
              | Draining(since: nat)
              | Reading(t: Transition<string>)
              | Rereading(t: Transition<string>)
              | Evaluating(t: Transition<string>)
              | Acting(t: Transition<string>)
              | Appending(t: Transition<string>)
              | Raised(error: Error, t: Transition<string>)

  /** `activities` maps keys to activity objects, all of which stay in `pool` once created. */
  datatype Sys = Sys(activities: map<Key, nat>, pool: seq<Snapshot>, queue: seq<Event>, history: seq<Entry>,
                     silent: bool, clock: real, start: real, pc: PC)

  datatype Label =
    // the environment
    | Tick(dt: real)
    | Post(e: Event)
    | Wakeup(when: real)
    | Update(id: nat, hook: Hook, sensed: string)
    // the executor
    | SetSilent
    | Invoke(t: Transition<string>)
    | Read
    | Evaluate(precondition: bool)
    | Act
    | Append
    | BeginDrain
    | Pop
    | EndDrain
    | ReadTime

  // ---------------------------------------------------------------- steps

  predicate References(s: Sys) {
    forall g <- s.activities :: s.activities[g] < |s.pool|
  }

  function CurrentState(s: Sys, g: Key): ActivityState {
    if g in s.activities && s.activities[g] < |s.pool| then s.pool[s.activities[g]].state else IDLE
  }

  /**
   * A timer wakes up at the front of the queue, some time after it has read the clock; a backend reports
   * each activity once, when it is over.
   */
  predicate Enabled(s: Sys, l: Label) {
    match l
    case Tick(dt) => dt >= 0.0
    case Post(e) => e.SwitchState? || e.Exog?
    case Wakeup(t) => s.start <= t <= s.clock
    case Update(id, h, _) => id < |s.pool| && s.pool[id].state == RUNNING && (h.FINISH? || h.FAIL? || h.CANCEL?)
    case SetSilent => s.pc == Idle
    case Invoke(_) => s.pc == Idle
    case Read => s.pc.Reading? || s.pc.Rereading?
    case Evaluate(_) => s.pc.Evaluating?
    case Act => s.pc.Acting?
    case Append => s.pc.Appending?
    case BeginDrain => s.pc == Idle
    case Pop => s.pc.Draining? && s.queue != []
    case EndDrain => s.pc.Draining? && s.queue == []
    case ReadTime => s.pc == Idle
  }

  predicate FromEnvironment(l: Label) {
    l.Tick? || l.Post? || l.Wakeup? || l.Update?
  }

  /** The guard of a transition: what the executor does next, given the state it has read. */
  function AfterRead(t: Transition<string>, reread: bool, state: ActivityState): PC {
    match t.hook
    case CANCEL => if state == RUNNING then Acting(t) else Idle
    case START => if state != RUNNING then Evaluating(t) else Idle
    case FINISH => if state == FINAL then Acting(t) else Idle
    case FAIL => if state == FAILED then Acting(t) else Idle
    case END =>
      if !reread then (if state == FAILED then Acting(t) else Rereading(t))
      else if state == FINAL then Acting(t) else Idle
  }

  /** The condition under which an activity may be erased from the map. */
  predicate Erasable(h: Hook, state: ActivityState) {
    (h == END && (state == FINAL || state == FAILED || state == CANCELLED)) || state == TargetState(h)
  }

  function Acted(s: Sys, t: Transition<string>): Sys {
    match t.hook
    case START =>
      if t.call in s.activities then s.(pc := Raised(UserError, t))
      else s.(activities := s.activities[t.call := |s.pool|],
              pool := s.pool + [Snapshot(t.call, TargetState(START), "")],
              pc := Appending(t))
    case CANCEL =>
      if t.call !in s.activities then s.(pc := Raised(Bug, t)) else s.(pc := Appending(t))
    case _ =>
      if t.call !in s.activities then s.(pc := Raised(LostTransition, t))
      else if Erasable(t.hook, CurrentState(s, t.call)) then
        s.(activities := s.activities - {t.call}, pc := Appending(t))
      else s.(pc := Raised(InconsistentTransition, t))
  }

  predicate Quiet(pool: seq<Snapshot>, e: Event) {
    match e
    case Exog(_, quiet) => quiet
    case Report(id) => id < |pool| && pool[id].call.target.silent
    case _ => e.SwitchState?
  }

  /** History entries for an event: none for a state switch, and a sensing result before its activity. */
  function Render(pool: seq<Snapshot>, e: Event): seq<Entry> {
    match e
    case StepTime(t) => [TimeStep(t)]
    case SwitchState(_) => []
    case Exog(name, _) => [Happened(name)]
    case Report(id) =>
      if id >= |pool| then []
      else
        var sensed := if pool[id].call.target.senses then [Sensed(pool[id].call, pool[id].sensed)] else [];
        sensed + [Reported(pool[id].call, pool[id].state)]
  }

  function Next(s: Sys, l: Label): Sys
    requires Enabled(s, l)
  {
    match l
    case Tick(dt) => s.(clock := s.clock + dt)
    case Post(e) => s.(queue := s.queue + [e])
    case Wakeup(t) => s.(queue := [StepTime(t)] + s.queue)
    case Update(id, h, sensed) =>
      s.(pool := s.pool[id := s.pool[id].(state := TargetState(h), sensed := sensed)], queue := s.queue + [Report(id)])
    case SetSilent => s.(silent := true)
    case Invoke(t) => s.(pc := Reading(t))
    case Read => s.(pc := AfterRead(s.pc.t, s.pc.Rereading?, CurrentState(s, s.pc.t.call)))
    case Evaluate(b) => s.(pc := if b then Acting(s.pc.t) else Idle)
    case Act => Acted(s, s.pc.t)
    case Append =>
      s.(silent := s.silent && s.pc.t.call.target.silent, history := s.history + [Executed(s.pc.t)], pc := Idle)
    case BeginDrain => s.(pc := Draining(|s.history|))
    case Pop =>
      s.(queue := s.queue[1..], silent := s.silent && Quiet(s.pool, s.queue[0]),
         history := s.history + Render(s.pool, s.queue[0]))
    case EndDrain => s.(pc := Idle)
    case ReadTime => s
  }

  predicate Legal(s: Sys, ls: seq<Label>)
    decreases |ls|
  {
    ls == [] || (Enabled(s, ls[0]) && Legal(Next(s, ls[0]), ls[1..]))
  }

  function Run(s: Sys, ls: seq<Label>): Sys
    requires Legal(s, ls)
    decreases |ls|
  {
    if ls == [] then s else Run(Next(s, ls[0]), ls[1..])
  }

  lemma {:induction false} RunAppend(s: Sys, a: seq<Label>, b: seq<Label>)
    requires Legal(s, a) && Legal(Run(s, a), b)
    ensures Legal(s, a + b) && Run(s, a + b) == Run(Run(s, a), b)
    decreases |a|
  {
    if a == [] {
      assert a + b == b;
    } else {
      assert (a + b)[0] == a[0] && (a + b)[1..] == a[1..] + b;
      RunAppend(Next(s, a[0]), a[1..], b);
    }
  }

  lemma RunOne(s: Sys, l: Label)
    requires Enabled(s, l)
    ensures Legal(s, [l]) && Run(s, [l]) == Next(s, l)
  {
    assert [l][1..] == [];
    assert Legal(Next(s, l), []) && Run(Next(s, l), []) == Next(s, l);
    assert Legal(s, [l]) && Run(s, [l]) == Run(Next(s, l), [l][1..]);
  }

  lemma RunSnoc(s: Sys, a: seq<Label>, l: Label)
    requires Legal(s, a) && Enabled(Run(s, a), l)
    ensures Legal(s, a + [l]) && Run(s, a + [l]) == Next(Run(s, a), l)
  {
    RunOne(Run(s, a), l);
    RunAppend(s, a, [l]);
  }

  lemma {:induction false} RunSplit(s: Sys, a: seq<Label>, b: seq<Label>)
    requires Legal(s, a + b)
    ensures Legal(s, a) && Legal(Run(s, a), b) && Run(s, a + b) == Run(Run(s, a), b)
    decreases |a|
  {
    if a == [] {
      assert a + b == b;
    } else {
      assert (a + b)[0] == a[0] && (a + b)[1..] == a[1..] + b;
      RunSplit(Next(s, a[0]), a[1..], b);
    }
  }

  predicate Initial(s: Sys) {
    && s.activities == map[] && s.pool == [] && s.queue == [] && s.history == [] && s.pc == Idle
    && s.start <= s.clock
  }
}

/** What every run of the machine keeps: activities, errors and the transitions in the history. */
module ActivityProtocol {
  import opened Golog
  import opened Machine

  predicate Terminated(a: ActivityState) {
    a == FINAL || a == FAILED || a == CANCELLED
  }

  /** Every running activity is the one registered for its call. */
  ghost predicate Registered(s: Sys) {
    && References(s)
    && (forall g <- s.activities :: s.pool[s.activities[g]].call == g)
    && (forall i :: 0 <= i < |s.pool| ==> s.pool[i].state != IDLE)
    && (forall i :: 0 <= i < |s.pool| && s.pool[i].state == RUNNING ==>
          s.pool[i].call in s.activities && s.activities[s.pool[i].call] == i)
  }

  /** What the executor may rely on between its check and its action. */
  ghost predicate GuardHolds(s: Sys) {
    match s.pc
    case Rereading(t) => t.hook == END
    case Evaluating(t) => t.hook == START && CurrentState(s, t.call) != RUNNING
    case Acting(t) =>
      (match t.hook
       case START => CurrentState(s, t.call) != RUNNING
       case CANCEL => t.call in s.activities
       case FINISH => CurrentState(s, t.call) == FINAL
       case FAIL => CurrentState(s, t.call) == FAILED
       case END => CurrentState(s, t.call) == FINAL || CurrentState(s, t.call) == FAILED)
    case Raised(e, t) => e == UserError && t.hook == START && Terminated(CurrentState(s, t.call))
    case _ => true
  }

  lemma RegisteredAfterUpdate(s: Sys, id: nat, h: Hook, sensed: string)
    requires Registered(s) && Enabled(s, Update(id, h, sensed))
    ensures Registered(Next(s, Update(id, h, sensed)))
  {
    var n := Next(s, Update(id, h, sensed));
    assert forall i :: 0 <= i < |s.pool| ==> n.pool[i].call == s.pool[i].call;
  }

  lemma RegisteredAfterStart(s: Sys, t: Transition<string>)
    requires Registered(s) && t.hook == START && t.call !in s.activities
    ensures Registered(Acted(s, t))
  {
    var n := Acted(s, t);
    assert forall i :: 0 <= i < |s.pool| ==> n.pool[i] == s.pool[i];
  }

  lemma RegisteredAfterErase(s: Sys, t: Transition<string>, pc: PC)
    requires Registered(s) && CurrentState(s, t.call) != RUNNING
    ensures Registered(s.(activities := s.activities - {t.call}, pc := pc))
  {
  }

  lemma {:induction false} RegisteredStep(s: Sys, l: Label)
    requires Registered(s) && Enabled(s, l) && (FromEnvironment(l) || GuardHolds(s))
    ensures Registered(Next(s, l))
  {
    match l
    case Update(id, h, sensed) => RegisteredAfterUpdate(s, id, h, sensed);
    case Act =>
      var t := s.pc.t;
      if t.hook.START? {
        if t.call !in s.activities { RegisteredAfterStart(s, t); }
      } else if !t.hook.CANCEL? {
        RegisteredAfterErase(s, t, Appending(t));
      }
    case _ =>
      assert Next(s, l).activities == s.activities && Next(s, l).pool == s.pool;
  }

  /** Updates leave terminated and unregistered keys alone, and running ones in the map. */
  lemma UpdateIsStable(s: Sys, l: Label, g: Key)
    requires Registered(s) && Enabled(s, l) && FromEnvironment(l)
    ensures Next(s, l).activities == s.activities && Next(s, l).pc == s.pc
    ensures CurrentState(s, g) != RUNNING ==> CurrentState(Next(s, l), g) == CurrentState(s, g)
  {
  }

  lemma {:induction false} GuardStep(s: Sys, l: Label)
    requires Registered(s) && GuardHolds(s) && Enabled(s, l)
    ensures GuardHolds(Next(s, l))
  {
    if FromEnvironment(l) {
      match s.pc
      case Evaluating(t) => UpdateIsStable(s, l, t.call);
      case Acting(t) => UpdateIsStable(s, l, t.call);
      case Raised(_, t) => UpdateIsStable(s, l, t.call);
      case _ =>
    }
  }

  // ---------------------------------------------------------------- the only exception

  lemma {:induction false} InvariantRun(s: Sys, ls: seq<Label>)
    requires Registered(s) && GuardHolds(s) && Legal(s, ls)
    ensures Registered(Run(s, ls)) && GuardHolds(Run(s, ls))
    decreases |ls|
  {
    if ls != [] {
      RegisteredStep(s, ls[0]);
      GuardStep(s, ls[0]);
      InvariantRun(Next(s, ls[0]), ls[1..]);
    }
  }

  /**
   * In no interleaving does a transition lose its activity or find it in an unexpected state. The only
   * exception is the user error of a start whose call still has a terminated activity in the map.
   */
  lemma OnlyUserErrors(s: Sys, ls: seq<Label>)
    requires Initial(s) && Legal(s, ls)
    ensures var e := Run(s, ls);
      e.pc.Raised? ==> e.pc.error == UserError && e.pc.t.hook == START && Terminated(CurrentState(e, e.pc.t.call))
  {
    InvariantRun(s, ls);
  }

  /** Every update finds its activity in the map, under its own call. */
  lemma UpdatesHitTheMap(s: Sys, ls: seq<Label>, id: nat, h: Hook, sensed: string)
    requires Initial(s) && Legal(s, ls) && Enabled(Run(s, ls), Update(id, h, sensed))
    ensures var e := Run(s, ls); e.pool[id].call in e.activities && e.activities[e.pool[id].call] == id
  {
    InvariantRun(s, ls);
  }

  predicate EnvironmentOnly(ls: seq<Label>) {
    forall l <- ls :: FromEnvironment(l)
  }

  lemma {:induction false} EnvironmentIsStable(s: Sys, ls: seq<Label>, g: Key)
    requires Registered(s) && Legal(s, ls) && EnvironmentOnly(ls)
    ensures Registered(Run(s, ls))
    ensures Run(s, ls).activities == s.activities && Run(s, ls).pc == s.pc && Run(s, ls).history == s.history
    ensures CurrentState(s, g) != RUNNING ==> CurrentState(Run(s, ls), g) == CurrentState(s, g)
    decreases |ls|
  {
    if ls != [] {
      assert FromEnvironment(ls[0]);
      RegisteredStep(s, ls[0]);
      UpdateIsStable(s, ls[0], g);
      EnvironmentIsStable(Next(s, ls[0]), ls[1..], g);
    }
  }

  /**
   * A start that has just been invoked, whatever the backend does between its steps: it raises the user
   * error exactly when the precondition holds and a terminated activity of the same call is registered;
   * it starts the activity exactly when the precondition holds and none is registered.
   */
  lemma StartOutcome(s: Sys, t: Transition<string>, e1: seq<Label>, b: bool, e2: seq<Label>, m: Sys)
    requires Registered(s) && s.pc == Reading(t) && t.hook == START && CurrentState(s, t.call) != RUNNING
    requires EnvironmentOnly(e1) && EnvironmentOnly(e2) && Legal(Next(s, Read), e1)
    requires var v := Run(Next(s, Read), e1);
      Enabled(v, Evaluate(b)) && Legal(Next(v, Evaluate(b)), e2) && m == Run(Next(v, Evaluate(b)), e2)
    ensures m.pc == if b then Acting(t) else Idle
    ensures b ==> (Acted(m, t).pc == Raised(UserError, t) <==> Terminated(CurrentState(s, t.call)))
    ensures b ==> (Acted(m, t).pc == Appending(t) <==> t.call !in s.activities)
    ensures t.call !in s.activities ==> CurrentState(Acted(m, t), t.call) == RUNNING
  {
    var r := Next(s, Read);
    EnvironmentIsStable(r, e1, t.call);
    var v := Next(Run(r, e1), Evaluate(b));
    EnvironmentIsStable(v, e2, t.call);
  }

  /**
   * A cancel of a running activity, whatever the backend does between its steps: it passes its check and
   * is performed, even if the activity has ended meanwhile.
   */
  lemma CancelOutcome(s: Sys, t: Transition<string>, e: seq<Label>, m: Sys)
    requires Registered(s) && s.pc == Reading(t) && t.hook == CANCEL && CurrentState(s, t.call) == RUNNING
    requires EnvironmentOnly(e) && Legal(Next(s, Read), e) && m == Run(Next(s, Read), e)
    ensures m.pc == Acting(t) && Acted(m, t) == m.(pc := Appending(t))
  {
    EnvironmentIsStable(Next(s, Read), e, t.call);
  }

  /** The states in which an activity is erased: those that the hook names, and any terminal one for an end. */
  lemma ErasableStates(h: Hook, state: ActivityState)
    requires state != IDLE
    ensures h == FINISH ==> (Erasable(h, state) <==> state == FINAL)
    ensures h == FAIL ==> (Erasable(h, state) <==> state == FAILED)
    ensures h == END ==> (Erasable(h, state) <==> state == FINAL || state == FAILED || state == CANCELLED)
  {
  }

  // ---------------------------------------------------------------- states follow updates

  /** The hook of the last update of an activity. */
  function LastUpdate(ls: seq<Label>, id: nat): Option<Hook> {
    if ls == [] then None
    else
      var last := ls[|ls| - 1];
      if last.Update? && last.id == id then Some(last.hook) else LastUpdate(ls[..|ls| - 1], id)
  }

  predicate StateFollows(state: ActivityState, hook: Option<Hook>) {
    && (hook == None ==> state == RUNNING)
    && (hook == Some(FINISH) ==> state == FINAL)
    && (hook == Some(FAIL) ==> state == FAILED)
    && (hook == Some(CANCEL) ==> state == CANCELLED)
    && hook != Some(START) && hook != Some(END)
  }

  lemma UpdateStep(s: Sys, l: Label, id: nat)
    requires Enabled(s, l) && id < |Next(s, l).pool|
    ensures l.Update? && l.id == id ==> StateFollows(Next(s, l).pool[id].state, Some(l.hook))
    ensures !(l.Update? && l.id == id) && id < |s.pool| ==> Next(s, l).pool[id].state == s.pool[id].state
    ensures id >= |s.pool| ==> Next(s, l).pool[id].state == RUNNING && !l.Update?
  {
    match l
    case Act =>
    case Update(_, _, _) =>
    case _ => assert Next(s, l).pool == s.pool;
  }

  lemma {:induction false} NoUpdateBeforeStart(s: Sys, ls: seq<Label>, id: nat)
    requires Legal(s, ls) && id >= |Run(s, ls).pool|
    ensures LastUpdate(ls, id) == None
    decreases |ls|
  {
    if ls != [] {
      var n := |ls| - 1;
      assert ls == ls[..n] + [ls[n]];
      RunSplit(s, ls[..n], [ls[n]]);
      RunOne(Run(s, ls[..n]), ls[n]);
      NoUpdateBeforeStart(s, ls[..n], id);
    }
  }

  /** In every run an activity is running until its update, and then final, failed or cancelled as that says. */
  lemma {:induction false} StatesFollowUpdates(s: Sys, ls: seq<Label>, id: nat)
    requires Initial(s) && Legal(s, ls) && id < |Run(s, ls).pool|
    ensures StateFollows(Run(s, ls).pool[id].state, LastUpdate(ls, id))
    decreases |ls|
  {
    if ls != [] {
      var n := |ls| - 1;
      assert ls == ls[..n] + [ls[n]];
      RunSplit(s, ls[..n], [ls[n]]);
      RunOne(Run(s, ls[..n]), ls[n]);
      var m := Run(s, ls[..n]);
      UpdateStep(m, ls[n], id);
      if id < |m.pool| {
        StatesFollowUpdates(s, ls[..n], id);
      } else {
        NoUpdateBeforeStart(s, ls[..n], id);
      }
    }
  }

  // ---------------------------------------------------------------- starts and ends balance

  function Weight(g: Key, t: Transition<string>): int {
    if t.call != g then 0
    else match t.hook
      case START => 1
      case CANCEL => 0
      case _ => -1
  }

  /** Starts minus finishes, fails and ends of a call in the history. */
  function Balance(g: Key, h: seq<Entry>): int {
    if h == [] then 0
    else Balance(g, h[..|h| - 1]) + if h[|h| - 1].Executed? then Weight(g, h[|h| - 1].trans) else 0
  }

  function Pending(g: Key, pc: PC): int {
    if pc.Appending? then Weight(g, pc.t) else 0
  }

  ghost predicate Balanced(s: Sys, g: Key) {
    Balance(g, s.history) + Pending(g, s.pc) == if g in s.activities then 1 else 0
  }

  lemma {:induction false} BalanceAppend(g: Key, h: seq<Entry>, more: seq<Entry>)
    requires forall e <- more :: !e.Executed?
    ensures Balance(g, h + more) == Balance(g, h)
  {
    if more == [] {
      assert h + more == h;
    } else {
      var n := |more| - 1;
      assert (h + more)[..|h + more| - 1] == h + more[..n];
      BalanceAppend(g, h, more[..n]);
    }
  }

  lemma BalancedStep(s: Sys, l: Label, g: Key)
    requires Registered(s) && GuardHolds(s) && Balanced(s, g) && Enabled(s, l)
    ensures Balanced(Next(s, l), g)
  {
    match l
    case Pop =>
      BalanceAppend(g, s.history, Render(s.pool, s.queue[0]));
    case Append =>
      var h := s.history + [Executed(s.pc.t)];
      assert h[..|h| - 1] == s.history;
    case _ =>
  }

  lemma {:induction false} BalancedRun(s: Sys, ls: seq<Label>, g: Key)
    requires Registered(s) && GuardHolds(s) && Balanced(s, g) && Legal(s, ls)
    ensures Balanced(Run(s, ls), g)
    decreases |ls|
  {
    if ls != [] {
      RegisteredStep(s, ls[0]);
      GuardStep(s, ls[0]);
      BalancedStep(s, ls[0], g);
      BalancedRun(Next(s, ls[0]), ls[1..], g);
    }
  }

  /**
   * Whenever no transition is between its action and its history entry, the starts of a call in the
   * history exceed its ends by one if the call is registered, and equal them otherwise.
   */
  lemma HistoryMatchesMap(s: Sys, ls: seq<Label>, g: Key)
    requires Initial(s) && Legal(s, ls)
    ensures var e := Run(s, ls);
      && (!e.pc.Appending? ==> Balance(g, e.history) == if g in e.activities then 1 else 0)
      && -1 <= Balance(g, e.history) - (if g in e.activities then 1 else 0) <= 1
  {
    BalancedRun(s, ls, g);
  }

  // ---------------------------------------------------------------- cancelled activities are stuck

  /** No transition ever erases a cancelled activity, although erasing one for an end is provided for. */
  lemma NoEndErasesCancelled(s: Sys, ls: seq<Label>)
    requires Initial(s) && Legal(s, ls)
    ensures var e := Run(s, ls);
      e.pc.Acting? && HookRank(e.pc.t.hook) <= HookRank(END) ==> CurrentState(e, e.pc.t.call) != CANCELLED
  {
    InvariantRun(s, ls);
  }

  /** The history entry of a transition of this call that has passed its guard and will not fail. */
  function InFlight(g: Key, pc: PC): seq<Entry> {
    if (pc.Appending? || (pc.Acting? && pc.t.hook == CANCEL)) && pc.t.call == g then [Executed(pc.t)] else []
  }

  function TransitionsOf(g: Key, h: seq<Entry>): seq<Entry> {
    if h == [] then []
    else
      var last := h[|h| - 1];
      TransitionsOf(g, h[..|h| - 1]) + (if last.Executed? && last.trans.call == g then [last] else [])
  }

  lemma {:induction false} TransitionsAppend(g: Key, h: seq<Entry>, more: seq<Entry>)
    requires forall e <- more :: !e.Executed?
    ensures TransitionsOf(g, h + more) == TransitionsOf(g, h)
  {
    if more == [] {
      assert h + more == h;
    } else {
      var n := |more| - 1;
      assert (h + more)[..|h + more| - 1] == h + more[..n];
      TransitionsAppend(g, h, more[..n]);
    }
  }

  /** The entries of the call so far, and the one that is under way. */
  function Claimed(s: Sys, g: Key): seq<Entry> {
    TransitionsOf(g, s.history) + InFlight(g, s.pc)
  }

  lemma ClaimedAfterAppend(s: Sys, g: Key)
    requires Enabled(s, Append)
    ensures Claimed(Next(s, Append), g) == Claimed(s, g)
  {
    var h := s.history + [Executed(s.pc.t)];
    assert h[..|h| - 1] == s.history;
    assert InFlight(g, Idle) == [];
  }

  lemma CancelledStep(s: Sys, l: Label, g: Key)
    requires Registered(s) && GuardHolds(s) && Enabled(s, l) && CurrentState(s, g) == CANCELLED
    ensures CurrentState(Next(s, l), g) == CANCELLED
    ensures Claimed(Next(s, l), g) == Claimed(s, g)
    ensures InFlight(g, s.pc) == [] ==> InFlight(g, Next(s, l).pc) == []
  {
    match l
    case Update(_, _, _) => UpdateIsStable(s, l, g);
    case Pop => TransitionsAppend(g, s.history, Render(s.pool, s.queue[0]));
    case Append => ClaimedAfterAppend(s, g);
    case _ =>
  }

  /**
   * Once cancelled, an activity stays in the map for good. The only transition of its call that the
   * history can still gain is the one that was under way when the cancelling update arrived; if there
   * was none, it gains no more.
   */
  lemma {:induction false} CancelledForever(s: Sys, ls: seq<Label>, g: Key)
    requires Registered(s) && GuardHolds(s) && Legal(s, ls) && CurrentState(s, g) == CANCELLED
    ensures CurrentState(Run(s, ls), g) == CANCELLED
    ensures Claimed(Run(s, ls), g) == Claimed(s, g)
    ensures InFlight(g, s.pc) == [] ==>
      InFlight(g, Run(s, ls).pc) == [] && TransitionsOf(g, Run(s, ls).history) == TransitionsOf(g, s.history)
    decreases |ls|
  {
    if ls != [] {
      RegisteredStep(s, ls[0]);
      GuardStep(s, ls[0]);
      CancelledStep(s, ls[0], g);
      CancelledForever(Next(s, ls[0]), ls[1..], g);
    }
    assert TransitionsOf(g, s.history) + [] == TransitionsOf(g, s.history);
    assert TransitionsOf(g, Run(s, ls).history) + [] == TransitionsOf(g, Run(s, ls).history);
  }
}
