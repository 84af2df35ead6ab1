/** What every run does with the events: none is lost or repeated, and each is recorded when it is drained. */
module EventQueue {
  import opened Golog
  import opened Machine
  import opened ActivityProtocol

  /** The event that a step puts into the queue. */
  function Arrival(s: Sys, l: Label): seq<Event> {
    match l
    case Post(e) => [e]
    case Wakeup(t) => [StepTime(t)]
    case Update(id, _, _) => [Report(id)]
    case _ => []
  }

  function Removal(s: Sys, l: Label): seq<Event>
    requires Enabled(s, l)
  {
    if l.Pop? then [s.queue[0]] else []
  }

  /** The events that arrive during a run, in this order. */
  function Arrived(s: Sys, ls: seq<Label>): seq<Event>
    requires Legal(s, ls)
    decreases |ls|
  {
    if ls == [] then [] else Arrival(s, ls[0]) + Arrived(Next(s, ls[0]), ls[1..])
  }

  /** The events that are taken out during a run, in this order. */
  function Popped(s: Sys, ls: seq<Label>): seq<Event>
    requires Legal(s, ls)
    decreases |ls|
  {
    if ls == [] then [] else Removal(s, ls[0]) + Popped(Next(s, ls[0]), ls[1..])
  }

  function NonTimers(q: seq<Event>): seq<Event> {
    if q == [] then [] else (if q[0].StepTime? then [] else [q[0]]) + NonTimers(q[1..])
  }

  lemma {:induction false} NonTimersConcat(a: seq<Event>, b: seq<Event>)
    ensures NonTimers(a + b) == NonTimers(a) + NonTimers(b)
  {
    if a == [] {
      assert a + b == b;
    } else {
      assert (a + b)[0] == a[0] && (a + b)[1..] == a[1..] + b;
      NonTimersConcat(a[1..], b);
    }
  }

  /** The same events with the same multiplicity, and in the same order apart from the timers. */
  ghost predicate Same(a: seq<Event>, b: seq<Event>) {
    multiset(a) == multiset(b) && NonTimers(a) == NonTimers(b)
  }

  /** What comes in is what goes out: the balance of one queue against the next. */
  ghost predicate Conserved(q: seq<Event>, arrived: seq<Event>, popped: seq<Event>, rest: seq<Event>) {
    Same(q + arrived, popped + rest)
  }

  lemma QueueStep(s: Sys, l: Label)
    requires Enabled(s, l)
    ensures Conserved(s.queue, Arrival(s, l), Removal(s, l), Next(s, l).queue)
  {
    if l.Wakeup? {
      NonTimersConcat(s.queue, [StepTime(l.when)]);
      NonTimersConcat([StepTime(l.when)], s.queue);
      assert Removal(s, l) + Next(s, l).queue == [StepTime(l.when)] + s.queue;
    } else {
      assert s.queue + Arrival(s, l) == Removal(s, l) + Next(s, l).queue;
    }
  }

  lemma SameWithSuffix(a: seq<Event>, b: seq<Event>, c: seq<Event>)
    requires Same(a, b)
    ensures Same(a + c, b + c)
  {
    NonTimersConcat(a, c);
    NonTimersConcat(b, c);
  }

  lemma SameWithPrefix(c: seq<Event>, a: seq<Event>, b: seq<Event>)
    requires Same(a, b)
    ensures Same(c + a, c + b)
  {
    NonTimersConcat(c, a);
    NonTimersConcat(c, b);
  }

  lemma ConservedCompose(q: seq<Event>, a: seq<Event>, p: seq<Event>, m: seq<Event>, a': seq<Event>, p': seq<Event>,
                         rest: seq<Event>)
    requires Conserved(q, a, p, m) && Conserved(m, a', p', rest)
    ensures Conserved(q, a + a', p + p', rest)
  {
    Assoc(q, a, a');
    Assoc(p, m, a');
    Assoc(p, p', rest);
    SameWithSuffix(q + a, p + m, a');
    SameWithPrefix(p, m + a', p' + rest);
  }

  /**
   * What was queued or arrived has been taken out or is still queued, each event as often as before;
   * apart from the timers, which overtake the rest, events are taken out in the order of their arrival.
   */
  lemma {:induction false} NothingIsLost(s: Sys, ls: seq<Label>)
    requires Legal(s, ls)
    ensures Conserved(s.queue, Arrived(s, ls), Popped(s, ls), Run(s, ls).queue)
    decreases |ls|
  {
    if ls == [] {
      assert s.queue + [] == s.queue == [] + s.queue;
    } else {
      var n := Next(s, ls[0]);
      QueueStep(s, ls[0]);
      NothingIsLost(n, ls[1..]);
      ConservedCompose(s.queue, Arrival(s, ls[0]), Removal(s, ls[0]), n.queue,
                       Arrived(n, ls[1..]), Popped(n, ls[1..]), Run(n, ls[1..]).queue);
    }
  }

  // ---------------------------------------------------------------- every activity is reported once

  function Done(s: Sys, id: nat): nat {
    if id < |s.pool| && s.pool[id].state != RUNNING then 1 else 0
  }

  lemma {:induction false} ArrivedReports(s: Sys, ls: seq<Label>, id: nat)
    requires Legal(s, ls)
    ensures Done(s, id) + multiset(Arrived(s, ls))[Report(id)] == Done(Run(s, ls), id)
    decreases |ls|
  {
    if ls != [] {
      ArrivedReports(Next(s, ls[0]), ls[1..], id);
      ArrivalReports(s, ls[0], id);
    }
  }

  lemma ArrivalReports(s: Sys, l: Label, id: nat)
    requires Enabled(s, l)
    ensures Done(s, id) + multiset(Arrival(s, l))[Report(id)] == Done(Next(s, l), id)
  {
    match l
    case Update(_, _, _) =>
    case Act =>
    case _ => assert Next(s, l).pool == s.pool;
  }

  lemma {:induction false} OnlyArrivals(s: Sys, ls: seq<Label>)
    requires s.queue == [] && Legal(s, ls)
    ensures multiset(Arrived(s, ls)) == multiset(Popped(s, ls) + Run(s, ls).queue)
  {
    NothingIsLost(s, ls);
    assert s.queue + Arrived(s, ls) == Arrived(s, ls);
  }

  /** A terminated activity has been drained exactly once or is queued exactly once; a running one neither. */
  lemma ReportedOnce(s: Sys, ls: seq<Label>, id: nat)
    requires Initial(s) && Legal(s, ls)
    ensures multiset(Popped(s, ls) + Run(s, ls).queue)[Report(id)] == Done(Run(s, ls), id)
  {
    ArrivedReports(s, ls, id);
    OnlyArrivals(s, ls);
  }

  // ---------------------------------------------------------------- the history records what is drained

  /** Activities keep their call, and their state once it is terminal. */
  ghost predicate Extends(p: seq<Snapshot>, q: seq<Snapshot>) {
    && |p| <= |q|
    && forall i :: 0 <= i < |p| ==> q[i].call == p[i].call && (p[i].state != RUNNING ==> q[i] == p[i])
  }

  ghost predicate ReportsDone(s: Sys) {
    forall e <- s.queue :: e.Report? ==> Done(s, e.id) == 1
  }

  lemma ReportsDoneStep(s: Sys, l: Label)
    requires Enabled(s, l) && ReportsDone(s)
    ensures Extends(s.pool, Next(s, l).pool) && ReportsDone(Next(s, l))
  {
    var n := Next(s, l);
    assert Extends(s.pool, n.pool);
    forall e <- n.queue | e.Report? ensures Done(n, e.id) == 1 {
      if e in s.queue { assert Done(s, e.id) == 1; }
    }
  }

  lemma {:induction false} ExtendsRun(s: Sys, ls: seq<Label>)
    requires Legal(s, ls) && ReportsDone(s)
    ensures Extends(s.pool, Run(s, ls).pool) && ReportsDone(Run(s, ls))
    decreases |ls|
  {
    if ls != [] {
      ReportsDoneStep(s, ls[0]);
      ExtendsRun(Next(s, ls[0]), ls[1..]);
    }
  }

  function RenderAll(pool: seq<Snapshot>, es: seq<Event>): seq<Entry> {
    if es == [] then [] else Render(pool, es[0]) + RenderAll(pool, es[1..])
  }

  lemma {:induction false} TimeStepRecorded(pool: seq<Snapshot>, es: seq<Event>, t: real)
    requires StepTime(t) in es
    ensures TimeStep(t) in RenderAll(pool, es)
  {
    if es[0] == StepTime(t) {
      assert RenderAll(pool, es)[0] == TimeStep(t);
    } else {
      TimeStepRecorded(pool, es[1..], t);
    }
  }

  /** The history without the transitions that the executor adds. */
  function Events(h: seq<Entry>): seq<Entry> {
    if h == [] then []
    else
      var last := h[|h| - 1];
      Events(h[..|h| - 1]) + (if last.Executed? then [] else [last])
  }

  lemma {:induction false} EventsAppend(h: seq<Entry>, more: seq<Entry>)
    requires forall e <- more :: !e.Executed?
    ensures Events(h + more) == Events(h) + more
  {
    if more == [] {
      assert h + more == h;
    } else {
      var n := |more| - 1;
      assert (h + more)[..|h + more| - 1] == h + more[..n];
      EventsAppend(h, more[..n]);
      assert more == more[..n] + [more[n]];
    }
  }

  lemma RenderAllOne(pool: seq<Snapshot>, e: Event)
    ensures RenderAll(pool, [e]) == Render(pool, e)
  {
    assert [e][1..] == [];
    assert RenderAll(pool, [e]) == Render(pool, e) + RenderAll(pool, [e][1..]);
  }

  lemma RecordStep(s: Sys, l: Label)
    requires Enabled(s, l)
    ensures Events(Next(s, l).history) == Events(s.history) + RenderAll(s.pool, Removal(s, l))
  {
    match l
    case Pop =>
      EventsAppend(s.history, Render(s.pool, s.queue[0]));
      RenderAllOne(s.pool, s.queue[0]);
    case Append =>
      assert Next(s, l).history[..|s.history|] == s.history;
    case _ =>
      assert Next(s, l).history == s.history;
  }

  lemma RenderIsStable(s: Sys, l: Label, pool: seq<Snapshot>)
    requires Enabled(s, l) && ReportsDone(s) && Extends(s.pool, pool)
    ensures RenderAll(s.pool, Removal(s, l)) == RenderAll(pool, Removal(s, l))
  {
    if l.Pop? {
      var e := s.queue[0];
      assert e.Report? ==> Done(s, e.id) == 1;
      assert Render(s.pool, e) == Render(pool, e);
      assert [e][1..] == [];
    }
  }

  lemma {:induction false} RenderAllConcat(pool: seq<Snapshot>, a: seq<Event>, b: seq<Event>)
    ensures RenderAll(pool, a + b) == RenderAll(pool, a) + RenderAll(pool, b)
  {
    if a == [] {
      assert a + b == b;
    } else {
      assert (a + b)[0] == a[0] && (a + b)[1..] == a[1..] + b;
      RenderAllConcat(pool, a[1..], b);
    }
  }

  /** One step more at the front: both halves are rendered with the activities of the end. */
  lemma RecordCompose(h: seq<Entry>, m: seq<Entry>, e: seq<Entry>, pool: seq<Snapshot>, p: seq<Event>, p': seq<Event>)
    requires m == h + RenderAll(pool, p) && e == m + RenderAll(pool, p')
    ensures e == h + RenderAll(pool, p + p')
  {
    RenderAllConcat(pool, p, p');
    Assoc(h, RenderAll(pool, p), RenderAll(pool, p'));
  }

  lemma RecordStepStable(s: Sys, l: Label, pool: seq<Snapshot>)
    requires Enabled(s, l) && ReportsDone(s) && Extends(s.pool, pool)
    ensures Events(Next(s, l).history) == Events(s.history) + RenderAll(pool, Removal(s, l))
  {
    RecordStep(s, l);
    RenderIsStable(s, l, pool);
  }

  lemma {:induction false} RecordRun(s: Sys, ls: seq<Label>)
    requires Legal(s, ls) && ReportsDone(s)
    ensures Events(Run(s, ls).history) == Events(s.history) + RenderAll(Run(s, ls).pool, Popped(s, ls))
    decreases |ls|
  {
    if ls != [] {
      var n := Next(s, ls[0]);
      var e := Run(n, ls[1..]);
      ReportsDoneStep(s, ls[0]);
      ExtendsRun(s, ls);
      RecordStepStable(s, ls[0], e.pool);
      RecordRun(n, ls[1..]);
      RecordCompose(Events(s.history), Events(n.history), Events(e.history), e.pool,
                    Removal(s, ls[0]), Popped(n, ls[1..]));
    }
  }

  /** Besides transitions, the history holds exactly the drained events, in the order they were drained. */
  lemma HistoryRecordsDrained(s: Sys, ls: seq<Label>)
    requires Initial(s) && Legal(s, ls)
    ensures Events(Run(s, ls).history) == RenderAll(Run(s, ls).pool, Popped(s, ls))
  {
    RecordRun(s, ls);
  }

  // ---------------------------------------------------------------- what the history says about events

  /** Everything that a function finds in a history, or in a list of events, in order. */
  function Pick<T>(h: seq<Entry>, f: Entry -> seq<T>): seq<T> {
    if h == [] then [] else f(h[0]) + Pick(h[1..], f)
  }

  function Gather<T>(pool: seq<Snapshot>, es: seq<Event>, g: (seq<Snapshot>, Event) -> seq<T>): seq<T> {
    if es == [] then [] else g(pool, es[0]) + Gather(pool, es[1..], g)
  }

  function HappenedIn(e: Entry): seq<string> { if e.Happened? then [e.name] else [] }
  function ExogOf(pool: seq<Snapshot>, e: Event): seq<string> { if e.Exog? then [e.name] else [] }

  function TimeIn(e: Entry): seq<real> { if e.TimeStep? then [e.t] else [] }
  function TimeOf(pool: seq<Snapshot>, e: Event): seq<real> { if e.StepTime? then [e.t] else [] }

  function ReportIn(e: Entry): seq<(Key, ActivityState)> { if e.Reported? then [(e.call, e.state)] else [] }
  function ReportOf(pool: seq<Snapshot>, e: Event): seq<(Key, ActivityState)> {
    if e.Report? && e.id < |pool| then [(pool[e.id].call, pool[e.id].state)] else []
  }

  function SensedIn(e: Entry): seq<(Key, string)> { if e.Sensed? then [(e.call, e.value)] else [] }
  function SensedOf(pool: seq<Snapshot>, e: Event): seq<(Key, string)> {
    if e.Report? && e.id < |pool| && pool[e.id].call.target.senses then [(pool[e.id].call, pool[e.id].sensed)] else []
  }

  function TransitionIn(e: Entry): seq<Transition<string>> { if e.Executed? then [e.trans] else [] }

  /** A sensing result stands directly before the activity of its call, and for sensing actions only. */
  ghost predicate SensingAt(h: seq<Entry>, i: nat)
    requires i < |h|
  {
    && (h[i].Sensed? ==>
         h[i].call.target.senses && i + 1 < |h| && h[i + 1].Reported? && h[i + 1].call == h[i].call)
    && (h[i].Reported? && h[i].call.target.senses ==> i > 0 && h[i - 1].Sensed? && h[i - 1].call == h[i].call)
  }

  ghost predicate SensingOk(h: seq<Entry>) {
    forall i: nat :: i < |h| ==> SensingAt(h, i)
  }

  /** These entries tell of these events, of each in its turn, and of nothing else. */
  ghost predicate Tells(pool: seq<Snapshot>, es: seq<Event>, h: seq<Entry>) {
    && Pick(h, HappenedIn) == Gather(pool, es, ExogOf)
    && Pick(h, TimeIn) == Gather(pool, es, TimeOf)
    && Pick(h, ReportIn) == Gather(pool, es, ReportOf)
    && Pick(h, SensedIn) == Gather(pool, es, SensedOf)
  }

  lemma {:induction false} PickConcat<T>(a: seq<Entry>, b: seq<Entry>, f: Entry -> seq<T>)
    ensures Pick(a + b, f) == Pick(a, f) + Pick(b, f)
  {
    if a == [] {
      assert a + b == b;
    } else {
      assert (a + b)[0] == a[0] && (a + b)[1..] == a[1..] + b;
      PickConcat(a[1..], b, f);
      Assoc(f(a[0]), Pick(a[1..], f), Pick(b, f));
    }
  }

  lemma PickOne<T>(e: Entry, f: Entry -> seq<T>)
    ensures Pick([e], f) == f(e)
  {
    assert [e][1..] == [];
    assert Pick([e], f) == f(e) + Pick([e][1..], f);
  }

  lemma PickTwo<T>(d: Entry, e: Entry, f: Entry -> seq<T>)
    ensures Pick([d, e], f) == f(d) + f(e)
  {
    assert [d, e] == [d] + [e];
    PickConcat([d], [e], f);
    PickOne(d, f);
    PickOne(e, f);
  }

  lemma PickRender<T>(pool: seq<Snapshot>, e: Event, f: Entry -> seq<T>)
    ensures Pick(Render(pool, e), f) ==
      match e
      case StepTime(t) => f(TimeStep(t))
      case SwitchState(_) => []
      case Exog(name, _) => f(Happened(name))
      case Report(id) =>
        if id >= |pool| then []
        else if pool[id].call.target.senses then
          f(Sensed(pool[id].call, pool[id].sensed)) + f(Reported(pool[id].call, pool[id].state))
        else f(Reported(pool[id].call, pool[id].state))
  {
    match e
    case StepTime(t) => PickOne(TimeStep(t), f);
    case SwitchState(_) =>
    case Exog(name, _) => PickOne(Happened(name), f);
    case Report(id) =>
      if id < |pool| {
        var sensed, reported := Sensed(pool[id].call, pool[id].sensed), Reported(pool[id].call, pool[id].state);
        if pool[id].call.target.senses {
          assert Render(pool, e) == [sensed, reported];
          PickTwo(sensed, reported, f);
        } else {
          assert Render(pool, e) == [reported];
          PickOne(reported, f);
        }
      }
  }

  lemma {:induction false} PickRenderAll<T>(pool: seq<Snapshot>, es: seq<Event>, f: Entry -> seq<T>,
                                           g: (seq<Snapshot>, Event) -> seq<T>)
    requires forall e :: Pick(Render(pool, e), f) == g(pool, e)
    ensures Pick(RenderAll(pool, es), f) == Gather(pool, es, g)
  {
    if es != [] {
      PickRenderAll(pool, es[1..], f, g);
      PickConcat(Render(pool, es[0]), RenderAll(pool, es[1..]), f);
    }
  }

  lemma RenderedHappened(pool: seq<Snapshot>, es: seq<Event>)
    ensures Pick(RenderAll(pool, es), HappenedIn) == Gather(pool, es, ExogOf)
  {
    forall e ensures Pick(Render(pool, e), HappenedIn) == ExogOf(pool, e) {
      PickRender(pool, e, HappenedIn);
    }
    PickRenderAll(pool, es, HappenedIn, ExogOf);
  }

  lemma RenderedTimes(pool: seq<Snapshot>, es: seq<Event>)
    ensures Pick(RenderAll(pool, es), TimeIn) == Gather(pool, es, TimeOf)
  {
    forall e ensures Pick(Render(pool, e), TimeIn) == TimeOf(pool, e) {
      PickRender(pool, e, TimeIn);
    }
    PickRenderAll(pool, es, TimeIn, TimeOf);
  }

  lemma RenderedReports(pool: seq<Snapshot>, es: seq<Event>)
    ensures Pick(RenderAll(pool, es), ReportIn) == Gather(pool, es, ReportOf)
  {
    forall e ensures Pick(Render(pool, e), ReportIn) == ReportOf(pool, e) {
      PickRender(pool, e, ReportIn);
    }
    PickRenderAll(pool, es, ReportIn, ReportOf);
  }

  lemma RenderedSensed(pool: seq<Snapshot>, es: seq<Event>)
    ensures Pick(RenderAll(pool, es), SensedIn) == Gather(pool, es, SensedOf)
  {
    forall e ensures Pick(Render(pool, e), SensedIn) == SensedOf(pool, e) {
      PickRender(pool, e, SensedIn);
    }
    PickRenderAll(pool, es, SensedIn, SensedOf);
  }

  lemma RenderedTells(pool: seq<Snapshot>, es: seq<Event>)
    ensures Tells(pool, es, RenderAll(pool, es))
  {
    RenderedHappened(pool, es);
    RenderedTimes(pool, es);
    RenderedReports(pool, es);
    RenderedSensed(pool, es);
  }

  lemma SensingConcat(a: seq<Entry>, b: seq<Entry>)
    requires SensingOk(a) && SensingOk(b)
    ensures SensingOk(a + b)
  {
    forall i: nat | i < |a + b| ensures SensingAt(a + b, i) {
      if i < |a| {
        assert SensingAt(a, i);
      } else {
        assert SensingAt(b, i - |a|);
      }
    }
  }

  lemma SensingRender(pool: seq<Snapshot>, e: Event)
    ensures SensingOk(Render(pool, e))
  {
  }

  lemma {:induction false} SensingRenderAll(pool: seq<Snapshot>, es: seq<Event>)
    ensures SensingOk(RenderAll(pool, es))
  {
    if es != [] {
      SensingRender(pool, es[0]);
      SensingRenderAll(pool, es[1..]);
      SensingConcat(Render(pool, es[0]), RenderAll(pool, es[1..]));
    }
  }

  /** A history that has been extended by what tells of these events. */
  ghost predicate Extension(pool: seq<Snapshot>, h: seq<Entry>, es: seq<Event>, longer: seq<Entry>) {
    && h <= longer
    && Tells(pool, es, longer[|h|..])
    && SensingOk(longer[|h|..])
    && Pick(longer[|h|..], TransitionIn) == []
  }

  lemma {:induction false} RenderedExtends(pool: seq<Snapshot>, h: seq<Entry>, es: seq<Event>)
    ensures Extension(pool, h, es, h + RenderAll(pool, es))
  {
    assert (h + RenderAll(pool, es))[|h|..] == RenderAll(pool, es);
    RenderedTells(pool, es);
    SensingRenderAll(pool, es);
    NoTransitions(pool, es);
  }

  lemma {:induction false} NoTransitions(pool: seq<Snapshot>, es: seq<Event>)
    ensures Pick(RenderAll(pool, es), TransitionIn) == []
  {
    if es != [] {
      PickRender(pool, es[0], TransitionIn);
      NoTransitions(pool, es[1..]);
      PickConcat(Render(pool, es[0]), RenderAll(pool, es[1..]), TransitionIn);
    }
  }

  /** Every activity in the history has ended. */
  ghost predicate ReportsEnded(h: seq<Entry>) {
    forall e <- h :: e.Reported? ==> Terminated(e.state)
  }

  lemma HistoryStep(s: Sys, l: Label)
    requires Enabled(s, l) && Registered(s) && ReportsDone(s)
    requires SensingOk(s.history) && ReportsEnded(s.history)
    ensures SensingOk(Next(s, l).history) && ReportsEnded(Next(s, l).history)
  {
    match l
    case Pop =>
      var e := s.queue[0];
      assert e.Report? ==> Done(s, e.id) == 1;
      SensingRender(s.pool, e);
      SensingConcat(s.history, Render(s.pool, e));
    case Append => SensingConcat(s.history, [Executed(s.pc.t)]);
    case _ => assert Next(s, l).history == s.history;
  }

  lemma {:induction false} HistoryIsOrderly(s: Sys, ls: seq<Label>)
    requires Legal(s, ls) && Registered(s) && GuardHolds(s) && ReportsDone(s)
    requires SensingOk(s.history) && ReportsEnded(s.history)
    ensures SensingOk(Run(s, ls).history) && ReportsEnded(Run(s, ls).history)
    decreases |ls|
  {
    if ls != [] {
      RegisteredStep(s, ls[0]);
      GuardStep(s, ls[0]);
      ReportsDoneStep(s, ls[0]);
      HistoryStep(s, ls[0]);
      HistoryIsOrderly(Next(s, ls[0]), ls[1..]);
    }
  }

  /** Leaving out the transitions loses nothing that is told about events. */
  lemma {:induction false} PickEvents<T>(h: seq<Entry>, f: Entry -> seq<T>)
    requires forall t :: f(Executed(t)) == []
    ensures Pick(Events(h), f) == Pick(h, f)
  {
    if h != [] {
      var n := |h| - 1;
      PickEvents(h[..n], f);
      assert h == h[..n] + [h[n]];
      PickConcat(h[..n], [h[n]], f);
      PickOne(h[n], f);
      if h[n].Executed? {
        assert Events(h) == Events(h[..n]) + [] == Events(h[..n]);
      } else {
        PickConcat(Events(h[..n]), [h[n]], f);
      }
    }
  }

  lemma {:induction false} PickTransitions(s: Sys, ls: seq<Label>)
    requires Legal(s, ls)
    ensures Pick(Run(s, ls).history, TransitionIn) == Pick(s.history, TransitionIn) + Performed(s, ls)
    decreases |ls|
  {
    if ls != [] {
      var n := Next(s, ls[0]);
      TransitionStep(s, ls[0]);
      PickTransitions(n, ls[1..]);
      Assoc(Pick(s.history, TransitionIn), PerformedBy(s, ls[0]), Performed(n, ls[1..]));
    }
  }

  lemma TransitionStep(s: Sys, l: Label)
    requires Enabled(s, l)
    ensures Pick(Next(s, l).history, TransitionIn) == Pick(s.history, TransitionIn) + PerformedBy(s, l)
  {
    match l
    case Pop =>
      PickConcat(s.history, Render(s.pool, s.queue[0]), TransitionIn);
      PickRender(s.pool, s.queue[0], TransitionIn);
    case Append =>
      PickConcat(s.history, [Executed(s.pc.t)], TransitionIn);
      PickOne(Executed(s.pc.t), TransitionIn);
    case _ => assert Next(s, l).history == s.history;
  }

  /**
   * Over every run the history tells of each drained event, in order: exogenous actions by name, time
   * steps by time, activities by call and terminal state, and before a sensing activity what it has
   * sensed. Apart from that it holds exactly the transitions that were performed.
   */
  lemma HistoryTellsOfEvents(s: Sys, ls: seq<Label>)
    requires Initial(s) && Legal(s, ls)
    ensures var e := Run(s, ls);
      && Tells(e.pool, Popped(s, ls), e.history)
      && SensingOk(e.history) && ReportsEnded(e.history)
      && Pick(e.history, TransitionIn) == Performed(s, ls)
  {
    var e := Run(s, ls);
    RecordRun(s, ls);
    RenderedTells(e.pool, Popped(s, ls));
    assert Events(s.history) + RenderAll(e.pool, Popped(s, ls)) == RenderAll(e.pool, Popped(s, ls));
    PickEvents(e.history, HappenedIn);
    PickEvents(e.history, TimeIn);
    PickEvents(e.history, ReportIn);
    PickEvents(e.history, SensedIn);
    HistoryIsOrderly(s, ls);
    PickTransitions(s, ls);
    assert Pick(s.history, TransitionIn) == [];
  }

  // ---------------------------------------------------------------- the silent flag

  function PerformedBy(s: Sys, l: Label): seq<Transition<string>>
    requires Enabled(s, l)
  {
    if l.Append? then [s.pc.t] else []
  }

  function Performed(s: Sys, ls: seq<Label>): seq<Transition<string>>
    requires Legal(s, ls)
    decreases |ls|
  {
    if ls == [] then [] else PerformedBy(s, ls[0]) + Performed(Next(s, ls[0]), ls[1..])
  }

  predicate AllSilent(ts: seq<Transition<string>>) {
    forall t <- ts :: t.call.target.silent
  }

  /** State switches, quiet exogenous actions, and activities of silent actions; never a time step. */
  predicate Unheard(pool: seq<Snapshot>, e: Event) {
    e.SwitchState? || (e.Exog? && e.quiet) || (e.Report? && e.id < |pool| && pool[e.id].call.target.silent)
  }

  predicate AllQuiet(pool: seq<Snapshot>, es: seq<Event>) {
    forall e <- es :: Unheard(pool, e)
  }

  lemma SilentStep(s: Sys, l: Label, pool: seq<Snapshot>)
    requires Enabled(s, l) && !l.SetSilent? && ReportsDone(s) && Extends(s.pool, pool)
    ensures Next(s, l).silent <==> s.silent && AllSilent(PerformedBy(s, l)) && AllQuiet(pool, Removal(s, l))
  {
    if l.Pop? {
      var e := s.queue[0];
      assert e.Report? ==> Done(s, e.id) == 1;
      assert Quiet(s.pool, e) == Unheard(pool, e);
    }
  }

  lemma ForallConcat(ts: seq<Transition<string>>, ts': seq<Transition<string>>, pool: seq<Snapshot>,
                     es: seq<Event>, es': seq<Event>)
    ensures AllSilent(ts + ts') <==> AllSilent(ts) && AllSilent(ts')
    ensures AllQuiet(pool, es + es') <==> AllQuiet(pool, es) && AllQuiet(pool, es')
  {
    assert forall t :: t in ts + ts' <==> t in ts || t in ts';
    assert forall e :: e in es + es' <==> e in es || e in es';
  }

  /** The controller stays silent exactly as long as every transition and every drained event is. */
  lemma {:induction false} SilentIffAllQuiet(s: Sys, ls: seq<Label>)
    requires Legal(s, ls) && ReportsDone(s) && forall l <- ls :: !l.SetSilent?
    ensures Run(s, ls).silent <==>
            s.silent && AllSilent(Performed(s, ls)) && AllQuiet(Run(s, ls).pool, Popped(s, ls))
    decreases |ls|
  {
    if ls != [] {
      var n := Next(s, ls[0]);
      var pool := Run(n, ls[1..]).pool;
      assert !ls[0].SetSilent?;
      ReportsDoneStep(s, ls[0]);
      ExtendsRun(s, ls);
      SilentStep(s, ls[0], pool);
      SilentIffAllQuiet(n, ls[1..]);
      ForallConcat(PerformedBy(s, ls[0]), Performed(n, ls[1..]), pool, Removal(s, ls[0]), Popped(n, ls[1..]));
    }
  }

  // ---------------------------------------------------------------- one drain

  predicate PopsOnly(ls: seq<Label>) {
    forall l <- ls :: l.Pop?
  }

  /** Without interference the queue is taken out from front to back. */
  lemma {:induction false} PopsAreInOrder(s: Sys, ls: seq<Label>)
    requires Legal(s, ls) && PopsOnly(ls)
    ensures Arrived(s, ls) == [] && Popped(s, ls) + Run(s, ls).queue == s.queue
    decreases |ls|
  {
    if ls != [] {
      assert ls[0].Pop?;
      var n := Next(s, Pop);
      PopsAreInOrder(n, ls[1..]);
      assert [s.queue[0]] + n.queue == s.queue;
      Assoc([s.queue[0]], Popped(n, ls[1..]), Run(n, ls[1..]).queue);
    }
  }

  predicate InsideDrain(ls: seq<Label>) {
    forall l <- ls :: FromEnvironment(l) || l.Pop?
  }

  lemma DrainStep(s: Sys, l: Label, pool: seq<Snapshot>)
    requires Enabled(s, l) && (FromEnvironment(l) || l.Pop?) && ReportsDone(s) && Extends(s.pool, pool)
    ensures Next(s, l).pc == s.pc
    ensures Next(s, l).history == s.history + RenderAll(pool, Removal(s, l))
  {
    RenderIsStable(s, l, pool);
    if l.Pop? { RenderAllOne(s.pool, s.queue[0]); }
  }

  lemma {:induction false} DrainAppends(s: Sys, ls: seq<Label>)
    requires Legal(s, ls) && ReportsDone(s) && InsideDrain(ls)
    ensures Run(s, ls).pc == s.pc
    ensures Run(s, ls).history == s.history + RenderAll(Run(s, ls).pool, Popped(s, ls))
    decreases |ls|
  {
    if ls != [] {
      var n := Next(s, ls[0]);
      var e := Run(n, ls[1..]);
      assert FromEnvironment(ls[0]) || ls[0].Pop?;
      ReportsDoneStep(s, ls[0]);
      ExtendsRun(s, ls);
      DrainStep(s, ls[0], e.pool);
      DrainAppends(n, ls[1..]);
      RecordCompose(s.history, n.history, e.history, e.pool, Removal(s, ls[0]), Popped(n, ls[1..]));
    }
  }

  /**
   * A drain that is over has emptied the queue. It took out what was queued before and what arrived
   * meanwhile, and extended the history by what tells of exactly that, in the order of removal.
   */
  lemma DrainRecordsQueue(s: Sys, ls: seq<Label>)
    requires Enabled(s, BeginDrain) && ReportsDone(s) && InsideDrain(ls)
    requires Legal(Next(s, BeginDrain), ls) && Enabled(Run(Next(s, BeginDrain), ls), EndDrain)
    ensures var b := Next(s, BeginDrain); var e := Next(Run(b, ls), EndDrain);
      && e.queue == []
      && e.history == s.history + RenderAll(e.pool, Popped(b, ls))
      && Extension(e.pool, s.history, Popped(b, ls), e.history)
      && multiset(Popped(b, ls)) == multiset(s.queue + Arrived(b, ls))
      && NonTimers(Popped(b, ls)) == NonTimers(s.queue + Arrived(b, ls))
  {
    var b := Next(s, BeginDrain);
    DrainAppends(b, ls);
    RenderedExtends(Run(b, ls).pool, s.history, Popped(b, ls));
    NothingIsLost(b, ls);
    assert Popped(b, ls) + [] == Popped(b, ls);
  }
}

/** The time that the agent believes it is: the last time step in the history. */
module ContextTimes {
  import opened Golog
  import opened Machine

  function LastTime(h: seq<Entry>, start: real): real {
    if h == [] then start
    else if h[|h| - 1].TimeStep? then h[|h| - 1].t
    else LastTime(h[..|h| - 1], start)
  }

  function ContextTime(s: Sys): real {
    LastTime(s.history, s.start)
  }

  /** The context time at the beginning of the drain, or now if there is none. */
  function BaseTime(s: Sys): real {
    if s.pc.Draining? && s.pc.since <= |s.history| then LastTime(s.history[..s.pc.since], s.start)
    else ContextTime(s)
  }

  /** Timers are at the front of the queue, the newest first. */
  ghost predicate TimersFirst(q: seq<Event>) {
    forall i, j :: 0 <= i < j < |q| && q[j].StepTime? ==> q[i].StepTime? && q[i].t >= q[j].t
  }

  ghost predicate TimesWithin(q: seq<Event>, low: real, high: real) {
    forall i :: 0 <= i < |q| && q[i].StepTime? ==> low <= q[i].t <= high
  }

  /** No time lies outside the controller's lifetime. */
  ghost predicate InRange(s: Sys) {
    TimesWithin(s.queue, s.start, s.clock) && s.start <= ContextTime(s) <= s.clock
  }

  /** Wakeups enter the queue in the order in which they read the clock; the last one did so at `newest`. */
  predicate Ordered(newest: real, ls: seq<Label>)
    decreases |ls|
  {
    ls == [] || if ls[0].Wakeup? then newest <= ls[0].when && Ordered(ls[0].when, ls[1..]) else Ordered(newest, ls[1..])
  }

  function Newest(newest: real, l: Label): real {
    if l.Wakeup? then l.when else newest
  }

  /** Then no time in the queue, nor one drained since, is older than the context time before the drain. */
  ghost predicate TimesOk(s: Sys, newest: real) {
    && (s.pc.Draining? ==> s.pc.since <= |s.history|)
    && TimersFirst(s.queue)
    && TimesWithin(s.queue, BaseTime(s), newest)
    && s.start <= BaseTime(s) <= ContextTime(s) <= newest <= s.clock
  }

  lemma {:induction false} LastTimeAppend(h: seq<Entry>, more: seq<Entry>, start: real)
    ensures LastTime(h + more, start) == LastTime(more, LastTime(h, start))
  {
    if more == [] {
      assert h + more == h;
    } else {
      var n := |more| - 1;
      assert (h + more)[..|h + more| - 1] == h + more[..n];
      LastTimeAppend(h, more[..n], start);
    }
  }

  lemma {:induction false} NoTimeStep(h: seq<Entry>, start: real)
    requires forall i :: 0 <= i < |h| ==> !h[i].TimeStep?
    ensures LastTime(h, start) == start
  {
    if h != [] { NoTimeStep(h[..|h| - 1], start); }
  }

  /** An event sets the context time if it is a time step, and leaves it alone otherwise. */
  lemma PopTime(s: Sys)
    requires Enabled(s, Pop)
    ensures ContextTime(Next(s, Pop)) == if s.queue[0].StepTime? then s.queue[0].t else ContextTime(s)
    ensures s.pc.since <= |s.history| ==> BaseTime(Next(s, Pop)) == BaseTime(s)
  {
    var r := Render(s.pool, s.queue[0]);
    LastTimeAppend(s.history, r, s.start);
    if !s.queue[0].StepTime? { NoTimeStep(r, ContextTime(s)); }
    if s.pc.since <= |s.history| {
      assert (s.history + r)[..s.pc.since] == s.history[..s.pc.since];
    }
  }

  lemma InRangeStep(s: Sys, l: Label)
    requires InRange(s) && Enabled(s, l)
    ensures InRange(Next(s, l)) && s.clock <= Next(s, l).clock && Next(s, l).start == s.start
  {
    match l
    case Pop => PopTime(s);
    case Append => assert Next(s, l).history[..|s.history|] == s.history;
    case _ => assert Next(s, l).history == s.history;
  }

  lemma WakeupTimes(s: Sys, newest: real, when: real)
    requires TimesOk(s, newest) && Enabled(s, Wakeup(when)) && newest <= when
    ensures TimesOk(Next(s, Wakeup(when)), when)
  {
    var n := Next(s, Wakeup(when));
    assert n.history == s.history && BaseTime(n) == BaseTime(s);
  }

  lemma PushTimes(s: Sys, newest: real, l: Label)
    requires TimesOk(s, newest) && Enabled(s, l) && (l.Post? || l.Update?)
    ensures TimesOk(Next(s, l), newest)
  {
    var n := Next(s, l);
    assert n.history == s.history && BaseTime(n) == BaseTime(s);
    assert |n.queue| == |s.queue| + 1 && n.queue[..|s.queue|] == s.queue && !n.queue[|s.queue|].StepTime?;
  }

  lemma TimesStep(s: Sys, newest: real, l: Label)
    requires TimesOk(s, newest) && Enabled(s, l) && Ordered(newest, [l])
    ensures TimesOk(Next(s, l), Newest(newest, l))
  {
    match l
    case Post(_) => PushTimes(s, newest, l);
    case Wakeup(when) => WakeupTimes(s, newest, when);
    case Update(_, _, _) => PushTimes(s, newest, l);
    case Pop => PopTime(s);
    case Append =>
      assert Next(s, l).history[..|s.history|] == s.history;
    case BeginDrain =>
      assert s.history[..|s.history|] == s.history;
    case _ =>
  }

  function ReadBy(s: Sys, l: Label): seq<real> {
    if l.ReadTime? then [ContextTime(s)] else []
  }

  /** The values of the context time that the executor reads during a run. */
  function Reads(s: Sys, ls: seq<Label>): seq<real>
    requires Legal(s, ls)
    decreases |ls|
  {
    if ls == [] then [] else ReadBy(s, ls[0]) + Reads(Next(s, ls[0]), ls[1..])
  }

  ghost predicate AllWithin(low: real, ts: seq<real>, high: real) {
    forall i :: 0 <= i < |ts| ==> low <= ts[i] <= high
  }

  ghost predicate Ascending(ts: seq<real>) {
    forall i, j :: 0 <= i <= j < |ts| ==> ts[i] <= ts[j]
  }

  lemma {:induction false} ReadsInRange(s: Sys, ls: seq<Label>)
    requires InRange(s) && Legal(s, ls)
    ensures InRange(Run(s, ls)) && s.clock <= Run(s, ls).clock && Run(s, ls).start == s.start
    ensures AllWithin(s.start, Reads(s, ls), Run(s, ls).clock)
    decreases |ls|
  {
    if ls != [] {
      InRangeStep(s, ls[0]);
      ReadsInRange(Next(s, ls[0]), ls[1..]);
    }
  }

  lemma BaseRises(s: Sys, newest: real, l: Label)
    requires TimesOk(s, newest) && Enabled(s, l)
    ensures BaseTime(s) <= BaseTime(Next(s, l))
  {
    match l
    case Pop => PopTime(s);
    case Append => assert Next(s, l).history[..|s.history|] == s.history;
    case BeginDrain => assert s.history[..|s.history|] == s.history;
    case _ =>
  }

  lemma {:induction false} ReadsAscend(s: Sys, newest: real, ls: seq<Label>)
    requires TimesOk(s, newest) && Legal(s, ls) && Ordered(newest, ls)
    ensures Ascending(Reads(s, ls)) && forall i :: 0 <= i < |Reads(s, ls)| ==> BaseTime(s) <= Reads(s, ls)[i]
    decreases |ls|
  {
    if ls != [] {
      TimesStep(s, newest, ls[0]);
      BaseRises(s, newest, ls[0]);
      ReadsAscend(Next(s, ls[0]), Newest(newest, ls[0]), ls[1..]);
    }
  }

  /**
   * Over every run the context time is never ahead of the clock. If wakeups enter the queue in the order
   * in which they read the clock, the values that the executor reads never decrease, although a batch of
   * wakeups is drained with the newest first.
   */
  lemma ContextTimeIsSafe(s: Sys, ls: seq<Label>)
    requires Initial(s) && Legal(s, ls)
    ensures s.start <= ContextTime(Run(s, ls)) <= Run(s, ls).clock
    ensures AllWithin(s.start, Reads(s, ls), Run(s, ls).clock)
    ensures Ordered(s.start, ls) ==> Ascending(Reads(s, ls))
  {
    ReadsInRange(s, ls);
    if Ordered(s.start, ls) { ReadsAscend(s, s.start, ls); }
  }

  lemma ReadsCons(s: Sys, l: Label, ls: seq<Label>)
    requires Enabled(s, l) && Legal(Next(s, l), ls)
    ensures Legal(s, [l] + ls) && Run(s, [l] + ls) == Run(Next(s, l), ls)
    ensures Reads(s, [l] + ls) == ReadBy(s, l) + Reads(Next(s, l), ls)
  {
    assert ([l] + ls)[1..] == ls;
  }

  lemma {:induction false} OrderedWithoutWakeups(newest: real, ls: seq<Label>)
    requires forall l <- ls :: !l.Wakeup?
    ensures Ordered(newest, ls)
  {
    if ls != [] {
      assert !ls[0].Wakeup?;
      OrderedWithoutWakeups(newest, ls[1..]);
    }
  }

  /** A wakeup at this time, its drain, and a reading. */
  function WakeupRound(when: real): seq<Label> {
    [Wakeup(when)] + ([BeginDrain] + ([Pop] + ([EndDrain] + [ReadTime])))
  }

  /**
   * The order matters: whatever was read before, a wakeup that reaches an empty queue is what is read
   * next, so readings fall whenever it had read the clock before the current context time.
   */
  lemma {:induction false} LateWakeupIsRead(s: Sys, when: real)
    requires s.pc == Idle && s.queue == [] && s.start <= when <= s.clock
    ensures Legal(s, WakeupRound(when)) && Reads(s, WakeupRound(when)) == [when]
    ensures Run(s, WakeupRound(when)).pc == Idle && Run(s, WakeupRound(when)).queue == []
    ensures !Ordered(ContextTime(s), WakeupRound(when)) <==> Reads(s, WakeupRound(when))[0] < ContextTime(s)
  {
    var s1 := Next(s, Wakeup(when));
    var s2 := Next(s1, BeginDrain);
    var s3 := Next(s2, Pop);
    var s4 := Next(s3, EndDrain);
    PopTime(s2);
    var l3 := [EndDrain] + [ReadTime];
    var l1 := [BeginDrain] + ([Pop] + l3);
    ReadsCons(s4, ReadTime, []);
    assert [ReadTime] + [] == [ReadTime];
    ReadsCons(s3, EndDrain, [ReadTime]);
    ReadsCons(s2, Pop, l3);
    ReadsCons(s1, BeginDrain, [Pop] + l3);
    ReadsCons(s, Wakeup(when), l1);
    OrderedWithoutWakeups(when, l1);
    assert WakeupRound(when)[1..] == l1;
  }

  lemma {:induction false} ReadsAppend(s: Sys, a: seq<Label>, b: seq<Label>)
    requires Legal(s, a + b)
    ensures Legal(s, a) && Legal(Run(s, a), b) && Reads(s, a + b) == Reads(s, a) + Reads(Run(s, a), b)
    decreases |a|
  {
    if a == [] {
      assert a + b == b;
    } else {
      assert (a + b)[0] == a[0] && (a + b)[1..] == a[1..] + b;
      ReadsAppend(Next(s, a[0]), a[1..], b);
      Assoc(ReadBy(s, a[0]), Reads(Next(s, a[0]), a[1..]), Reads(Run(s, a), b));
    }
  }

  /** A call of a transition, with the context time, the clock and the queue at that moment. */
  datatype Invocation = Invocation(trans: Transition<string>, context: real, begun: real, queue: seq<Event>)

  function InvokedBy(s: Sys, l: Label): seq<Invocation> {
    if l.Invoke? then [Invocation(l.t, ContextTime(s), s.clock, s.queue)] else []
  }

  /** The transitions that the executor calls during a run, successful or not. */
  function Invocations(s: Sys, ls: seq<Label>): seq<Invocation>
    requires Legal(s, ls)
    decreases |ls|
  {
    if ls == [] then [] else InvokedBy(s, ls[0]) + Invocations(Next(s, ls[0]), ls[1..])
  }

  lemma {:induction false} InvocationsAppend(s: Sys, a: seq<Label>, b: seq<Label>)
    requires Legal(s, a + b)
    ensures Legal(s, a) && Legal(Run(s, a), b)
    ensures Invocations(s, a + b) == Invocations(s, a) + Invocations(Run(s, a), b)
    decreases |a|
  {
    if a == [] {
      assert a + b == b;
    } else {
      assert (a + b)[0] == a[0] && (a + b)[1..] == a[1..] + b;
      InvocationsAppend(Next(s, a[0]), a[1..], b);
      Assoc(InvokedBy(s, a[0]), Invocations(Next(s, a[0]), a[1..]), Invocations(Run(s, a), b));
    }
  }

  lemma WatchOne(s: Sys, l: Label)
    requires Enabled(s, l)
    ensures Legal(s, [l]) && Reads(s, [l]) == ReadBy(s, l) && Invocations(s, [l]) == InvokedBy(s, l)
  {
    RunOne(s, l);
    assert [l][1..] == [];
    assert Reads(s, [l]) == ReadBy(s, l) + Reads(Next(s, l), [l][1..]);
    assert Invocations(s, [l]) == InvokedBy(s, l) + Invocations(Next(s, l), [l][1..]);
  }

  lemma WatchSnoc(s: Sys, a: seq<Label>, l: Label)
    requires Legal(s, a) && Enabled(Run(s, a), l)
    ensures Legal(s, a + [l])
    ensures Reads(s, a + [l]) == Reads(s, a) + ReadBy(Run(s, a), l)
    ensures Invocations(s, a + [l]) == Invocations(s, a) + InvokedBy(Run(s, a), l)
  {
    RunSnoc(s, a, l);
    WatchOne(Run(s, a), l);
    ReadsAppend(s, a, [l]);
    InvocationsAppend(s, a, [l]);
  }

  // ---------------------------------------------------------------- a batch of wakeups

  function Timers(q: seq<Event>): seq<real> {
    if q == [] then [] else (if q[0].StepTime? then [q[0].t] else []) + Timers(q[1..])
  }

  function Pops(n: nat): seq<Label> {
    seq(n, _ => Pop)
  }

  /** Without interference a drain ends with the time of the wakeup that was queued first. */
  lemma {:induction false} QuietDrain(s: Sys, n: nat)
    requires s.pc.Draining? && n == |s.queue|
    ensures Legal(s, Pops(n)) && Run(s, Pops(n)).queue == [] && Run(s, Pops(n)).pc == s.pc
    ensures ContextTime(Run(s, Pops(n))) ==
            if Timers(s.queue) == [] then ContextTime(s) else Timers(s.queue)[|Timers(s.queue)| - 1]
    decreases n
  {
    if n > 0 {
      PopTime(s);
      QuietDrain(Next(s, Pop), n - 1);
      assert Pops(n)[0] == Pop && Pops(n)[1..] == Pops(n - 1);
    }
  }

  lemma {:induction false} NoTimers(q: seq<Event>)
    requires forall i :: 0 <= i < |q| ==> !q[i].StepTime?
    ensures Timers(q) == []
  {
    if q != [] { NoTimers(q[1..]); }
  }

  lemma {:induction false} TimersAreFirst(q: seq<Event>)
    requires TimersFirst(q)
    ensures |Timers(q)| <= |q|
    ensures forall i :: 0 <= i < |Timers(q)| ==> q[i] == StepTime(Timers(q)[i])
  {
    if q != [] {
      if q[0].StepTime? {
        TimersAreFirst(q[1..]);
      } else {
        NoTimers(q);
      }
    }
  }

  lemma TimersDescend(q: seq<Event>)
    requires TimersFirst(q)
    ensures forall i, j :: 0 <= i <= j < |Timers(q)| ==> Timers(q)[i] >= Timers(q)[j]
  {
    TimersAreFirst(q);
  }

  /**
   * Such a drain leaves the time of the oldest wakeup of the batch. It is the time of the newest one
   * if and only if all wakeups of the batch carry the same time.
   */
  lemma {:induction false} BatchEndsWithOldest(s: Sys)
    requires TimersFirst(s.queue) && s.pc.Draining? && Timers(s.queue) != []
    ensures Legal(s, Pops(|s.queue|))
    ensures var ts := Timers(s.queue); var t := ContextTime(Run(s, Pops(|s.queue|)));
      && t == ts[|ts| - 1]
      && (forall i :: 0 <= i < |ts| ==> t <= ts[i])
      && (t == ts[0] <==> (forall i :: 0 <= i < |ts| ==> ts[i] == ts[0]))
  {
    QuietDrain(s, |s.queue|);
    TimersDescend(s.queue);
  }

  /** Within a drain the context time does run backwards. */
  lemma {:induction false} BackwardsInsideDrain(s: Sys, newer: real, older: real)
    requires s.pc.Draining? && |s.queue| >= 2
    requires s.queue[0] == StepTime(newer) && s.queue[1] == StepTime(older) && older < newer
    ensures Legal(s, [Pop, Pop])
    ensures ContextTime(Run(s, [Pop])) == newer && ContextTime(Run(s, [Pop, Pop])) == older
  {
    PopTime(s);
    PopTime(Next(s, Pop));
    assert [Pop][1..] == [] && [Pop, Pop][1..] == [Pop];
  }

  /** Such a queue arises when time passes between two wakeups. */
  lemma TwoWakeups(s: Sys, dt: real)
    requires dt >= 0.0 && s.start <= s.clock
    ensures var s2 := Next(Next(s, Wakeup(s.clock)), Tick(dt));
      Next(s2, Wakeup(s2.clock)).queue == [StepTime(s.clock + dt), StepTime(s.clock)] + s.queue
  {
  }
}
