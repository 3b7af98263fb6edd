/** Concrete runs that show the limits of the theorems. */
module LifecycleExamples {
  import opened Prelude
  import opened Policy
  import opened Lifecycle
  import opened LifecycleProofs
  import opened LifecycleSteps
  import opened LifecycleTheorems
  import opened Text
  import opened Runs

  const SAMPLE: Service := Service("web", "web:80", 80, Some(Workload("deployment", "ns", "web", 1, 1, 10)))
  const FINE: Answers := Answers(true, true, true)

  function SampleTarget(): Target { TargetOf(SAMPLE.workload.value) }

  /** A gateway that has served only the sample service, with nobody waiting. */
  function Alone(r: Runtime, g: Gauges, now: int): World {
    World(true, map[RuntimeKey("alice", SAMPLE) := r], map[], g, now)
  }

  function Sample(active: int, timer: Option<nat>, open: map<nat, ServiceType>, connections: nat,
                  timers: map<nat, Timer>, armed: nat, history: seq<Event>): Runtime {
    RuntimeState(SAMPLE.workload, "alice" + "/" + SAMPLE.name, active, true, timer,
                 open, connections, timers, armed, history)
  }

  const STARTED: seq<Event> := [Opened(0, SAMPLE.workload), Called(0, SampleTarget(), 1, true, FirstOpen)]
  const EMPTIED: seq<Event> := STARTED + [Emptied(0, 10, 0)]
  const AGAIN: seq<Event> := EMPTIED + [Opened(10, SAMPLE.workload)]
  const EMPTIED_AGAIN: seq<Event> := AGAIN + [Emptied(10, 10, 1)]

  /** Open again while the first callback, already started, waits for the lock. */
  function Busy(): Runtime {
    Sample(1, None, map[1 := ManagedType], 2, map[0 := Timer(10, true, 2)], 1, AGAIN)
  }

  /** Idle again, with a second timer stored beside the first callback. */
  function Idle(): Runtime {
    Sample(0, Some(1), map[], 2, map[0 := Timer(10, true, 2), 1 := Timer(20, false, 4)], 2, EMPTIED_AGAIN)
  }

  lemma OpensAlone(r: Runtime, g: Gauges, now: int)
    ensures var o := OpenSection(r, g, true, "alice", SAMPLE, now, FINE);
            Apply(Apply(Alone(r, g, now), Lookup(0, "alice", SAMPLE)), Open(0, FINE)) == Alone(o.runtime, o.gauges, now)
  {
    var k := RuntimeKey("alice", SAMPLE);
    var ticketed := Apply(Alone(r, g, now), Lookup(0, "alice", SAMPLE));
    assert ticketed == Alone(r, g, now).(waiting := map[0 := Ticket("alice", SAMPLE)]);
    var o := OpenSection(r, g, true, "alice", SAMPLE, now, FINE);
    assert map[k := r][k := o.runtime] == map[k := o.runtime];
    assert ticketed.waiting - {0} == map[];
  }

  lemma ActsAlone(r: Runtime, g: Gauges, now: int, a: Action)
    requires !a.Opens?
    ensures var (r', g') := Act(true, now, r, g, a);
            Apply(Alone(r, g, now), On(RuntimeKey("alice", SAMPLE), a)) == Alone(r', g', now)
  {
    var k := RuntimeKey("alice", SAMPLE);
    var r' := Act(true, now, r, g, a).0;
    assert map[k := r][k := r'] == map[k := r'];
  }

  /** The first Open from a fresh gateway. */
  lemma FirstOpens()
    ensures Apply(Apply(Start(true), Lookup(0, "alice", SAMPLE)), Open(0, FINE)) ==
            Alone(Sample(1, None, map[0 := ManagedType], 1, map[], 0, STARTED), Gauges(0, 1, 1), 0)
  {
    var created := NewRuntime();
    OpensAlone(created, Gauges(0, 0, 0), 0);
    assert Apply(Start(true), Lookup(0, "alice", SAMPLE)) ==
           Apply(Alone(created, Gauges(0, 0, 0), 0), Lookup(0, "alice", SAMPLE));
    var o := OpenSection(created, Gauges(0, 0, 0), true, "alice", SAMPLE, 0, FINE);
    assert o.runtime.history == STARTED && o.runtime.open == map[0 := ManagedType];
    assert o.runtime == Sample(1, None, map[0 := ManagedType], 1, map[], 0, STARTED);
  }

  /** Close it, and let the timer run out: its callback now waits for the lock. */
  lemma ThenExpires()
    ensures var k := RuntimeKey("alice", SAMPLE);
            var w := Alone(Sample(1, None, map[0 := ManagedType], 1, map[], 0, STARTED), Gauges(0, 1, 1), 0);
            Apply(Apply(Apply(w, On(k, Closes(0))), Tick(10)), On(k, Expires(0))) ==
            Alone(Sample(0, Some(0), map[], 1, map[0 := Timer(10, true, 2)], 1, EMPTIED), Gauges(0, 0, 1), 10)
  {
    var r := Sample(1, None, map[0 := ManagedType], 1, map[], 0, STARTED);
    ActsAlone(r, Gauges(0, 1, 1), 0, Closes(0));
    assert r.open - {0} == map[];
    var closed := Sample(0, Some(0), map[], 1, map[0 := Timer(10, false, 2)], 1, EMPTIED);
    assert CloseSection(r, Gauges(0, 1, 1), 0, 0) == (closed, Gauges(0, 0, 1));
    ActsAlone(closed, Gauges(0, 0, 1), 10, Expires(0));
    assert Expire(closed, 0, 10).timers == map[0 := Timer(10, true, 2)];
  }

  /** Open again before the callback gets the lock; Stop comes too late. */
  lemma ThenReopens()
    ensures var w := Alone(Sample(0, Some(0), map[], 1, map[0 := Timer(10, true, 2)], 1, EMPTIED), Gauges(0, 0, 1), 10);
            Apply(Apply(w, Lookup(0, "alice", SAMPLE)), Open(0, FINE)) ==
            Alone(Busy(), Gauges(0, 1, 1), 10)
  {
    var r := Sample(0, Some(0), map[], 1, map[0 := Timer(10, true, 2)], 1, EMPTIED);
    OpensAlone(r, Gauges(0, 0, 1), 10);
    var entered := Enter(r, "alice", SAMPLE, 10);
    assert entered == Sample(0, None, map[], 1, map[0 := Timer(10, true, 2)], 1, AGAIN);
  }

  /** And close again. */
  lemma ThenCloses()
    ensures var k := RuntimeKey("alice", SAMPLE);
            Apply(Alone(Busy(), Gauges(0, 1, 1), 10), On(k, Closes(1))) == Alone(Idle(), Gauges(0, 0, 1), 10)
  {
    ActsAlone(Busy(), Gauges(0, 1, 1), 10, Closes(1));
    assert Busy().open - {1} == map[];
  }

  function LateRun(k: string): seq<Step> {
    [Lookup(0, "alice", SAMPLE), Open(0, FINE), On(k, Closes(0)), Tick(10), On(k, Expires(0)),
     Lookup(0, "alice", SAMPLE), Open(0, FINE), On(k, Closes(1)), On(k, Fires(0, true))]
  }

  lemma LateRunUnfolds(k: string)
    ensures var s := LateRun(k);
            Run(true, s) ==
            Apply(Apply(Apply(Apply(Apply(Apply(Apply(Apply(Apply(
                  Start(true), s[0]), s[1]), s[2]), s[3]), s[4]), s[5]), s[6]), s[7]), s[8])
  {
    var s := LateRun(k);
    assert s[..0] == [];
    forall i | 0 <= i < 9 ensures Run(true, s[..i + 1]) == Apply(Run(true, s[..i]), s[i]) {
      FoldSnoc(Apply, Start(true), s[..i], s[i]);
      assert s[..i] + [s[i]] == s[..i + 1];
    }
    assert s[..9] == s;
  }

  /** Then the old callback gets the lock, at the moment the second idle period begins. */
  lemma ThenFires()
    ensures var k := RuntimeKey("alice", SAMPLE);
            var w := Apply(Alone(Idle(), Gauges(0, 0, 1), 10), On(k, Fires(0, true)));
            && k in w.runtimes && |w.runtimes[k].history| == 6
            && w.runtimes[k].history[5] == Called(10, SampleTarget(), 0, true, IdleTimer(0))
            && !Rested(w.runtimes[k].history, 5)
  {
    var r := Idle();
    ActsAlone(r, Gauges(0, 0, 1), 10, Fires(0, true));
    var h := IdleSection(r, Gauges(0, 0, 1), 0, true, 10).0.history;
    assert h == EMPTIED_AGAIN + [Called(10, SampleTarget(), 0, true, IdleTimer(0))];
    assert h[3] == Opened(10, SAMPLE.workload);
  }

  /** A concrete run with one late Stop, in which an idle scale-down cuts a new idle period short. */
  lemma LateStopCutsIdleShort()
    ensures var k := RuntimeKey("alice", SAMPLE);
            var w := Run(true, LateRun(k));
            && k in w.runtimes && |w.runtimes[k].history| == 6
            && w.runtimes[k].history[5] == Called(10, SampleTarget(), 0, true, IdleTimer(0))
            && !Rested(w.runtimes[k].history, 5)
  {
    LateRunUnfolds(RuntimeKey("alice", SAMPLE));
    FirstOpens();
    ThenExpires();
    ThenReopens();
    ThenCloses();
    ThenFires();
  }

  // ----- A grant without a workload on a workload's runtime -----

  /** A grant whose name holds NULs, so that with the right identity its key is that of the sample workload. */
  const STRAY: Service := Service(Join("deployment", "ns", "web"), "web:80", 80, None)
  const NO_DIAL: Answers := Answers(true, false, true)

  lemma StrayKey()
    ensures RuntimeKey("workload", STRAY) == RuntimeKey("alice", SAMPLE)
  {
  }

  lemma StraysAlone(r: Runtime, g: Gauges, now: int)
    ensures var o := OpenSection(r, g, true, "workload", STRAY, now, NO_DIAL);
            Apply(Apply(Alone(r, g, now), Lookup(0, "workload", STRAY)), Open(0, NO_DIAL)) ==
            Alone(o.runtime, o.gauges, now)
  {
    StrayKey();
    var k := RuntimeKey("alice", SAMPLE);
    var ticketed := Apply(Alone(r, g, now), Lookup(0, "workload", STRAY));
    assert ticketed == Alone(r, g, now).(waiting := map[0 := Ticket("workload", STRAY)]);
    var o := OpenSection(r, g, true, "workload", STRAY, now, NO_DIAL);
    assert map[k := r][k := o.runtime] == map[k := o.runtime];
    assert ticketed.waiting - {0} == map[];
  }

  function Closed(): Runtime {
    Sample(0, Some(0), map[], 1, map[0 := Timer(10, false, 2)], 1, EMPTIED)
  }

  lemma FirstCloses()
    ensures Apply(Alone(Sample(1, None, map[0 := ManagedType], 1, map[], 0, STARTED), Gauges(0, 1, 1), 0),
                  On(RuntimeKey("alice", SAMPLE), Closes(0))) ==
            Alone(Closed(), Gauges(0, 0, 1), 0)
  {
    var r := Sample(1, None, map[0 := ManagedType], 1, map[], 0, STARTED);
    ActsAlone(r, Gauges(0, 1, 1), 0, Closes(0));
    assert r.open - {0} == map[];
  }

  function StrayRun(k: string): seq<Step> {
    [Lookup(0, "alice", SAMPLE), Open(0, FINE), On(k, Closes(0)), Lookup(0, "workload", STRAY), Open(0, NO_DIAL)]
  }

  lemma StrayRunUnfolds(k: string)
    ensures var s := StrayRun(k);
            Run(true, s) == Apply(Apply(Apply(Apply(Apply(Start(true), s[0]), s[1]), s[2]), s[3]), s[4])
  {
    var s := StrayRun(k);
    assert s[..0] == [];
    forall i | 0 <= i < 5 ensures Run(true, s[..i + 1]) == Apply(Run(true, s[..i]), s[i]) {
      FoldSnoc(Apply, Start(true), s[..i], s[i]);
      assert s[..i] + [s[i]] == s[..i + 1];
    }
    assert s[..5] == s;
  }

  /** The failed dial cancels the only callback. */
  lemma StrayForgets()
    ensures var r := OpenSection(Closed(), Gauges(0, 0, 1), true, "workload", STRAY, 0, NO_DIAL).runtime;
            r.scaled && r.open == map[] && r.timers == map[] && !FailedDown(LastCall(r.history))
  {
    LastCallAppended([Opened(0, SAMPLE.workload)], STARTED[1]);
    assert [Opened(0, SAMPLE.workload)] + [STARTED[1]] == STARTED;
    LastCallAppended(STARTED, Emptied(0, 10, 0));
    LastCallAppended(EMPTIED, Opened(0, None));
    assert Closed().timers - {0} == map[];
  }

  /** A run of five steps after which the sample workload is up with nobody connected, no callback
      pending, and no failed scale-down: the condition of NothingForgotten is needed. */
  lemma SharedKeyForgets()
    ensures var k := RuntimeKey("alice", SAMPLE);
            var w := Run(true, StrayRun(k));
            && k in w.runtimes && w.runtimes[k].scaled && w.runtimes[k].open == map[]
            && w.runtimes[k].timers == map[] && !FailedDown(LastCall(w.runtimes[k].history))
  {
    StrayRunUnfolds(RuntimeKey("alice", SAMPLE));
    FirstOpens();
    FirstCloses();
    StraysAlone(Closed(), Gauges(0, 0, 1), 0);
    StrayForgets();
  }
}
