/** The promises of the lifecycle gateway, for every run. */
module LifecycleTheorems {
  import opened Prelude
  import opened Policy
  import opened Lifecycle
  import opened LifecycleProofs
  import opened LifecycleRuns
  import opened LifecycleSteps
  import opened LifecycleGrants
  import opened Runs
  import opened Sums

  // ----- Without Shutdown: never down while connected -----

  ghost predicate ManagedUp(r: Runtime) {
    OfType(r.open, ManagedType) != {} ==> r.scaled
  }

  /** A connected managed workload is up, and a pending callback whose idle period was not
      interrupted is the one the runtime stores. */
  ghost predicate Calm(r: Runtime) {
    && ManagedUp(r)
    && (forall id :: id in r.timers && r.scaled && NoOpenSince(r.history, r.timers[id].armed) ==>
          r.idleTimer == Some(id))
  }

  /** A call that a section makes on its way from r to r': a scale-down finds and leaves nobody connected,
      a scale-up asks for the granted replicas, and neither sets replicas to zero under a managed connection. */
  ghost predicate CallAllowed(r: Runtime, r': Runtime, e: Event)
    requires e.Called?
  {
    && (!e.cause.FirstOpen? ==> r.open == r'.open == map[])
    && (e.cause.FirstOpen? ==> r'.workload.Some? && e.replicas == r'.workload.value.replicas)
    && (e.replicas == 0 ==> OfType(r.open, ManagedType) == {})
  }

  ghost predicate CallsAllowed(r: Runtime, r': Runtime) {
    && r.history <= r'.history
    && (forall i :: |r.history| <= i < |r'.history| && r'.history[i].Called? ==> CallAllowed(r, r', r'.history[i]))
  }

  lemma DownIsCalm(now: int, r: Runtime, g: Gauges, w: Workload, ok: bool, cause: Cause)
    requires Counted(r) && r.active == 0 && !cause.FirstOpen?
    ensures var r' := ScaleDown(r, g, w, ok, cause, now).0; CallsAllowed(r, r') && ManagedUp(r')
  {
    assert r.open == map[];
    assert OfType(r.open, ManagedType) == {};
  }

  lemma DialIsCalm(now: int, r: Runtime, g: Gauges, service: Service, a: Answers)
    requires Counted(r) && ManagedUp(r) && (service.workload.Some? ==> r.scaled)
    ensures var r' := Dial(r, g, service, now, a).runtime;
            CallsAllowed(r, r') && ManagedUp(r') && r'.timers == r.timers && r'.workload == r.workload
    ensures Dial(r, g, service, now, a).runtime.history != r.history ==> r.open == map[]
  {
    if a.dialOk {
      OpensOne(r.open, r.nextConnection, TypeOf(service), ManagedType);
    } else if service.workload.Some? && r.active == 0 {
      DownIsCalm(now, r, g, service.workload.value, a.downOk, FailedDial);
    }
  }

  lemma StartIsCalm(now: int, r: Runtime, g: Gauges, service: Service, a: Answers)
    requires Counted(r) && ManagedUp(r) && service.workload.Some? && !r.scaled && r.workload == service.workload
    ensures var r' := Proceed(r, g, true, service, now, a).runtime;
            CallsAllowed(r, r') && ManagedUp(r') && r'.timers == r.timers
  {
    if a.upOk {
      var w := service.workload.value;
      var up := Call(r, w, w.replicas, true, FirstOpen, now).(scaled := true);
      DialIsCalm(now, up, g.(workloads := g.workloads + 1), service, a);
      var r' := Dial(up, g.(workloads := g.workloads + 1), service, now, a).runtime;
      assert r'.history[|r.history|] == up.history[|r.history|];
      forall i | |r.history| <= i < |r'.history| && r'.history[i].Called? ensures CallAllowed(r, r', r'.history[i]) {
        assert i > |r.history| ==> CallAllowed(up, r', r'.history[i]);
      }
    }
  }

  lemma ProceedIsCalm(hasScaler: bool, now: int, r: Runtime, g: Gauges, service: Service, a: Answers)
    requires Counted(r) && ManagedUp(r) && (service.workload.Some? ==> r.workload == service.workload)
    ensures var r' := Proceed(r, g, hasScaler, service, now, a).runtime;
            CallsAllowed(r, r') && ManagedUp(r') && r'.timers == r.timers
  {
    if service.workload.Some? && !r.scaled {
      if hasScaler {
        StartIsCalm(now, r, g, service, a);
      }
    } else {
      DialIsCalm(now, r, g, service, a);
    }
  }

  lemma OpenIsCalm(hasScaler: bool, now: int, k: string, r: Runtime, g: Gauges, a: Action)
    requires RuntimeInv(hasScaler, now, k, r) && a.Opens? && Calm(r)
    ensures var r' := Act(hasScaler, now, r, g, a).0; Calm(r') && CallsAllowed(r, r')
  {
    var r' := Act(hasScaler, now, r, g, a).0;
    var entered := Enter(r, a.identity, a.service, now);
    assert entered.history == r.history + [Opened(now, a.service.workload)];
    ProceedIsCalm(hasScaler, now, entered, g, a.service, a.answers);
    assert entered.history <= r'.history;
    assert r'.history[|r.history|] == Opened(now, a.service.workload);
    forall i | |r.history| <= i < |r'.history| && r'.history[i].Called? ensures CallAllowed(r, r', r'.history[i]) {
      assert CallAllowed(entered, r', r'.history[i]);
    }
    forall id | id in r'.timers ensures !NoOpenSince(r'.history, r'.timers[id].armed) {
      assert TimerFits(now, r, id);
    }
  }

  lemma CloseIsCalm(hasScaler: bool, now: int, k: string, r: Runtime, g: Gauges, c: nat)
    requires RuntimeInv(hasScaler, now, k, r) && Calm(r)
    ensures var r' := CloseSection(r, g, c, now).0; Calm(r') && CallsAllowed(r, r')
  {
    assert OfType(r.open - {c}, ManagedType) <= OfType(r.open, ManagedType);
    var r' := CloseSection(r, g, c, now).0;
    forall id | id in r.timers && NoOpenSince(r'.history, r'.timers[id].armed)
      ensures NoOpenSince(r.history, r.timers[id].armed)
    {
      assert TimerFits(now, r, id);
      forall j | 0 <= j < |r.history| && r.timers[id].armed < j ensures !r.history[j].Opened? {
        assert r'.history[j] == r.history[j];
      }
    }
  }

  lemma ExpireIsCalm(now: int, r: Runtime, id: nat)
    requires Calm(r)
    ensures var r' := Expire(r, id, now); Calm(r') && CallsAllowed(r, r')
  {
  }

  lemma IdleIsCalm(now: int, r: Runtime, g: Gauges, id: nat, ok: bool)
    requires Counted(r) && ManagedUp(r)
    ensures var r' := IdleSection(r, g, id, ok, now).0; ManagedUp(r') && CallsAllowed(r, r')
  {
    if r.active == 0 && r.scaled {
      DownIsCalm(now, r.(timers := r.timers - {id}), g, r.workload.value, ok, IdleTimer(id));
    }
  }

  lemma FireIsCalm(hasScaler: bool, now: int, k: string, r: Runtime, g: Gauges, id: nat, ok: bool)
    requires RuntimeInv(hasScaler, now, k, r) && Calm(r)
    ensures var r' := IdleSection(r, g, id, ok, now).0; Calm(r') && CallsAllowed(r, r')
  {
    var r' := IdleSection(r, g, id, ok, now).0;
    IdleIsCalm(now, r, g, id, ok);
    forall i | i in r'.timers && NoOpenSince(r'.history, r'.timers[i].armed)
      ensures NoOpenSince(r.history, r.timers[i].armed)
    {
      forall j | 0 <= j < |r.history| && r.timers[i].armed < j ensures !r.history[j].Opened? {
        assert r'.history[j] == r.history[j];
      }
    }
  }

  lemma ActIsCalm(hasScaler: bool, now: int, k: string, r: Runtime, g: Gauges, a: Action)
    requires RuntimeInv(hasScaler, now, k, r) && !a.Stops? && Calm(r)
    ensures var r' := Act(hasScaler, now, r, g, a).0; Calm(r') && CallsAllowed(r, r')
  {
    match a
    case Opens(_, _, _) => OpenIsCalm(hasScaler, now, k, r, g, a);
    case Closes(c) => CloseIsCalm(hasScaler, now, k, r, g, c);
    case Expires(id) => ExpireIsCalm(now, r, id);
    case Fires(id, ok) => FireIsCalm(hasScaler, now, k, r, g, id, ok);
  }

  ghost predicate CalmAt(hasScaler: bool, w: World, k: string) {
    Good(hasScaler, w) && (k in w.runtimes ==> Calm(w.runtimes[k]))
  }

  /** The step is not a Shutdown of runtime k. */
  predicate WithoutShutdown(s: Step, k: string) {
    !(s.On? && s.key == k && s.action.Stops?)
  }

  ghost predicate NoShutdowns(steps: seq<Step>, k: string) {
    forall s :: s in steps ==> WithoutShutdown(s, k)
  }

  lemma CalmStep(hasScaler: bool, w: World, s: Step, k: string)
    requires CalmAt(hasScaler, w, k) && WithoutShutdown(s, k)
    ensures CalmAt(hasScaler, Apply(w, s), k)
  {
    GoodKeeps(hasScaler, w, s);
    if k in w.runtimes {
      assert Located(w, k);
      Moves(w, s, k);
      var a := ActionOn(w, s, k);
      if a.Some? {
        ActIsCalm(hasScaler, w.now, k, w.runtimes[k], w.gauges, a.value);
      }
    } else if k in Apply(w, s).runtimes {
      Appears(w, s, k);
    }
  }

  lemma RunsAreCalm(hasScaler: bool, steps: seq<Step>, k: string)
    requires NoShutdowns(steps, k)
    ensures CalmAt(hasScaler, Run(hasScaler, steps), k)
  {
    forall w, s | CalmAt(hasScaler, w, k) && WithoutShutdown(s, k) ensures CalmAt(hasScaler, Apply(w, s), k) {
      CalmStep(hasScaler, w, s, k);
    }
    EveryRunKeeps(hasScaler, []);
    Invariance(Apply, Start(hasScaler), steps, w => CalmAt(hasScaler, w, k), (w, s) => WithoutShutdown(s, k));
  }

  // ----- When every Stop beats its callback: the idle period is honoured -----

  /** The call at i follows the release that armed its timer by the full delay, with no Open between. */
  ghost predicate Rested(h: seq<Event>, i: nat)
    requires i < |h| && h[i].Called? && h[i].cause.IdleTimer?
  {
    exists j :: RestedSince(h, i, j)
  }

  ghost predicate RestedSince(h: seq<Event>, i: nat, j: nat)
    requires i < |h| && h[i].Called? && h[i].cause.IdleTimer?
  {
    && j < i && h[j].Emptied? && h[j].timer == h[i].cause.timer
    && h[j].at + h[j].delay <= h[i].at
    && forall m :: j < m < i ==> !h[m].Opened?
  }

  ghost predicate IdleCallsRest(h: seq<Event>) {
    forall i :: 0 <= i < |h| && h[i].Called? && h[i].cause.IdleTimer? ==> Rested(h, i)
  }

  /** At most one callback is pending, the stored one; and every idle scale-down so far rested. */
  ghost predicate Prompt(r: Runtime) {
    && (forall id :: id in r.timers ==> r.idleTimer == Some(id))
    && IdleCallsRest(r.history)
  }

  /** Stop is applied to a timer whose callback has already started. */
  predicate LateStop(r: Runtime, a: Action) {
    && (a.Opens? || a.Stops?)
    && r.idleTimer.Some? && r.idleTimer.value in r.timers && r.timers[r.idleTimer.value].started
  }

  lemma RestAppended(h: seq<Event>, h': seq<Event>)
    requires IdleCallsRest(h) && GrowsWithoutIdling(h, h')
    ensures IdleCallsRest(h')
  {
    forall i | 0 <= i < |h'| && h'[i].Called? && h'[i].cause.IdleTimer? ensures Rested(h', i) {
      assert h[i] == h'[i];
      assert Rested(h, i);
      var j :| RestedSince(h, i, j);
      assert RestedSince(h', i, j);
    }
  }

  lemma FireIsPrompt(hasScaler: bool, now: int, k: string, r: Runtime, g: Gauges, id: nat, ok: bool)
    requires RuntimeInv(hasScaler, now, k, r) && Prompt(r) && id in r.timers && r.timers[id].started
    ensures r.active == 0 && r.scaled && r.idleTimer == Some(id)
    ensures Prompt(IdleSection(r, g, id, ok, now).0)
  {
    var r' := IdleSection(r, g, id, ok, now).0;
    assert TimerFits(now, r, id);
    var h, n := r'.history, |r.history|;
    assert h[..n] == r.history;
    assert RestedSince(h, n, r.timers[id].armed);
    forall i | 0 <= i < |h| && h[i].Called? && h[i].cause.IdleTimer? ensures Rested(h, i) {
      if i < n {
        assert r.history[i] == h[i];
        assert Rested(r.history, i);
        var j :| RestedSince(r.history, i, j);
        assert RestedSince(h, i, j);
      }
    }
  }

  /** Only the idle callback issues calls on behalf of a timer. */
  ghost predicate GrowsWithoutIdling(h: seq<Event>, h': seq<Event>) {
    h <= h' && forall i :: |h| <= i < |h'| && h'[i].Called? ==> !h'[i].cause.IdleTimer?
  }

  lemma ProceedDoesNotIdle(hasScaler: bool, now: int, r: Runtime, g: Gauges, service: Service, a: Answers)
    requires service.workload.Some? ==> r.workload == service.workload
    ensures GrowsWithoutIdling(r.history, Proceed(r, g, hasScaler, service, now, a).runtime.history)
  {
  }

  lemma OthersDoNotIdle(hasScaler: bool, now: int, r: Runtime, g: Gauges, a: Action)
    requires !a.Fires?
    ensures GrowsWithoutIdling(r.history, Act(hasScaler, now, r, g, a).0.history)
  {
    if a.Opens? {
      var entered := Enter(r, a.identity, a.service, now);
      assert entered.history == r.history + [Opened(now, a.service.workload)];
      ProceedDoesNotIdle(hasScaler, now, entered, g, a.service, a.answers);
    }
  }

  lemma ActIsPrompt(hasScaler: bool, now: int, k: string, r: Runtime, g: Gauges, a: Action)
    requires RuntimeInv(hasScaler, now, k, r) && Prompt(r) && !LateStop(r, a)
    ensures Prompt(Act(hasScaler, now, r, g, a).0)
  {
    if a.Fires? {
      if a.timer in r.timers && r.timers[a.timer].started {
        FireIsPrompt(hasScaler, now, k, r, g, a.timer, a.downOk);
      }
    } else {
      OthersDoNotIdle(hasScaler, now, r, g, a);
      RestAppended(r.history, Act(hasScaler, now, r, g, a).0.history);
    }
  }

  ghost predicate PromptAt(hasScaler: bool, w: World, k: string) {
    Good(hasScaler, w) && (k in w.runtimes ==> Prompt(w.runtimes[k]))
  }

  /** The step does not apply Stop on runtime k to a callback that has already started. */
  ghost predicate OnTime(w: World, s: Step, k: string) {
    k in w.runtimes && ActionOn(w, s, k).Some? ==> !LateStop(w.runtimes[k], ActionOn(w, s, k).value)
  }

  /** No step of the run does. */
  ghost predicate EveryStopWins(hasScaler: bool, steps: seq<Step>, k: string) {
    forall i :: 0 <= i < |steps| ==> OnTime(Run(hasScaler, steps[..i]), steps[i], k)
  }

  lemma PromptStep(hasScaler: bool, w: World, s: Step, k: string)
    requires PromptAt(hasScaler, w, k) && OnTime(w, s, k)
    ensures PromptAt(hasScaler, Apply(w, s), k)
  {
    GoodKeeps(hasScaler, w, s);
    if k in w.runtimes {
      assert Located(w, k);
      Moves(w, s, k);
      var a := ActionOn(w, s, k);
      if a.Some? {
        ActIsPrompt(hasScaler, w.now, k, w.runtimes[k], w.gauges, a.value);
      }
    } else if k in Apply(w, s).runtimes {
      Appears(w, s, k);
    }
  }

  lemma RunsArePrompt(hasScaler: bool, steps: seq<Step>, k: string)
    requires EveryStopWins(hasScaler, steps, k)
    ensures PromptAt(hasScaler, Run(hasScaler, steps), k)
  {
    forall w, s | PromptAt(hasScaler, w, k) && OnTime(w, s, k) ensures PromptAt(hasScaler, Apply(w, s), k) {
      PromptStep(hasScaler, w, s, k);
    }
    EveryRunKeeps(hasScaler, []);
    Invariance(Apply, Start(hasScaler), steps, w => PromptAt(hasScaler, w, k), (w, s) => OnTime(w, s, k));
  }

  // ----- Nothing is forgotten -----

  /** A ticket for runtime k is apart from every workload, unless it has one. */
  ghost predicate TicketApart(t: Ticket, k: string) {
    RuntimeKey(t.identity, t.service) == k ==> Apart(t.identity, t.service)
  }

  ghost predicate RemembersAt(hasScaler: bool, w: World, k: string) {
    && Good(hasScaler, w) && (k in w.runtimes ==> Remembered(w.runtimes[k]))
    && (forall c :: c in w.waiting ==> TicketApart(w.waiting[c], k))
  }

  lemma RuntimeRemembers(hasScaler: bool, w: World, s: Step, k: string)
    requires RemembersAt(hasScaler, w, k) && k in Apply(w, s).runtimes
    ensures Remembered(Apply(w, s).runtimes[k])
  {
    if k in w.runtimes {
      assert Located(w, k);
      Moves(w, s, k);
      var a := ActionOn(w, s, k);
      if a.Some? {
        assert a.value.Opens? ==> TicketApart(w.waiting[s.client], k);
        ActRemembers(hasScaler, w.now, k, w.runtimes[k], w.gauges, a.value);
      }
    } else {
      Appears(w, s, k);
    }
  }

  lemma RememberingStep(hasScaler: bool, w: World, s: Step, k: string)
    requires RemembersAt(hasScaler, w, k) && (s.Lookup? ==> TicketApart(Ticket(s.identity, s.service), k))
    ensures RemembersAt(hasScaler, Apply(w, s), k)
  {
    GoodKeeps(hasScaler, w, s);
    if k in Apply(w, s).runtimes {
      RuntimeRemembers(hasScaler, w, s, k);
    }
    TicketsStay(w, s);
  }

  /** Every ticket of the next state is one of this state, or the one just looked up. */
  lemma TicketsStay(w: World, s: Step)
    ensures forall c :: c in Apply(w, s).waiting ==>
              || (c in w.waiting && w.waiting[c] == Apply(w, s).waiting[c])
              || (s.Lookup? && Apply(w, s).waiting[c] == Ticket(s.identity, s.service))
  {
  }

  // ----- Scale-ups ask for replicas -----

  ghost predicate UpsArePositive(h: seq<Event>) {
    forall i :: 0 <= i < |h| && h[i].Called? && h[i].cause.FirstOpen? ==> h[i].replicas >= 1
  }

  lemma ActIsPositive(hasScaler: bool, now: int, r: Runtime, g: Gauges, a: Action)
    requires UpsArePositive(r.history) && (a.Opens? ==> Positive(a.service))
    ensures UpsArePositive(Act(hasScaler, now, r, g, a).0.history)
  {
    if a.Opens? {
      var entered := Enter(r, a.identity, a.service, now);
      assert entered.history == r.history + [Opened(now, a.service.workload)];
      ProceedIsPositive(hasScaler, now, entered, g, a.service, a.answers);
    }
  }

  lemma ProceedIsPositive(hasScaler: bool, now: int, r: Runtime, g: Gauges, service: Service, a: Answers)
    requires UpsArePositive(r.history) && Positive(service)
    requires service.workload.Some? ==> r.workload == service.workload
    ensures UpsArePositive(Proceed(r, g, hasScaler, service, now, a).runtime.history)
  {
  }

  ghost predicate TicketPositive(t: Ticket, k: string) {
    RuntimeKey(t.identity, t.service) == k ==> Positive(t.service)
  }

  ghost predicate PositiveAt(w: World, k: string) {
    && (k in w.runtimes ==> UpsArePositive(w.runtimes[k].history))
    && (forall c :: c in w.waiting ==> TicketPositive(w.waiting[c], k))
  }

  lemma RuntimePositive(w: World, s: Step, k: string)
    requires PositiveAt(w, k) && k in Apply(w, s).runtimes
    ensures UpsArePositive(Apply(w, s).runtimes[k].history)
  {
    if k in w.runtimes {
      Moves(w, s, k);
      var a := ActionOn(w, s, k);
      if a.Some? {
        assert a.value.Opens? ==> TicketPositive(w.waiting[s.client], k);
        ActIsPositive(w.hasScaler, w.now, w.runtimes[k], w.gauges, a.value);
      }
    } else {
      Appears(w, s, k);
    }
  }

  lemma PositiveStep(w: World, s: Step, k: string)
    requires PositiveAt(w, k) && (s.Lookup? ==> TicketPositive(Ticket(s.identity, s.service), k))
    ensures PositiveAt(Apply(w, s), k)
  {
    if k in Apply(w, s).runtimes {
      RuntimePositive(w, s, k);
    }
    TicketsStay(w, s);
  }

  // ----- The promises -----

  /** In every run without a Shutdown of the runtime, an open connection to a managed workload means it is scaled
      up, and whatever happens next no scale-to-zero call is issued while a connection is open. */
  lemma NeverDownWhileConnected(hasScaler: bool, steps: seq<Step>, s: Step, k: string)
    requires NoShutdowns(steps, k) && WithoutShutdown(s, k) && k in Run(hasScaler, steps).runtimes
    ensures var w := Run(hasScaler, steps);
            && ((exists c :: c in w.runtimes[k].open && w.runtimes[k].open[c].ManagedType?) ==> w.runtimes[k].scaled)
            && k in Apply(w, s).runtimes && CallsAllowed(w.runtimes[k], Apply(w, s).runtimes[k])
  {
    RunsAreCalm(hasScaler, steps, k);
    var w := Run(hasScaler, steps);
    assert Located(w, k) && Calm(w.runtimes[k]);
    if c :| c in w.runtimes[k].open && w.runtimes[k].open[c].ManagedType? {
      assert c in OfType(w.runtimes[k].open, ManagedType);
    }
    Moves(w, s, k);
    var a := ActionOn(w, s, k);
    if a.Some? {
      ActIsCalm(hasScaler, w.now, k, w.runtimes[k], w.gauges, a.value);
    }
  }

  /** In every run, Shutdown included, a workload that is up with nobody connected has an idle
      callback still to come, or its last scaler call was a scale-down that failed. */
  lemma NothingForgotten(hasScaler: bool, steps: seq<Step>, k: string)
    requires ApartAt(steps, k) && k in Run(hasScaler, steps).runtimes
    ensures var r := Run(hasScaler, steps).runtimes[k];
            r.scaled && r.open == map[] ==> r.timers != map[] || FailedDown(LastCall(r.history))
  {
    forall w, s: Step | RemembersAt(hasScaler, w, k) && (s.Lookup? ==> TicketApart(Ticket(s.identity, s.service), k))
      ensures RemembersAt(hasScaler, Apply(w, s), k)
    {
      RememberingStep(hasScaler, w, s, k);
    }
    EveryRunKeeps(hasScaler, []);
    Invariance(Apply, Start(hasScaler), steps, w => RemembersAt(hasScaler, w, k),
               (w, s: Step) => s.Lookup? ==> TicketApart(Ticket(s.identity, s.service), k));
    assert Located(Run(hasScaler, steps), k);
  }

  lemma AlternatesOn(s: seq<int>, more: bool, n: int, up: bool)
    requires Alternating(s) && (more ==> if up then n > 0 else n == 0)
    requires |s| % 2 == 1 <==> if more then !up else up
    ensures var s' := s + if more then [n] else []; Alternating(s') && (up <==> |s'| % 2 == 1)
  {
  }

  lemma {:induction false} FittingCallsAlternate(hasScaler: bool, k: string, scaled: bool, h: seq<Event>)
    requires CallsFit(hasScaler, k, scaled, h) && UpsArePositive(h)
    ensures Alternating(Successes(h)) && (scaled <==> |Successes(h)| % 2 == 1)
    ensures (scaled <==> Backend(h) > 0) && Backend(h) >= 0
    decreases |h|
  {
    if h != [] {
      var e, before := h[|h| - 1], h[..|h| - 1];
      FittingCallsAlternate(hasScaler, k, if e.Called? && e.ok then !scaled else scaled, before);
      AlternatesOn(Successes(before), e.Called? && e.ok, if e.Called? then e.replicas else 0, scaled);
    }
  }

  lemma {:induction false} FittingCallsGoHome(hasScaler: bool, k: string, scaled: bool, h: seq<Event>, i: nat)
    requires CallsFit(hasScaler, k, scaled, h) && i < |h| && h[i].Called?
    ensures hasScaler && k == KeyOf(Managed(h[i].target))
    decreases |h|
  {
    var e, before := h[|h| - 1], h[..|h| - 1];
    if i < |before| {
      FittingCallsGoHome(hasScaler, k, if e.Called? && e.ok then !scaled else scaled, before, i);
    }
  }

  /** In every run in which whoever looks runtime k up asks for at least one replica, its successful calls
      go up, down, up, down; so the backend is running exactly when scaled. */
  lemma CallsAlternate(hasScaler: bool, steps: seq<Step>, k: string)
    requires PositiveFor(steps, k) && k in Run(hasScaler, steps).runtimes
    ensures var r := Run(hasScaler, steps).runtimes[k];
            Alternating(Successes(r.history)) && (r.scaled <==> Backend(r.history) > 0) && Backend(r.history) >= 0
  {
    forall w, s: Step | PositiveAt(w, k) && (s.Lookup? ==> TicketPositive(Ticket(s.identity, s.service), k))
      ensures PositiveAt(Apply(w, s), k)
    {
      PositiveStep(w, s, k);
    }
    Invariance(Apply, Start(hasScaler), steps, w => PositiveAt(w, k),
               (w, s: Step) => s.Lookup? ==> TicketPositive(Ticket(s.identity, s.service), k));
    EveryRunKeeps(hasScaler, steps);
    var w := Run(hasScaler, steps);
    assert Located(w, k);
    FittingCallsAlternate(w.hasScaler, k, w.runtimes[k].scaled, w.runtimes[k].history);
  }

  /** In every run, a call to a target goes through the runtime of its key and never without a scaler;
      and if the target has no NUL in its parts, that runtime calls nothing else. */
  lemma CallsGoHome(hasScaler: bool, steps: seq<Step>, k: string, i: nat, t: Target)
    requires k in Run(hasScaler, steps).runtimes && i < |Run(hasScaler, steps).runtimes[k].history|
    requires Run(hasScaler, steps).runtimes[k].history[i].Called?
    ensures var target := Run(hasScaler, steps).runtimes[k].history[i].target;
            && hasScaler && k == KeyOf(Managed(target))
            && (k == KeyOf(Managed(t)) && Clean(Managed(t)) ==> target == t)
  {
    EveryRunKeeps(hasScaler, steps);
    var w := Run(hasScaler, steps);
    assert Located(w, k);
    FittingCallsGoHome(hasScaler, k, w.runtimes[k].scaled, w.runtimes[k].history, i);
    TargetKeyIsUnique(t);
  }

  /** In every run the workload gauge counts the scaled runtimes, and the two connection gauges count the
      open connections of their types and add up to the active connections of all runtimes. */
  lemma GaugesAgree(hasScaler: bool, steps: seq<Step>)
    ensures var w := Run(hasScaler, steps);
            && w.gauges.workloads == |set k | k in w.runtimes && w.runtimes[k].scaled|
            && w.gauges.staticOpen == Sum(Measures(w.runtimes, StaticOpen))
            && w.gauges.managedOpen == Sum(Measures(w.runtimes, ManagedOpen))
            && w.gauges.staticOpen + w.gauges.managedOpen == Sum(Measures(w.runtimes, Active))
  {
    EveryRunKeeps(hasScaler, steps);
    var w := Run(hasScaler, steps);
    assert forall k :: k in w.runtimes ==> Located(w, k);
    WorkloadGauge(w.runtimes, w.gauges.workloads);
    ConnectionGauges(w.runtimes, w.gauges);
  }

  lemma WorkloadGauge(m: map<string, Runtime>, gauge: int)
    requires Tallies(m, ScaledOne, gauge)
    ensures gauge == |set k | k in m && m[k].scaled|
  {
    var ones := Measures(m, ScaledOne);
    SumOfOnes(ones);
    assert (set k | k in ones && ones[k] == 1) == set k | k in m && m[k].scaled;
  }

  function Active(r: Runtime): int { r.active }

  lemma ConnectionGauges(m: map<string, Runtime>, g: Gauges)
    requires Total(m, g) && forall k :: k in m ==> Counted(m[k])
    ensures g.staticOpen + g.managedOpen == Sum(Measures(m, Active))
  {
    forall k | k in m ensures StaticOpen(m[k]) + ManagedOpen(m[k]) == m[k].active {
      BothTypes(m[k].open);
    }
    SumAdds(Measures(m, StaticOpen), Measures(m, ManagedOpen), Measures(m, Active));
  }

  /** In every run the active count is the number of open tracked connections, so the underflow
      guard of release never fails; active connections mean no stored timer; closing twice counts once. */
  lemma ConnectionsConserved(hasScaler: bool, steps: seq<Step>, k: string, c: nat)
    requires k in Run(hasScaler, steps).runtimes
    ensures var w := Run(hasScaler, steps);
            var r := w.runtimes[k];
            && r.active == |r.open|
            && (c in r.open ==> r.active > 0 && r.idleTimer.None?)
            && (var once := Apply(w, On(k, Closes(c))); Apply(once, On(k, Closes(c))) == once)
  {
    EveryRunKeeps(hasScaler, steps);
    assert Located(Run(hasScaler, steps), k);
    ClosingTwice(Run(hasScaler, steps), k, c);
  }

  lemma ClosingTwice(w: World, k: string, c: nat)
    requires k in w.runtimes
    ensures var once := Apply(w, On(k, Closes(c))); Apply(once, On(k, Closes(c))) == once
  {
    var once := Apply(w, On(k, Closes(c)));
    assert once.runtimes[k] == CloseSection(w.runtimes[k], w.gauges, c, w.now).0;
    assert c !in once.runtimes[k].open;
    assert once.runtimes[k := once.runtimes[k]] == once.runtimes;
  }

  /** If every Stop beats its callback, at most one idle timer is pending, it is the stored one, it
      can only fire with nobody connected and the workload up, and every idle scale-down came at
      least the idle timeout of the grant opened last before the emptying release after that release,
      with no Open in between. */
  lemma IdlePeriodHonoured(hasScaler: bool, steps: seq<Step>, k: string)
    requires EveryStopWins(hasScaler, steps, k) && k in Run(hasScaler, steps).runtimes
    ensures var r := Run(hasScaler, steps).runtimes[k];
            && (forall id :: id in r.timers ==> r.idleTimer == Some(id) && r.open == map[] && r.scaled)
            && (forall i :: 0 <= i < |r.history| && r.history[i].Called? && r.history[i].cause.IdleTimer? ==>
                  FullyRested(r.history, i))
  {
    RunsArePrompt(hasScaler, steps, k);
    RunsAreGranted(hasScaler, steps, k);
    var w := Run(hasScaler, steps);
    assert Located(w, k) && Prompt(w.runtimes[k]);
    var h := w.runtimes[k].history;
    forall i | 0 <= i < |h| && h[i].Called? && h[i].cause.IdleTimer? ensures FullyRested(h, i) {
      assert Rested(h, i);
      var j :| RestedSince(h, i, j);
      assert DelayFits(h, j);
    }
  }

  /** The call at i follows the release that armed its timer by the idle timeout granted by then, with
      no Open between. */
  ghost predicate FullyRested(h: seq<Event>, i: nat)
    requires i < |h| && h[i].Called? && h[i].cause.IdleTimer?
  {
    exists j :: RestedSince(h, i, j) && DelayFits(h, j)
  }

  /** The callback waits for the mutex and, once it has it, will issue a scale-to-zero call. */
  predicate CanScaleDown(r: Runtime, id: nat) {
    id in r.timers && r.timers[id].started && r.scaled && r.active == 0
  }

  /** h adds that call, by the callback id, to the history of r. */
  ghost predicate FiresInto(r: Runtime, id: nat, h: seq<Event>) {
    var n := |r.history|;
    |h| == n + 1 && h[..n] == r.history && h[n].Called? && h[n].cause == IdleTimer(id) && h[n].replicas == 0
  }

  /** The history of runtime k after its callback id has run. */
  function AfterFiring(w: World, k: string, id: nat, ok: bool): seq<Event>
    requires k in w.runtimes
  {
    Act(w.hasScaler, w.now, w.runtimes[k], w.gauges, Fires(id, ok)).0.history
  }

  /** In every run, Shutdown included, a stored callback that scales down ends a full, uninterrupted
      idle period. */
  lemma StoredMeansRested(hasScaler: bool, steps: seq<Step>, k: string, id: nat, ok: bool)
    requires k in Run(hasScaler, steps).runtimes && CanScaleDown(Run(hasScaler, steps).runtimes[k], id)
    requires Run(hasScaler, steps).runtimes[k].idleTimer == Some(id)
    ensures var w := Run(hasScaler, steps);
            var h, r := AfterFiring(w, k, id, ok), w.runtimes[k];
            && Moved(w, On(k, Fires(id, ok)), k) && FiresInto(r, id, h)
            && RestedSince(h, |r.history|, r.timers[id].armed) && DelayFits(r.history, r.timers[id].armed)
  {
    EveryRunKeeps(hasScaler, steps);
    RunsAreGranted(hasScaler, steps, k);
    var w := Run(hasScaler, steps);
    assert Located(w, k);
    assert TimerFits(w.now, w.runtimes[k], id);
    OnMoves(w, k, Fires(id, ok), k);
    FiringRests(hasScaler, w.now, k, w.runtimes[k], w.gauges, id, ok);
  }

  /** Without a Shutdown of the runtime, a callback that is about to scale down ends an idle period of its
      own full length exactly when it is still the stored timer, a comparison the callback does not make. */
  lemma RestedExactlyWhenStored(hasScaler: bool, steps: seq<Step>, k: string, id: nat, ok: bool)
    requires NoShutdowns(steps, k) && k in Run(hasScaler, steps).runtimes
    requires CanScaleDown(Run(hasScaler, steps).runtimes[k], id)
    ensures var w := Run(hasScaler, steps);
            var h, r := AfterFiring(w, k, id, ok), w.runtimes[k];
            && Moved(w, On(k, Fires(id, ok)), k) && FiresInto(r, id, h)
            && (RestedSince(h, |r.history|, r.timers[id].armed) <==> r.idleTimer == Some(id))
  {
    RunsAreCalm(hasScaler, steps, k);
    var w := Run(hasScaler, steps);
    assert Located(w, k) && Calm(w.runtimes[k]);
    OnMoves(w, k, Fires(id, ok), k);
    FiringRests(hasScaler, w.now, k, w.runtimes[k], w.gauges, id, ok);
  }

  /** The call rests exactly when nobody has opened since the timer was armed. */
  lemma FiringRests(hasScaler: bool, now: int, k: string, r: Runtime, g: Gauges, id: nat, ok: bool)
    requires RuntimeInv(hasScaler, now, k, r) && CanScaleDown(r, id)
    ensures var h := Act(hasScaler, now, r, g, Fires(id, ok)).0.history;
            && FiresInto(r, id, h)
            && (RestedSince(h, |r.history|, r.timers[id].armed) <==> NoOpenSince(r.history, r.timers[id].armed))
  {
    assert TimerFits(now, r, id);
    var h, n := IdleSection(r, g, id, ok, now).0.history, |r.history|;
    assert h[..n] == r.history;
  }

  // ----- Runtimes are never replaced -----

  /** The same runtime, later. */
  ghost predicate Persists(r: Runtime, r': Runtime) {
    r.history <= r'.history && r.nextConnection <= r'.nextConnection && r.nextTimer <= r'.nextTimer
  }

  lemma ProceedPersists(hasScaler: bool, now: int, r: Runtime, g: Gauges, service: Service, a: Answers)
    requires service.workload.Some? ==> r.workload == service.workload
    ensures Persists(r, Proceed(r, g, hasScaler, service, now, a).runtime)
  {
  }

  lemma ActPersists(hasScaler: bool, now: int, r: Runtime, g: Gauges, a: Action)
    ensures Persists(r, Act(hasScaler, now, r, g, a).0)
  {
    if a.Opens? {
      var entered := Enter(r, a.identity, a.service, now);
      assert entered.history == r.history + [Opened(now, a.service.workload)];
      ProceedPersists(hasScaler, now, entered, g, a.service, a.answers);
    }
  }

  ghost predicate Continues(w: World, w': World) {
    forall k :: k in w.runtimes ==> k in w'.runtimes && Persists(w.runtimes[k], w'.runtimes[k])
  }

  lemma ContinuesStep(start: World, w: World, s: Step)
    requires Continues(start, w)
    ensures Continues(start, Apply(w, s))
  {
    forall k | k in start.runtimes
      ensures k in Apply(w, s).runtimes && Persists(start.runtimes[k], Apply(w, s).runtimes[k])
    {
      Moves(w, s, k);
      var a := ActionOn(w, s, k);
      if a.Some? {
        ActPersists(w.hasScaler, w.now, w.runtimes[k], w.gauges, a.value);
      }
    }
  }

  /** A runtime found under a key after n steps is the one found there for the rest of the run: its
      history is only extended, and no connection or timer number is used again. */
  lemma RuntimesAreForever(hasScaler: bool, steps: seq<Step>, n: nat, k: string)
    requires n <= |steps| && k in Run(hasScaler, steps[..n]).runtimes
    ensures var w, w' := Run(hasScaler, steps[..n]), Run(hasScaler, steps);
            k in w'.runtimes && Persists(w.runtimes[k], w'.runtimes[k])
  {
    var w := Run(hasScaler, steps[..n]);
    FoldSplit(Apply, Start(hasScaler), steps, n);
    forall v, s | Continues(w, v) ensures Continues(w, Apply(v, s)) {
      ContinuesStep(w, v, s);
    }
    Invariance(Apply, w, steps[n..], v => Continues(w, v), (v, s) => true);
  }
}
