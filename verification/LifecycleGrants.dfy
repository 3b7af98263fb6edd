/** Which grant a runtime goes by: the workload it remembers and the idle timeouts it arms. */
module LifecycleGrants {
  import opened Prelude
  import opened Policy
  import opened Lifecycle
  import opened LifecycleProofs
  import opened LifecycleRuns
  import opened LifecycleSteps
  import opened Runs

  /** The workload of the last Open that had one. */
  function LastGrant(h: seq<Event>): Option<Workload> {
    if h == [] then None
    else if h[|h| - 1].Opened? && h[|h| - 1].grant.Some? then h[|h| - 1].grant
    else LastGrant(h[..|h| - 1])
  }

  /** The delay armed at j is the idle timeout granted by then. */
  ghost predicate DelayFits(h: seq<Event>, j: nat)
    requires j < |h| && h[j].Emptied?
  {
    LastGrant(h[..j]).Some? && h[j].delay == LastGrant(h[..j]).value.idleTimeout
  }

  ghost predicate Granted(r: Runtime) {
    r.workload == LastGrant(r.history) && DelaysFit(r.history)
  }

  ghost predicate DelaysFit(h: seq<Event>) {
    forall j :: 0 <= j < |h| && h[j].Emptied? ==> DelayFits(h, j)
  }

  lemma GrantAppended(h: seq<Event>, e: Event)
    ensures LastGrant(h + [e]) == if e.Opened? && e.grant.Some? then e.grant else LastGrant(h)
  {
    assert (h + [e])[..|h|] == h;
  }

  lemma DelaysAppended(h: seq<Event>, e: Event)
    requires DelaysFit(h)
    requires e.Emptied? ==> LastGrant(h).Some? && e.delay == LastGrant(h).value.idleTimeout
    ensures DelaysFit(h + [e])
  {
    var h' := h + [e];
    forall j | 0 <= j < |h'| && h'[j].Emptied? ensures DelayFits(h', j) {
      if j < |h| {
        assert h'[..j] == h[..j] && DelayFits(h, j);
      } else {
        assert h'[..j] == h;
      }
    }
  }

  /** Appending one event to the history. */
  lemma EventGranted(r: Runtime, r': Runtime, e: Event)
    requires Granted(r) && r'.history == r.history + [e]
    requires r'.workload == if e.Opened? && e.grant.Some? then e.grant else r.workload
    requires e.Emptied? ==> r.workload.Some? && e.delay == r.workload.value.idleTimeout
    ensures Granted(r')
  {
    GrantAppended(r.history, e);
    DelaysAppended(r.history, e);
  }

  lemma DialGranted(r: Runtime, g: Gauges, service: Service, now: int, a: Answers)
    requires Granted(r)
    ensures Granted(Dial(r, g, service, now, a).runtime)
  {
    if !a.dialOk && service.workload.Some? && r.active == 0 {
      EventGranted(r, Dial(r, g, service, now, a).runtime,
                   Called(now, TargetOf(service.workload.value), 0, a.downOk, FailedDial));
    }
  }

  lemma OpenGranted(r: Runtime, g: Gauges, hasScaler: bool, identity: string, service: Service, now: int, a: Answers)
    requires Granted(r)
    ensures Granted(OpenSection(r, g, hasScaler, identity, service, now, a).runtime)
  {
    var entered := Enter(r, identity, service, now);
    EventGranted(r, entered, Opened(now, service.workload));
    if service.workload.Some? && !entered.scaled {
      if hasScaler {
        var w := service.workload.value;
        var called := Call(entered, w, w.replicas, a.upOk, FirstOpen, now).(scaled := a.upOk);
        EventGranted(entered, called, Called(now, TargetOf(w), w.replicas, a.upOk, FirstOpen));
        DialGranted(called, g.(workloads := g.workloads + 1), service, now, a);
      }
    } else {
      DialGranted(entered, g, service, now, a);
    }
  }

  lemma CloseGranted(r: Runtime, g: Gauges, c: nat, now: int)
    requires Granted(r)
    ensures Granted(CloseSection(r, g, c, now).0)
  {
    var r' := CloseSection(r, g, c, now).0;
    if r'.history != r.history {
      EventGranted(r, r', r'.history[|r.history|]);
    }
  }

  lemma ActGranted(hasScaler: bool, now: int, r: Runtime, g: Gauges, a: Action)
    requires Granted(r)
    ensures Granted(Act(hasScaler, now, r, g, a).0)
  {
    match a
    case Opens(identity, service, answers) => OpenGranted(r, g, hasScaler, identity, service, now, answers);
    case Closes(c) => CloseGranted(r, g, c, now);
    case Expires(_) =>
    case Fires(id, ok) =>
      var r' := Act(hasScaler, now, r, g, a).0;
      if r'.history != r.history {
        EventGranted(r, r', Called(now, TargetOf(r.workload.value), 0, ok, IdleTimer(id)));
      }
    case Stops(ok) =>
      var r' := Act(hasScaler, now, r, g, a).0;
      if r'.history != r.history {
        EventGranted(r, r', Called(now, TargetOf(r.workload.value), 0, ok, Stopping));
      }
  }

  ghost predicate GrantedAt(w: World, k: string) {
    k in w.runtimes ==> Granted(w.runtimes[k])
  }

  lemma GrantedStep(w: World, s: Step, k: string)
    requires GrantedAt(w, k)
    ensures GrantedAt(Apply(w, s), k)
  {
    if k in w.runtimes {
      Moves(w, s, k);
      var a := ActionOn(w, s, k);
      if a.Some? {
        ActGranted(w.hasScaler, w.now, w.runtimes[k], w.gauges, a.value);
      }
    } else if k in Apply(w, s).runtimes {
      Appears(w, s, k);
    }
  }

  /** In every run a runtime remembers the workload of the last Open that had one, and every idle timer
      it armed was for the idle timeout it remembered then. */
  lemma RunsAreGranted(hasScaler: bool, steps: seq<Step>, k: string)
    requires k in Run(hasScaler, steps).runtimes
    ensures Granted(Run(hasScaler, steps).runtimes[k])
  {
    forall w, s | GrantedAt(w, k) ensures GrantedAt(Apply(w, s), k) {
      GrantedStep(w, s, k);
    }
    Invariance(Apply, Start(hasScaler), steps, w => GrantedAt(w, k), (w, s) => true);
  }
}
