/** What one step does to its runtime in a reachable state: its events, and every field it leaves. */
module LifecycleTraces {
  import opened Prelude
  import opened Policy
  import opened Lifecycle
  import opened LifecycleProofs
  import opened LifecycleRuns
  import opened LifecycleSteps
  import opened Text

  // ----- Runtime keys -----

  /** Two grants free of NUL share a runtime exactly when both scale one target, or neither scales and
      they are one alias of one identity. */
  lemma SharedKeyExactly(i: string, s: Service, j: string, t: Service)
    requires Clean(OwnerOf(i, s)) && Clean(OwnerOf(j, t))
    ensures RuntimeKey(i, s) == RuntimeKey(j, t) <==>
            if s.workload.Some? && t.workload.Some? then
              && s.workload.value.kind == t.workload.value.kind
              && s.workload.value.namespace == t.workload.value.namespace
              && s.workload.value.name == t.workload.value.name
            else s.workload.None? && t.workload.None? && i == j && s.name == t.name
  {
    if s.workload.Some? && t.workload.Some? {
      TargetKeyIsUnique(TargetOf(s.workload.value));
    } else if s.workload.None? && t.workload.None? {
      AliasKeyIsUnique(i, s.name);
    } else if s.workload.None? {
      CleanIsApart(i, s);
    } else {
      CleanIsApart(j, t);
    }
  }

  // ----- Looking up -----

  /** A lookup hands the client its grant and leaves every runtime as it is; the one of the grant's key
      is there afterwards, and idle if it is new. */
  lemma LookupTrace(w: World, c: nat, identity: string, service: Service)
    requires c !in w.waiting
    ensures var k, w' := RuntimeKey(identity, service), Apply(w, Lookup(c, identity, service));
            && w'.waiting == w.waiting[c := Ticket(identity, service)] && k in w'.runtimes
            && (forall j :: j in w'.runtimes <==> j in w.runtimes || j == k)
            && (forall j :: j in w.runtimes ==> w'.runtimes[j] == w.runtimes[j])
            && (k !in w.runtimes ==>
                  var r := w'.runtimes[k];
                  r.open == map[] && r.active == 0 && !r.scaled && r.workload.None? && r.timers == map[] && r.history == [])
            && w'.gauges == w.gauges && w'.now == w.now
  {
  }

  // ----- Opening -----

  /** After the scale-up, if one was needed, the workload is up; a service without one needs none. */
  predicate IsUp(hasScaler: bool, r: Runtime, service: Service, a: Answers) {
    service.workload.Some? ==> r.scaled || (hasScaler && a.upOk)
  }

  predicate Connects(hasScaler: bool, r: Runtime, service: Service, a: Answers) {
    IsUp(hasScaler, r, service, a) && a.dialOk
  }

  /** A failed dial to a workload nobody is connected to takes it down again. */
  predicate TakesDown(hasScaler: bool, r: Runtime, service: Service, a: Answers) {
    service.workload.Some? && IsUp(hasScaler, r, service, a) && !a.dialOk && r.open == map[]
  }

  /** A call that sets the replicas of a workload to zero. */
  function DownTo(now: int, w: Workload, ok: bool, cause: Cause): Event {
    Called(now, Target(w.kind, w.namespace, w.name), 0, ok, cause)
  }

  function UpCall(hasScaler: bool, r: Runtime, service: Service, now: int, a: Answers): seq<Event> {
    if service.workload.None? || r.scaled || !hasScaler then []
    else
      var w := service.workload.value;
      [Called(now, Target(w.kind, w.namespace, w.name), w.replicas, a.upOk, FirstOpen)]
  }

  function DownCall(hasScaler: bool, r: Runtime, service: Service, now: int, a: Answers): seq<Event> {
    if !TakesDown(hasScaler, r, service, a) then []
    else [DownTo(now, service.workload.value, a.downOk, FailedDial)]
  }

  ghost predicate AnsweredRightly(hasScaler: bool, r: Runtime, service: Service, a: Answers, result: OpenResult) {
    && (result.Connected? <==> Connects(hasScaler, r, service, a))
    && (result.Connected? ==> result.connection == r.nextConnection && result.connection !in r.open)
    && (result == ScalerUnavailable <==> service.workload.Some? && !r.scaled && !hasScaler)
    && (result == ScaleFailed <==> service.workload.Some? && !r.scaled && hasScaler && !a.upOk)
    && (result == DialFailed <==> IsUp(hasScaler, r, service, a) && !a.dialOk)
  }

  /** The timers that are left when the stored one is stopped: a callback that has started stays. */
  ghost predicate Stopped(r: Runtime, r': Runtime) {
    && r'.idleTimer.None?
    && (forall id :: id in r.timers ==> (id in r'.timers <==> (r.idleTimer == Some(id) ==> r.timers[id].started)))
    && (forall id :: id in r'.timers ==> id in r.timers && r'.timers[id] == r.timers[id])
  }

  ghost predicate OpensTo(hasScaler: bool, now: int, r: Runtime, identity: string, service: Service, a: Answers,
                          r': Runtime) {
    && r'.history == r.history + [Opened(now, service.workload)] + UpCall(hasScaler, r, service, now, a) +
                     DownCall(hasScaler, r, service, now, a)
    && r'.open == (if Connects(hasScaler, r, service, a)
                   then r.open[r.nextConnection := if service.workload.Some? then ManagedType else StaticType]
                   else r.open)
    && r'.workload == (if service.workload.Some? then service.workload else r.workload)
    && r'.labelText == identity + "/" + service.name
    && r'.scaled == (if service.workload.None? then r.scaled
                     else IsUp(hasScaler, r, service, a) && !(TakesDown(hasScaler, r, service, a) && a.downOk))
    && Stopped(r, r')
  }

  lemma EnterTrace(hasScaler: bool, now: int, k: string, r: Runtime, identity: string, service: Service)
    requires RuntimeInv(hasScaler, now, k, r)
    ensures var r' := Enter(r, identity, service, now);
            && r'.history == r.history + [Opened(now, service.workload)] && Stopped(r, r')
            && r'.open == r.open && r'.active == |r.open| && r'.scaled == r.scaled
            && r'.nextConnection == r.nextConnection
            && r'.labelText == identity + "/" + service.name
            && r'.workload == if service.workload.Some? then service.workload else r.workload
  {
  }

  lemma ProceedTrace(hasScaler: bool, now: int, r: Runtime, g: Gauges, service: Service, a: Answers)
    requires Counted(r) && (service.workload.Some? ==> r.workload == service.workload)
    ensures var o := Proceed(r, g, hasScaler, service, now, a);
            && AnsweredRightly(hasScaler, r, service, a, o.result)
            && o.runtime.history == r.history + UpCall(hasScaler, r, service, now, a) +
                                    DownCall(hasScaler, r, service, now, a)
  {
    assert r.active == 0 <==> r.open == map[];
  }

  lemma ProceedState(hasScaler: bool, now: int, r: Runtime, g: Gauges, service: Service, a: Answers)
    requires Counted(r) && (service.workload.Some? ==> r.workload == service.workload)
    ensures var r' := Proceed(r, g, hasScaler, service, now, a).runtime;
            && r'.open == (if Connects(hasScaler, r, service, a)
                           then r.open[r.nextConnection := if service.workload.Some? then ManagedType else StaticType]
                           else r.open)
            && r'.scaled == (if service.workload.None? then r.scaled
                             else IsUp(hasScaler, r, service, a) && !(TakesDown(hasScaler, r, service, a) && a.downOk))
            && r'.workload == r.workload && r'.labelText == r.labelText
            && r'.idleTimer == r.idleTimer && r'.timers == r.timers
  {
    assert r.active == 0 <==> r.open == map[];
  }

  /** In every reachable state, an Open connects exactly when its workload is or comes up and the dial
      succeeds, names the first obstacle otherwise, makes exactly the scaler calls it should, and leaves
      the runtime of its service, and no other, as it should. */
  lemma OpenTrace(hasScaler: bool, steps: seq<Step>, c: nat, a: Answers)
    requires c in Run(hasScaler, steps).waiting
    ensures var w := Run(hasScaler, steps);
            var Ticket(identity, service) := w.waiting[c];
            var k, w' := RuntimeKey(identity, service), Apply(w, Open(c, a));
            && k in w.runtimes && w'.waiting == w.waiting - {c} && w'.runtimes == w.runtimes[k := w'.runtimes[k]]
            && OpensTo(hasScaler, w.now, w.runtimes[k], identity, service, a, w'.runtimes[k])
            && var o := OpenSection(w.runtimes[k], w.gauges, hasScaler, identity, service, w.now, a);
               o.runtime == w'.runtimes[k] && AnsweredRightly(hasScaler, w.runtimes[k], service, a, o.result)
  {
    EveryRunKeeps(hasScaler, steps);
    var w := Run(hasScaler, steps);
    var Ticket(identity, service) := w.waiting[c];
    var k := RuntimeKey(identity, service);
    assert TicketFits(w, c) && Located(w, k);
    OpenMoves(w, c, a, k);
    SectionTrace(hasScaler, w.now, k, w.runtimes[k], w.gauges, identity, service, a);
  }

  lemma SectionTrace(hasScaler: bool, now: int, k: string, r: Runtime, g: Gauges, identity: string, service: Service,
                     a: Answers)
    requires RuntimeInv(hasScaler, now, k, r)
    ensures var o := OpenSection(r, g, hasScaler, identity, service, now, a);
            && OpensTo(hasScaler, now, r, identity, service, a, o.runtime)
            && AnsweredRightly(hasScaler, r, service, a, o.result)
  {
    var entered := Enter(r, identity, service, now);
    EnterTrace(hasScaler, now, k, r, identity, service);
    ProceedTrace(hasScaler, now, entered, g, service, a);
    ProceedState(hasScaler, now, entered, g, service, a);
  }

  // ----- Closing -----

  /** Closing the only open connection of a running workload. */
  predicate Empties(r: Runtime, c: nat) {
    c in r.open && |r.open| == 1 && r.scaled
  }

  ghost predicate ClosesTo(now: int, r: Runtime, c: nat, r': Runtime) {
    && r'.open == r.open - {c}
    && r'.workload == r.workload && r'.scaled == r.scaled && r'.labelText == r.labelText
    && (if Empties(r, c) then
          && r.workload.Some? && r.nextTimer !in r.timers
          && r'.history == r.history + [Emptied(now, r.workload.value.idleTimeout, r.nextTimer)]
          && r'.timers == r.timers[r.nextTimer := Timer(now + r.workload.value.idleTimeout, false, |r.history|)]
          && r'.idleTimer == Some(r.nextTimer)
        else r'.history == r.history && r'.timers == r.timers && r'.idleTimer == r.idleTimer)
  }

  lemma ClosesRightly(now: int, r: Runtime, g: Gauges, c: nat)
    requires r.active == |r.open| && r.nextTimer !in r.timers
    ensures ClosesTo(now, r, c, CloseSection(r, g, c, now).0)
  {
    if c !in r.open {
      assert r.open - {c} == r.open;
    }
  }

  lemma NextIsNew(hasScaler: bool, now: int, k: string, r: Runtime)
    requires RuntimeInv(hasScaler, now, k, r)
    ensures r.nextTimer !in r.timers
  {
    assert r.nextTimer in r.timers ==> TimerFits(now, r, r.nextTimer);
  }

  /** In every reachable state, closing a connection takes it out of the open ones, and arms and stores a
      new timer for the remembered idle timeout exactly when it was the last one of a running workload. */
  lemma CloseTrace(hasScaler: bool, steps: seq<Step>, k: string, c: nat)
    requires k in Run(hasScaler, steps).runtimes
    ensures var w := Run(hasScaler, steps);
            var w' := Apply(w, On(k, Closes(c)));
            k in w'.runtimes && w'.runtimes == w.runtimes[k := w'.runtimes[k]] &&
            ClosesTo(w.now, w.runtimes[k], c, w'.runtimes[k])
  {
    EveryRunKeeps(hasScaler, steps);
    var w := Run(hasScaler, steps);
    assert Located(w, k);
    OnMoves(w, k, Closes(c), k);
    NextIsNew(hasScaler, w.now, k, w.runtimes[k]);
    ClosesRightly(w.now, w.runtimes[k], w.gauges, c);
  }

  // ----- Timers -----

  ghost predicate FiresTo(now: int, r: Runtime, id: nat, ok: bool, r': Runtime) {
    && r'.open == r.open && r'.workload == r.workload && r'.labelText == r.labelText && r'.timers == r.timers - {id}
    && (if r.open == map[] && r.scaled then
          && r.workload.Some? && r'.history == r.history + [DownTo(now, r.workload.value, ok, IdleTimer(id))]
          && r'.scaled == !ok && r'.idleTimer == (if ok then None else r.idleTimer)
        else r'.history == r.history && r'.scaled == r.scaled && r'.idleTimer == r.idleTimer)
  }

  /** In every reachable state, a callback starts to wait for the lock once its time has passed, and not before. */
  lemma ExpireTrace(hasScaler: bool, steps: seq<Step>, k: string, id: nat)
    requires k in Run(hasScaler, steps).runtimes && id in Run(hasScaler, steps).runtimes[k].timers
    ensures var w := Run(hasScaler, steps);
            var r, t, w' := w.runtimes[k], w.runtimes[k].timers[id], Apply(w, On(k, Expires(id)));
            && k in w'.runtimes
            && w'.runtimes[k] == if t.due <= w.now then r.(timers := r.timers[id := t.(started := true)]) else r
  {
    OnMoves(Run(hasScaler, steps), k, Expires(id), k);
  }

  /** In every reachable state, a started callback scales an idle, running workload down and does nothing
      else, and one that has not started does nothing. */
  lemma FireTrace(hasScaler: bool, steps: seq<Step>, k: string, id: nat, ok: bool)
    requires k in Run(hasScaler, steps).runtimes && id in Run(hasScaler, steps).runtimes[k].timers
    ensures var w := Run(hasScaler, steps);
            var r, w' := w.runtimes[k], Apply(w, On(k, Fires(id, ok)));
            && k in w'.runtimes
            && if r.timers[id].started then FiresTo(w.now, r, id, ok, w'.runtimes[k]) else w'.runtimes[k] == r
  {
    EveryRunKeeps(hasScaler, steps);
    var w := Run(hasScaler, steps);
    assert Located(w, k);
    OnMoves(w, k, Fires(id, ok), k);
    FiresRightly(hasScaler, w.now, k, w.runtimes[k], w.gauges, id, ok);
  }

  lemma FiresRightly(hasScaler: bool, now: int, k: string, r: Runtime, g: Gauges, id: nat, ok: bool)
    requires RuntimeInv(hasScaler, now, k, r)
    ensures FiresTo(now, r, id, ok, IdleSection(r, g, id, ok, now).0)
  {
    assert r.active == 0 <==> r.open == map[];
  }

  ghost predicate StopsTo(now: int, r: Runtime, ok: bool, r': Runtime) {
    && r'.open == r.open && r'.workload == r.workload && r'.labelText == r.labelText && Stopped(r, r')
    && (if r.scaled then
          && r.workload.Some? && r'.history == r.history + [DownTo(now, r.workload.value, ok, Stopping)]
          && r'.scaled == !ok
        else r'.history == r.history && !r'.scaled)
  }

  /** In every reachable state, Shutdown stops the stored timer of a runtime and scales it down if it runs. */
  lemma ShutdownTrace(hasScaler: bool, steps: seq<Step>, k: string, ok: bool)
    requires k in Run(hasScaler, steps).runtimes
    ensures var w := Run(hasScaler, steps);
            var w' := Apply(w, On(k, Stops(ok)));
            k in w'.runtimes && StopsTo(w.now, w.runtimes[k], ok, w'.runtimes[k])
  {
    OnMoves(Run(hasScaler, steps), k, Stops(ok), k);
    StopsRightly(Run(hasScaler, steps).runtimes[k], Run(hasScaler, steps).gauges, ok, Run(hasScaler, steps).now);
    EveryRunKeeps(hasScaler, steps);
  }

  lemma StopsRightly(r: Runtime, g: Gauges, ok: bool, now: int)
    ensures StopsTo(now, r, ok, ShutdownSection(r, g, ok, now).0)
  {
  }
}
