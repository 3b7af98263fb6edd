/** What every critical section of the lifecycle gateway keeps. */
module LifecycleProofs {
  import opened Prelude
  import opened Policy
  import opened Lifecycle

  // ----- Readings of a history -----

  /** Replica counts of the successful scaler calls, oldest first. */
  function Successes(h: seq<Event>): seq<int> {
    if h == [] then []
    else
      var e := h[|h| - 1];
      Successes(h[..|h| - 1]) + if e.Called? && e.ok then [e.replicas] else []
  }

  function LastCall(h: seq<Event>): Option<Event> {
    if h == [] then None
    else if h[|h| - 1].Called? then Some(h[|h| - 1])
    else LastCall(h[..|h| - 1])
  }

  /** The replica count of a backend that starts at zero and ignores failed calls. */
  function Backend(h: seq<Event>): int {
    var s := Successes(h);
    if s == [] then 0 else s[|s| - 1]
  }

  ghost predicate Alternating(s: seq<int>) {
    forall i :: 0 <= i < |s| ==> if i % 2 == 0 then s[i] > 0 else s[i] == 0
  }

  predicate FailedDown(e: Option<Event>) {
    e.Some? && e.value.Called? && !e.value.ok && e.value.replicas == 0 && !e.value.cause.FirstOpen?
  }

  ghost predicate NoOpenSince(h: seq<Event>, i: int) {
    forall j :: 0 <= j < |h| && i < j ==> !h[j].Opened?
  }

  lemma LastCallAppended(h: seq<Event>, e: Event)
    ensures LastCall(h + [e]) == if e.Called? then Some(e) else LastCall(h)
  {
    assert (h + [e])[..|h|] == h;
  }

  // ----- Open connections by type -----

  function OfType(open: map<nat, ServiceType>, t: ServiceType): set<nat> {
    set c | c in open && open[c] == t
  }

  /** How many open connections are of one type. */
  function OpenOf(open: map<nat, ServiceType>, t: ServiceType): int { |OfType(open, t)| }

  lemma OpensOne(open: map<nat, ServiceType>, c: nat, t: ServiceType, u: ServiceType)
    requires c !in open
    ensures OpenOf(open[c := t], u) == OpenOf(open, u) + if t == u then 1 else 0
  {
    assert OfType(open[c := t], u) == if t == u then OfType(open, u) + {c} else OfType(open, u);
  }

  lemma ClosesOne(open: map<nat, ServiceType>, c: nat, u: ServiceType)
    requires c in open
    ensures OpenOf(open - {c}, u) == OpenOf(open, u) - if open[c] == u then 1 else 0
  {
    OpensOne(open - {c}, c, open[c], u);
    assert (open - {c})[c := open[c]] == open;
  }

  /** Every connection is of one of the two types. */
  lemma BothTypes(open: map<nat, ServiceType>)
    ensures OpenOf(open, StaticType) + OpenOf(open, ManagedType) == |open|
  {
    var a, b := OfType(open, StaticType), OfType(open, ManagedType);
    assert a + b == open.Keys && a * b == {};
    assert |open| == |open.Keys|;
  }

  // ----- The invariant of one runtime, stored under its key -----

  ghost predicate Counted(r: Runtime) {
    r.active == |r.open| && forall c :: c in r.open ==> c < r.nextConnection
  }

  ghost predicate Matched(hasScaler: bool, k: string, r: Runtime) {
    && (r.workload.Some? ==> k == KeyOf(Managed(TargetOf(r.workload.value))))
    && (r.scaled ==> hasScaler)
    && (r.idleTimer.Some? ==> r.active == 0 && r.scaled && r.idleTimer.value < r.nextTimer)
  }

  /** A call up is made only when down, and a call to zero only when up; a failed call changes nothing. */
  ghost predicate CallFits(hasScaler: bool, k: string, scaled: bool, e: Event)
    requires e.Called?
  {
    && hasScaler && k == KeyOf(Managed(e.target))
    && (e.cause.FirstOpen? <==> if e.ok then scaled else !scaled)
    && (!e.cause.FirstOpen? ==> e.replicas == 0)
  }

  /** The calls of a history go to a target of this key and through a scaler, and the successful
      ones alternate up and down so that the last was up exactly when scaled. */
  ghost predicate CallsFit(hasScaler: bool, k: string, scaled: bool, h: seq<Event>)
    decreases |h|
  {
    if h == [] then !scaled
    else
      var e, before := h[|h| - 1], h[..|h| - 1];
      if !e.Called? then CallsFit(hasScaler, k, scaled, before)
      else CallFits(hasScaler, k, scaled, e) && CallsFit(hasScaler, k, if e.ok then !scaled else scaled, before)
  }

  lemma CallsAppended(hasScaler: bool, k: string, scaled: bool, h: seq<Event>, e: Event)
    ensures CallsFit(hasScaler, k, scaled, h + [e]) ==
            if !e.Called? then CallsFit(hasScaler, k, scaled, h)
            else CallFits(hasScaler, k, scaled, e) && CallsFit(hasScaler, k, if e.ok then !scaled else scaled, h)
  {
    assert (h + [e])[..|h|] == h;
  }

  ghost predicate TimersFit(now: int, r: Runtime) {
    && (forall id :: id in r.timers ==> TimerFits(now, r, id))
    && (r.idleTimer.Some? && r.idleTimer.value in r.timers ==>
          NoOpenSince(r.history, r.timers[r.idleTimer.value].armed))
  }

  ghost predicate TimerFits(now: int, r: Runtime, id: nat)
    requires id in r.timers
  {
    var t := r.timers[id];
    && id < r.nextTimer
    && t.armed < |r.history|
    && r.history[t.armed].Emptied?
    && r.history[t.armed].timer == id
    && t.due == r.history[t.armed].at + r.history[t.armed].delay
    && (t.started ==> t.due <= now)
  }

  ghost predicate RuntimeInv(hasScaler: bool, now: int, k: string, r: Runtime) {
    Counted(r) && Matched(hasScaler, k, r) && CallsFit(hasScaler, k, r.scaled, r.history) && TimersFit(now, r)
  }

  /** What one runtime adds to each gauge. */
  function StaticOpen(r: Runtime): int { OpenOf(r.open, StaticType) }
  function ManagedOpen(r: Runtime): int { OpenOf(r.open, ManagedType) }
  function ScaledOne(r: Runtime): int { if r.scaled then 1 else 0 }

  function Contribution(r: Runtime): Gauges {
    Gauges(StaticOpen(r), ManagedOpen(r), ScaledOne(r))
  }

  function Plus(a: Gauges, b: Gauges): Gauges {
    Gauges(a.staticOpen + b.staticOpen, a.managedOpen + b.managedOpen, a.workloads + b.workloads)
  }

  function Minus(a: Gauges, b: Gauges): Gauges {
    Gauges(a.staticOpen - b.staticOpen, a.managedOpen - b.managedOpen, a.workloads - b.workloads)
  }

  /** A section moves the gauges by what it moved of the runtime. */
  ghost predicate Balanced(r: Runtime, g: Gauges, r': Runtime, g': Gauges) {
    g' == Minus(Plus(g, Contribution(r')), Contribution(r))
  }

  /** What a section must establish of the runtime and gauges it leaves. */
  ghost predicate Kept(hasScaler: bool, now: int, k: string, r: Runtime, g: Gauges, after: (Runtime, Gauges)) {
    RuntimeInv(hasScaler, now, k, after.0) && Balanced(r, g, after.0, after.1)
  }

  // ----- Every section keeps it -----

  lemma StopKeeps(hasScaler: bool, now: int, k: string, r: Runtime)
    requires RuntimeInv(hasScaler, now, k, r)
    ensures RuntimeInv(hasScaler, now, k, StopTimer(r)) && StopTimer(r).idleTimer.None?
  {
    forall id | id in StopTimer(r).timers ensures TimerFits(now, StopTimer(r), id) {
      assert TimerFits(now, r, id);
    }
  }

  /** Appending one event: a call flips scaled exactly when it succeeds. */
  lemma LoggedKeeps(hasScaler: bool, now: int, k: string, r: Runtime, r': Runtime, e: Event)
    requires RuntimeInv(hasScaler, now, k, r)
    requires r' == r.(history := r.history + [e], scaled := r'.scaled, workload := r'.workload,
                      labelText := r'.labelText)
    requires r'.workload.Some? ==> k == KeyOf(Managed(TargetOf(r'.workload.value)))
    requires e.Called? ==> CallFits(hasScaler, k, r'.scaled, e)
    requires r'.scaled == if e.Called? && e.ok then !r.scaled else r.scaled
    requires r.idleTimer.None? || (!e.Opened? && r'.scaled)
    ensures RuntimeInv(hasScaler, now, k, r')
  {
    CallsAppended(hasScaler, k, r'.scaled, r.history, e);
    forall id | id in r'.timers ensures TimerFits(now, r', id) {
      assert TimerFits(now, r, id);
    }
  }

  lemma DownKeeps(hasScaler: bool, k: string, r: Runtime, g: Gauges, ok: bool, cause: Cause, now: int)
    requires RuntimeInv(hasScaler, now, k, r) && r.scaled && (r.idleTimer.None? || !ok) && !cause.FirstOpen?
    ensures Kept(hasScaler, now, k, r, g, ScaleDown(r, g, r.workload.value, ok, cause, now))
  {
    var e := Called(now, TargetOf(r.workload.value), 0, ok, cause);
    LoggedKeeps(hasScaler, now, k, r, ScaleDown(r, g, r.workload.value, ok, cause, now).0, e);
  }

  lemma DialKeeps(hasScaler: bool, k: string, r: Runtime, g: Gauges, service: Service, now: int, a: Answers)
    requires RuntimeInv(hasScaler, now, k, r) && r.idleTimer.None?
    requires service.workload.Some? ==> r.scaled && r.workload == service.workload
    ensures var o := Dial(r, g, service, now, a); Kept(hasScaler, now, k, r, g, (o.runtime, o.gauges))
  {
    if a.dialOk {
      OpensOne(r.open, r.nextConnection, TypeOf(service), StaticType);
      OpensOne(r.open, r.nextConnection, TypeOf(service), ManagedType);
    } else if service.workload.Some? && r.active == 0 {
      DownKeeps(hasScaler, k, r, g, a.downOk, FailedDial, now);
    }
  }

  lemma EnterKeeps(hasScaler: bool, k: string, r: Runtime, identity: string, service: Service, now: int)
    requires RuntimeInv(hasScaler, now, k, r) && k == RuntimeKey(identity, service)
    ensures var r' := Enter(r, identity, service, now);
            && RuntimeInv(hasScaler, now, k, r') && r'.idleTimer.None?
            && Contribution(r') == Contribution(r)
            && (service.workload.Some? ==> r'.workload == service.workload)
  {
    StopKeeps(hasScaler, now, k, r);
    LoggedKeeps(hasScaler, now, k, StopTimer(r), Enter(r, identity, service, now),
                Opened(now, service.workload));
  }

  /** A successful or failed scale-up. */
  lemma UpKeeps(hasScaler: bool, k: string, r: Runtime, w: Workload, ok: bool, now: int)
    requires RuntimeInv(hasScaler, now, k, r) && r.idleTimer.None? && hasScaler && !r.scaled && r.workload == Some(w)
    ensures RuntimeInv(hasScaler, now, k, Call(r, w, w.replicas, ok, FirstOpen, now).(scaled := ok))
  {
    LoggedKeeps(hasScaler, now, k, r, Call(r, w, w.replicas, ok, FirstOpen, now).(scaled := ok),
                Called(now, TargetOf(w), w.replicas, ok, FirstOpen));
  }

  lemma StartKeeps(hasScaler: bool, k: string, r: Runtime, g: Gauges, service: Service, now: int, a: Answers)
    requires RuntimeInv(hasScaler, now, k, r) && r.idleTimer.None? && hasScaler && !r.scaled
    requires service.workload.Some? && r.workload == service.workload && a.upOk
    ensures var o := Proceed(r, g, hasScaler, service, now, a);
            Kept(hasScaler, now, k, r, g, (o.runtime, o.gauges))
  {
    var w := service.workload.value;
    UpKeeps(hasScaler, k, r, w, true, now);
    var up := Call(r, w, w.replicas, true, FirstOpen, now).(scaled := true);
    DialKeeps(hasScaler, k, up, g.(workloads := g.workloads + 1), service, now, a);
    assert Balanced(r, g, up, g.(workloads := g.workloads + 1));
  }

  lemma ProceedKeeps(hasScaler: bool, k: string, r: Runtime, g: Gauges, service: Service, now: int, a: Answers)
    requires RuntimeInv(hasScaler, now, k, r) && r.idleTimer.None?
    requires service.workload.Some? ==> r.workload == service.workload
    ensures var o := Proceed(r, g, hasScaler, service, now, a);
            Kept(hasScaler, now, k, r, g, (o.runtime, o.gauges))
  {
    if service.workload.Some? && !r.scaled {
      if hasScaler && a.upOk {
        StartKeeps(hasScaler, k, r, g, service, now, a);
      } else if hasScaler {
        UpKeeps(hasScaler, k, r, service.workload.value, false, now);
      }
    } else {
      DialKeeps(hasScaler, k, r, g, service, now, a);
    }
  }

  lemma OpenKeeps(hasScaler: bool, k: string, r: Runtime, g: Gauges, identity: string, service: Service, now: int,
                  a: Answers)
    requires RuntimeInv(hasScaler, now, k, r) && k == RuntimeKey(identity, service)
    ensures var o := OpenSection(r, g, hasScaler, identity, service, now, a);
            Kept(hasScaler, now, k, r, g, (o.runtime, o.gauges))
  {
    EnterKeeps(hasScaler, k, r, identity, service, now);
    ProceedKeeps(hasScaler, k, Enter(r, identity, service, now), g, service, now, a);
  }

  lemma ArmKeeps(hasScaler: bool, k: string, r: Runtime, now: int)
    requires RuntimeInv(hasScaler, now, k, r) && r.scaled && r.active == 0 && r.idleTimer.None?
    ensures var id, delay := r.nextTimer, r.workload.value.idleTimeout;
            RuntimeInv(hasScaler, now, k,
                       r.(idleTimer := Some(id), nextTimer := id + 1,
                          timers := r.timers[id := Timer(now + delay, false, |r.history|)],
                          history := r.history + [Emptied(now, delay, id)]))
  {
    var id, delay := r.nextTimer, r.workload.value.idleTimeout;
    CallsAppended(hasScaler, k, r.scaled, r.history, Emptied(now, delay, id));
    var r' := r.(idleTimer := Some(id), nextTimer := id + 1,
                 timers := r.timers[id := Timer(now + delay, false, |r.history|)],
                 history := r.history + [Emptied(now, delay, id)]);
    forall i | i in r'.timers ensures TimerFits(now, r', i) {
      assert i != id ==> TimerFits(now, r, i);
    }
    assert id in r'.timers;
  }

  /** The runtime with one connection less, before any timer is armed. */
  function Less(r: Runtime, connection: nat): Runtime {
    r.(open := r.open - {connection}, active := r.active - 1)
  }

  lemma LessKeeps(hasScaler: bool, k: string, r: Runtime, g: Gauges, connection: nat, now: int)
    requires RuntimeInv(hasScaler, now, k, r) && connection in r.open
    ensures Kept(hasScaler, now, k, r, g, (Less(r, connection), Bump(g, r.open[connection], -1)))
  {
    ClosesOne(r.open, connection, StaticType);
    ClosesOne(r.open, connection, ManagedType);
    var less := Less(r, connection);
    forall id | id in less.timers ensures TimerFits(now, less, id) {
      assert TimerFits(now, r, id);
    }
  }

  lemma CloseKeeps(hasScaler: bool, k: string, r: Runtime, g: Gauges, connection: nat, now: int)
    requires RuntimeInv(hasScaler, now, k, r)
    ensures Kept(hasScaler, now, k, r, g, CloseSection(r, g, connection, now))
  {
    if connection in r.open {
      LessKeeps(hasScaler, k, r, g, connection, now);
      var less := Less(r, connection);
      if less.active == 0 && less.scaled {
        ArmKeeps(hasScaler, k, less, now);
      }
    }
  }

  lemma ExpireKeeps(hasScaler: bool, k: string, r: Runtime, g: Gauges, id: nat, now: int)
    requires RuntimeInv(hasScaler, now, k, r)
    ensures Kept(hasScaler, now, k, r, g, (Expire(r, id, now), g))
  {
    var r' := Expire(r, id, now);
    forall i | i in r'.timers ensures TimerFits(now, r', i) {
      assert TimerFits(now, r, i);
    }
  }

  lemma FiredKeeps(hasScaler: bool, k: string, r: Runtime, id: nat, now: int)
    requires RuntimeInv(hasScaler, now, k, r)
    ensures RuntimeInv(hasScaler, now, k, r.(timers := r.timers - {id}))
    ensures RuntimeInv(hasScaler, now, k, r.(timers := r.timers - {id}, idleTimer := None))
  {
    var r1 := r.(timers := r.timers - {id});
    forall i | i in r1.timers ensures TimerFits(now, r1, i) && TimerFits(now, r1.(idleTimer := None), i) {
      assert TimerFits(now, r, i);
    }
  }

  lemma IdleKeeps(hasScaler: bool, k: string, r: Runtime, g: Gauges, id: nat, downOk: bool, now: int)
    requires RuntimeInv(hasScaler, now, k, r)
    ensures Kept(hasScaler, now, k, r, g, IdleSection(r, g, id, downOk, now))
  {
    FiredKeeps(hasScaler, k, r, id, now);
    var r1 := r.(timers := r.timers - {id});
    if r.active == 0 && r.scaled {
      if downOk {
        var r2 := r1.(idleTimer := None);
        DownKeeps(hasScaler, k, r2, g, true, IdleTimer(id), now);
        assert ScaleDown(r2, g, r2.workload.value, true, IdleTimer(id), now).0 ==
               ScaleDown(r1, g, r1.workload.value, true, IdleTimer(id), now).0.(idleTimer := None);
      } else {
        DownKeeps(hasScaler, k, r1, g, false, IdleTimer(id), now);
      }
    }
  }

  lemma ShutdownKeeps(hasScaler: bool, k: string, r: Runtime, g: Gauges, downOk: bool, now: int)
    requires RuntimeInv(hasScaler, now, k, r)
    ensures Kept(hasScaler, now, k, r, g, ShutdownSection(r, g, downOk, now))
  {
    StopKeeps(hasScaler, now, k, r);
    if StopTimer(r).scaled {
      DownKeeps(hasScaler, k, StopTimer(r), g, downOk, Stopping, now);
    }
  }

  /** An Open reaches the runtime of its own service. */
  predicate Fits(k: string, a: Action) {
    a.Opens? ==> k == RuntimeKey(a.identity, a.service)
  }

  lemma ActKeeps(hasScaler: bool, now: int, k: string, r: Runtime, g: Gauges, a: Action)
    requires RuntimeInv(hasScaler, now, k, r) && Fits(k, a)
    ensures Kept(hasScaler, now, k, r, g, Act(hasScaler, now, r, g, a))
  {
    match a
    case Opens(identity, service, answers) => OpenKeeps(hasScaler, k, r, g, identity, service, now, answers);
    case Closes(connection) => CloseKeeps(hasScaler, k, r, g, connection, now);
    case Expires(id) => ExpireKeeps(hasScaler, k, r, g, id, now);
    case Fires(id, ok) =>
      if id in r.timers && r.timers[id].started {
        IdleKeeps(hasScaler, k, r, g, id, ok, now);
      }
    case Stops(ok) => ShutdownKeeps(hasScaler, k, r, g, ok, now);
  }

  // ----- Nothing is forgotten -----

  /** A workload left running with nobody connected has a callback to come, or the last thing
      tried was to scale it down, and that failed. */
  ghost predicate Remembered(r: Runtime) {
    r.scaled && r.active == 0 ==> r.timers != map[] || FailedDown(LastCall(r.history))
  }

  lemma DownRemembers(r: Runtime, g: Gauges, w: Workload, ok: bool, cause: Cause, now: int)
    requires !cause.FirstOpen?
    ensures Remembered(ScaleDown(r, g, w, ok, cause, now).0)
  {
    LastCallAppended(r.history, Called(now, TargetOf(w), 0, ok, cause));
  }

  lemma DialRemembers(r: Runtime, g: Gauges, service: Service, now: int, a: Answers)
    requires Counted(r) && (service.workload.None? ==> !r.scaled)
    ensures Remembered(Dial(r, g, service, now, a).runtime)
  {
    if !a.dialOk && service.workload.Some? && r.active == 0 {
      DownRemembers(r, g, service.workload.value, a.downOk, FailedDial, now);
    }
  }

  /** Open: a grant without a workload is apart from every workload, so its runtime is never scaled. */
  lemma OpenRemembers(hasScaler: bool, k: string, r: Runtime, g: Gauges, identity: string, service: Service,
                      now: int, a: Answers)
    requires RuntimeInv(hasScaler, now, k, r) && k == RuntimeKey(identity, service) && Apart(identity, service)
    ensures Remembered(OpenSection(r, g, hasScaler, identity, service, now, a).runtime)
  {
    EnterKeeps(hasScaler, k, r, identity, service, now);
    var entered := Enter(r, identity, service, now);
    if service.workload.Some? && !entered.scaled && hasScaler && a.upOk {
      var w := service.workload.value;
      DialRemembers(Call(entered, w, w.replicas, true, FirstOpen, now).(scaled := true),
                    g.(workloads := g.workloads + 1), service, now, a);
    } else if service.workload.None? || entered.scaled {
      DialRemembers(entered, g, service, now, a);
    }
  }

  lemma ActRemembers(hasScaler: bool, now: int, k: string, r: Runtime, g: Gauges, a: Action)
    requires RuntimeInv(hasScaler, now, k, r) && Remembered(r) && Fits(k, a)
    requires a.Opens? ==> Apart(a.identity, a.service)
    ensures Remembered(Act(hasScaler, now, r, g, a).0)
  {
    match a
    case Opens(identity, service, answers) => OpenRemembers(hasScaler, k, r, g, identity, service, now, answers);
    case Closes(connection) =>
      var r' := CloseSection(r, g, connection, now).0;
      assert connection in r.open && r'.active == 0 && r'.scaled ==> r.nextTimer in r'.timers;
    case Expires(id) => assert id in r.timers ==> id in Expire(r, id, now).timers;
    case Fires(id, ok) =>
      if id in r.timers && r.active == 0 && r.scaled {
        DownRemembers(r.(timers := r.timers - {id}), g, r.workload.value, ok, IdleTimer(id), now);
      }
    case Stops(ok) =>
      if r.scaled {
        DownRemembers(StopTimer(r), g, r.workload.value, ok, Stopping, now);
      }
  }
}
