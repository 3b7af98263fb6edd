/** The gateway as the mutable object it is, proved against the critical sections of Lifecycle. */
module LifecycleGateway {
  import opened Prelude
  import opened Policy
  import opened Lifecycle

  class ServiceRuntime {
    var workload: Option<Workload>
    var labelText: string
    var active: int
    var scaled: bool
    var idleTimer: Option<nat>
    // What refers to this runtime: tracked connections, pending callbacks, observed events.
    var open: map<nat, ServiceType>
    var nextConnection: nat
    var timers: map<nat, Timer>
    var nextTimer: nat
    var history: seq<Event>

    predicate Sane()
      reads this
    {
      scaled ==> workload.Some?
    }

    function View(): Runtime
      requires Sane()
      reads this
    {
      RuntimeState(workload, labelText, active, scaled, idleTimer,
                   open, nextConnection, timers, nextTimer, history)
    }

    constructor ()
      ensures Sane() && View() == NewRuntime()
    {
      workload, labelText, active, scaled, idleTimer := None, "", 0, false, None;
      open, nextConnection, timers, nextTimer, history := map[], 0, map[], 0, [];
    }

    /** The runtime is in this state. */
    ghost predicate Is(r: Runtime)
      reads this
    {
      Sane() && View() == r
    }

    method Stop()
      requires Sane()
      modifies this
      ensures Sane() && View() == StopTimer(old(View()))
    {
      if idleTimer.Some? {
        if idleTimer.value in timers && !timers[idleTimer.value].started {
          timers := timers - {idleTimer.value};
        }
        idleTimer := None;
      }
    }
  }

  /** What Shutdown leaves of one runtime; it does not depend on the gauges. */
  function AfterShutdown(r: Runtime, downOk: bool, now: int): (r': Runtime)
    ensures r'.scaled <==> r.scaled && !downOk
    ensures r'.idleTimer.None? && r'.active == r.active && r'.open == r.open
  {
    ShutdownSection(r, Gauges(0, 0, 0), downOk, now).0
  }

  /** Those of the first n runtimes that were scaled and are taken down. */
  ghost function Stopped(was: seq<Runtime>, downOk: seq<bool>, n: nat): set<int>
    requires n <= |was| == |downOk|
  {
    set i | 0 <= i < n && was[i].scaled && downOk[i]
  }

  lemma NoneStopped(was: seq<Runtime>, downOk: seq<bool>)
    requires |was| == |downOk|
    ensures |Stopped(was, downOk, 0)| == 0 && FirstFailure(was, downOk, 0, None)
  {
  }

  lemma OneMoreStopped(was: seq<Runtime>, downOk: seq<bool>, n: nat)
    requires n < |was| == |downOk|
    ensures |Stopped(was, downOk, n + 1)| == |Stopped(was, downOk, n)| + if was[n].scaled && downOk[n] then 1 else 0
  {
    assert Stopped(was, downOk, n + 1) == Stopped(was, downOk, n) + if was[n].scaled && downOk[n] then {n} else {};
  }

  /** The first of the first n runtimes that was scaled and could not be taken down, if there is one. */
  ghost predicate FirstFailure(was: seq<Runtime>, downOk: seq<bool>, n: nat, first: Option<nat>)
    requires n <= |was| == |downOk|
  {
    match first
    case None => forall i :: 0 <= i < n && was[i].scaled ==> downOk[i]
    case Some(k) => k < n && was[k].scaled && !downOk[k] && forall i :: 0 <= i < k && was[i].scaled ==> downOk[i]
  }

  lemma OneMoreChecked(was: seq<Runtime>, downOk: seq<bool>, n: nat, first: Option<nat>)
    requires n < |was| == |downOk| && FirstFailure(was, downOk, n, first)
    ensures FirstFailure(was, downOk, n + 1, if was[n].scaled && !downOk[n] && first.None? then Some(n) else first)
  {
  }

  function Lowered(g: Gauges, n: int): Gauges { g.(workloads := g.workloads - n) }

  class Gateway {
    const hasScaler: bool
    var runtimes: map<string, ServiceRuntime>
    var gauges: Gauges
    var now: int

    ghost predicate Valid()
      reads this, runtimes.Values
    {
      && (forall k :: k in runtimes ==> runtimes[k].Sane())
      && (forall j, k :: j in runtimes && k in runtimes && runtimes[j] == runtimes[k] ==> j == k)
    }

    constructor (hasScaler: bool)
      ensures Valid() && this.hasScaler == hasScaler && runtimes == map[] && gauges == Gauges(0, 0, 0) && now == 0
    {
      this.hasScaler := hasScaler;
      runtimes, gauges, now := map[], Gauges(0, 0, 0), 0;
    }

    /** Finds or creates the runtime of a service; every other entry stays. */
    method Find(identity: string, service: Service) returns (rt: ServiceRuntime)
      requires Valid()
      modifies this`runtimes
      ensures Valid()
      ensures var key := RuntimeKey(identity, service);
              && runtimes == old(runtimes)[key := rt]
              && (key in old(runtimes) ==> runtimes == old(runtimes))
              && (key !in old(runtimes) ==> fresh(rt) && rt.Sane() && rt.View() == NewRuntime())
    {
      var key := RuntimeKey(identity, service);
      if key in runtimes {
        rt := runtimes[key];
      } else {
        rt := new ServiceRuntime();
        runtimes := runtimes[key := rt];
      }
    }

    method Scale(rt: ServiceRuntime, w: Workload, replicas: int, ok: bool, cause: Cause)
      modifies rt`history
      ensures rt.history == old(rt.history) + [Called(now, TargetOf(w), replicas, ok, cause)]
    {
      rt.history := rt.history + [Called(now, TargetOf(w), replicas, ok, cause)];
    }

    method Begin(rt: ServiceRuntime, identity: string, service: Service)
      requires rt.Sane()
      modifies rt
      ensures rt.Sane() && rt.View() == Enter(old(rt.View()), identity, service, now)
    {
      rt.history := rt.history + [Opened(now, service.workload)];
      if service.workload.Some? {
        rt.workload := service.workload;
      }
      rt.labelText := identity + "/" + service.name;
      rt.Stop();
    }

    method Connect(rt: ServiceRuntime, service: Service, a: Answers) returns (result: OpenResult)
      requires rt.Sane()
      modifies rt, this`gauges
      ensures rt.Sane()
      ensures Opening(rt.View(), gauges, result) == Dial(old(rt.View()), old(gauges), service, now, a)
    {
      if !a.dialOk {
        if service.workload.Some? && rt.active == 0 {
          Scale(rt, service.workload.value, 0, a.downOk, FailedDial);
          if a.downOk {
            rt.scaled := false;
            gauges := gauges.(workloads := gauges.workloads - 1);
          }
        }
        return DialFailed;
      }
      rt.active := rt.active + 1;
      gauges := Bump(gauges, TypeOf(service), 1);
      result := Connected(rt.nextConnection);
      rt.open := rt.open[rt.nextConnection := TypeOf(service)];
      rt.nextConnection := rt.nextConnection + 1;
    }

    method Open(rt: ServiceRuntime, identity: string, service: Service, a: Answers) returns (result: OpenResult)
      requires rt.Sane()
      modifies rt, this`gauges
      ensures rt.Sane()
      ensures Opening(rt.View(), gauges, result) ==
              OpenSection(old(rt.View()), old(gauges), hasScaler, identity, service, now, a)
    {
      Begin(rt, identity, service);
      if service.workload.Some? && !rt.scaled {
        if !hasScaler {
          return ScalerUnavailable;
        }
        Scale(rt, service.workload.value, service.workload.value.replicas, a.upOk, FirstOpen);
        if !a.upOk {
          return ScaleFailed;
        }
        rt.scaled := true;
        gauges := gauges.(workloads := gauges.workloads + 1);
      }
      result := Connect(rt, service, a);
    }

    method Release(rt: ServiceRuntime, t: ServiceType)
      requires rt.Sane()
      modifies rt, this`gauges
      ensures rt.Sane()
      ensures (rt.View(), gauges) == Lifecycle.Release(old(rt.View()), old(gauges), t, now)
    {
      if rt.active > 0 {
        rt.active := rt.active - 1;
        gauges := Bump(gauges, t, -1);
      }
      if rt.active != 0 || rt.workload.None? || !rt.scaled {
        return;
      }
      var delay := rt.workload.value.idleTimeout;
      rt.timers := rt.timers[rt.nextTimer := Timer(now + delay, false, |rt.history|)];
      rt.history := rt.history + [Emptied(now, delay, rt.nextTimer)];
      rt.idleTimer := Some(rt.nextTimer);
      rt.nextTimer := rt.nextTimer + 1;
    }

    method Close(rt: ServiceRuntime, connection: nat)
      requires rt.Sane()
      modifies rt, this`gauges
      ensures rt.Sane()
      ensures (rt.View(), gauges) == CloseSection(old(rt.View()), old(gauges), connection, now)
    {
      if connection in rt.open {
        var t := rt.open[connection];
        rt.open := rt.open - {connection};
        Release(rt, t);
      }
    }

    method IdleCallback(rt: ServiceRuntime, id: nat, downOk: bool)
      requires rt.Sane()
      modifies rt, this`gauges
      ensures rt.Sane()
      ensures (rt.View(), gauges) == IdleSection(old(rt.View()), old(gauges), id, downOk, now)
    {
      rt.timers := rt.timers - {id};
      if rt.active != 0 || !rt.scaled {
        return;
      }
      Scale(rt, rt.workload.value, 0, downOk, IdleTimer(id));
      if !downOk {
        return;
      }
      rt.scaled := false;
      gauges := gauges.(workloads := gauges.workloads - 1);
      rt.idleTimer := None;
    }

    method ShutdownRuntime(rt: ServiceRuntime, downOk: bool) returns (failed: bool)
      requires rt.Sane()
      modifies rt, this`gauges
      ensures rt.Sane()
      ensures (rt.View(), gauges) == ShutdownSection(old(rt.View()), old(gauges), downOk, now)
      ensures failed == rt.scaled
    {
      rt.Stop();
      failed := false;
      if rt.scaled && rt.workload.Some? {
        Scale(rt, rt.workload.value, 0, downOk, Stopping);
        if downOk {
          rt.scaled := false;
          gauges := gauges.(workloads := gauges.workloads - 1);
        } else {
          failed := true;
        }
      }
    }

    /** The slice of runtimes Shutdown takes under the gateway's own mutex: each exactly once. */
    method Slice() returns (slice: seq<ServiceRuntime>)
      requires Valid()
      ensures forall i, j :: 0 <= i < j < |slice| ==> slice[i] != slice[j]
      ensures forall k :: k in runtimes ==> runtimes[k] in slice
      ensures forall i :: 0 <= i < |slice| ==> slice[i] in runtimes.Values && slice[i].Sane()
    {
      slice := [];
      ghost var keys: seq<string> := [];
      var rest := runtimes.Keys;
      while rest != {}
        invariant rest <= runtimes.Keys && |keys| == |slice|
        invariant forall i :: 0 <= i < |keys| ==> keys[i] in runtimes.Keys - rest && slice[i] == runtimes[keys[i]]
        invariant forall i, j :: 0 <= i < j < |keys| ==> keys[i] != keys[j]
        invariant forall k :: k in runtimes.Keys - rest ==> k in keys
        decreases |rest|
      {
        var k :| k in rest;
        rest := rest - {k};
        slice, keys := slice + [runtimes[k]], keys + [k];
      }
      forall k | k in runtimes ensures runtimes[k] in slice {
        assert k in keys;
        var i :| 0 <= i < |keys| && keys[i] == k;
        assert slice[i] == runtimes[k];
      }
    }

    method ShutdownOne(rt: ServiceRuntime, downOk: bool, ghost was: Runtime) returns (failed: bool)
      requires rt.Is(was)
      modifies rt, this`gauges
      ensures rt.Is(AfterShutdown(was, downOk, now))
      ensures failed == (was.scaled && !downOk)
      ensures gauges == Lowered(old(gauges), if was.scaled && downOk then 1 else 0)
    {
      failed := ShutdownRuntime(rt, downOk);
    }

    /** The first n runtimes of the slice have been shut down, and the others not touched. */
    ghost predicate Swept(slice: seq<ServiceRuntime>, was: seq<Runtime>, downOk: seq<bool>, n: nat)
      requires n <= |slice| == |was| == |downOk|
      reads this, slice
    {
      && (forall i :: 0 <= i < n ==> slice[i].Is(AfterShutdown(was[i], downOk[i], now)))
      && (forall i :: n <= i < |slice| ==> slice[i].Is(was[i]))
    }

    method ShutdownNth(slice: seq<ServiceRuntime>, downOk: seq<bool>, ghost was: seq<Runtime>, n: nat)
      returns (failed: bool)
      requires n < |slice| == |was| == |downOk| && Swept(slice, was, downOk, n)
      requires forall i, j :: 0 <= i < j < |slice| ==> slice[i] != slice[j]
      modifies this`gauges, slice
      ensures Swept(slice, was, downOk, n + 1)
      ensures failed == (was[n].scaled && !downOk[n])
      ensures gauges == Lowered(old(gauges), if was[n].scaled && downOk[n] then 1 else 0)
    {
      failed := ShutdownOne(slice[n], downOk[n], was[n]);
    }

    /** The loop of Shutdown over its slice of runtimes, whatever order the map gave it: every
        runtime is visited, also after one fails, the first failure is reported, and the gauge
        drops by the number of workloads taken down. was are the states of the runtimes before. */
    method Shutdown(slice: seq<ServiceRuntime>, downOk: seq<bool>, ghost was: seq<Runtime>)
      returns (firstError: Option<nat>)
      requires |downOk| == |was| == |slice| && Swept(slice, was, downOk, 0)
      requires forall i, j :: 0 <= i < j < |slice| ==> slice[i] != slice[j]
      modifies this`gauges, slice
      ensures Swept(slice, was, downOk, |slice|)
      ensures FirstFailure(was, downOk, |slice|, firstError)
      ensures gauges == Lowered(old(gauges), |Stopped(was, downOk, |slice|)|)
    {
      firstError := None;
      NoneStopped(was, downOk);
      for n := 0 to |slice|
        invariant Swept(slice, was, downOk, n) && FirstFailure(was, downOk, n, firstError)
        invariant gauges == Lowered(old(gauges), |Stopped(was, downOk, n)|)
      {
        OneMoreStopped(was, downOk, n);
        OneMoreChecked(was, downOk, n, firstError);
        var failed := ShutdownNth(slice, downOk, was, n);
        if failed && firstError.None? {
          firstError := Some(n);
        }
      }
    }
  }
}
