/**
  The scale-to-zero lifecycle gateway. Every critical section held under a runtime's
  mutex is one function here; a run is any sequence of such sections, in any order, by
  any number of clients.
*/
module Lifecycle {
  import opened Prelude
  import opened Policy
  import opened Runs
  import opened Text

  // ----- Runtime keys -----

  /** What a key is made from: one alias of one identity, or one scaler target. */
  datatype Owner = Alias(identity: string, name: string) | Managed(target: Target)

  function OwnerOf(identity: string, service: Service): Owner {
    match service.workload
    case None => Alias(identity, service.name)
    case Some(w) => Managed(TargetOf(w))
  }

  function KeyOf(owner: Owner): string {
    match owner
    case Alias(identity, name) => identity + [NUL] + name
    case Managed(t) => "workload" + [NUL] + Join(t.kind, t.namespace, t.name)
  }

  function RuntimeKey(identity: string, service: Service): string {
    KeyOf(OwnerOf(identity, service))
  }

  predicate Clean(owner: Owner) {
    match owner
    case Alias(identity, name) => NUL !in identity && NUL !in name
    case Managed(t) => NUL !in t.kind && NUL !in t.namespace && NUL !in t.name
  }

  /** A grant without a workload has a key that no workload has. */
  ghost predicate Apart(identity: string, service: Service) {
    service.workload.None? ==> forall t :: RuntimeKey(identity, service) != KeyOf(Managed(t))
  }

  // ----- State -----

  datatype ServiceType = StaticType | ManagedType

  function TypeOf(service: Service): ServiceType {
    if service.workload.Some? then ManagedType else StaticType
  }

  datatype Cause = FirstOpen | FailedDial | IdleTimer(timer: nat) | Stopping

  /** The observable history of one runtime. */
  datatype Event =
    | Opened(at: int, grant: Option<Workload>)         // an Open critical section began
    | Emptied(at: int, delay: int, timer: nat)         // a release armed an idle timer
    | Called(at: int, target: Target, replicas: int, ok: bool, cause: Cause)

  /** A pending idle callback. Once started it waits for the mutex and Stop cannot recall it.
      armed is the position of its Emptied event in the history. */
  datatype Timer = Timer(due: int, started: bool, armed: nat)

  /** The fields of a service runtime, then everything that refers to it: its open tracked
      connections, its pending idle callbacks, and its history. */
  datatype RuntimeState = RuntimeState(
    workload: Option<Workload>, labelText: string, active: int, scaled: bool, idleTimer: Option<nat>,
    open: map<nat, ServiceType>, nextConnection: nat,
    timers: map<nat, Timer>, nextTimer: nat,
    history: seq<Event>)

  /** A scaled runtime has a workload to scale down, so the idle callback never follows a nil pointer. */
  type Runtime = r: RuntimeState | r.scaled ==> r.workload.Some?
    witness RuntimeState(None, "", 0, false, None, map[], 0, map[], 0, [])

  function NewRuntime(): Runtime {
    RuntimeState(None, "", 0, false, None, map[], 0, map[], 0, [])
  }

  datatype Gauges = Gauges(staticOpen: int, managedOpen: int, workloads: int)

  function Bump(g: Gauges, t: ServiceType, n: int): Gauges {
    if t.StaticType? then g.(staticOpen := g.staticOpen + n) else g.(managedOpen := g.managedOpen + n)
  }

  /** What the scaler and the network answer during one section. */
  datatype Answers = Answers(upOk: bool, dialOk: bool, downOk: bool)

  datatype OpenResult = Connected(connection: nat) | ScalerUnavailable | ScaleFailed | DialFailed

  datatype Opening = Opening(runtime: Runtime, gauges: Gauges, result: OpenResult)

  // ----- Critical sections -----

  function StopTimer(r: Runtime): Runtime {
    match r.idleTimer
    case None => r
    case Some(id) =>
      if id in r.timers && !r.timers[id].started
      then r.(idleTimer := None, timers := r.timers - {id})
      else r.(idleTimer := None)
  }

  function Call(r: Runtime, w: Workload, replicas: int, ok: bool, cause: Cause, now: int): Runtime {
    r.(history := r.history + [Called(now, TargetOf(w), replicas, ok, cause)])
  }

  /** A scale-to-zero call; only a successful one clears scaled and the gauge. */
  function ScaleDown(r: Runtime, g: Gauges, w: Workload, ok: bool, cause: Cause, now: int): (Runtime, Gauges) {
    var called := Call(r, w, 0, ok, cause, now);
    if ok then (called.(scaled := false), g.(workloads := g.workloads - 1)) else (called, g)
  }

  /** Open up to and including the cancellation of the idle timer. */
  function Enter(r: Runtime, identity: string, service: Service, now: int): Runtime {
    StopTimer(r.(
      workload := if service.workload.Some? then service.workload else r.workload,
      labelText := identity + "/" + service.name,
      history := r.history + [Opened(now, service.workload)]))
  }

  function Dial(r: Runtime, g: Gauges, service: Service, now: int, a: Answers): Opening {
    if a.dialOk then
      Opening(
        r.(active := r.active + 1, open := r.open[r.nextConnection := TypeOf(service)],
           nextConnection := r.nextConnection + 1),
        Bump(g, TypeOf(service), 1), Connected(r.nextConnection))
    else if service.workload.Some? && r.active == 0 then
      var (down, gauges) := ScaleDown(r, g, service.workload.value, a.downOk, FailedDial, now);
      Opening(down, gauges, DialFailed)
    else
      Opening(r, g, DialFailed)
  }

  /** The rest of Open: scale up if needed, then dial. */
  function Proceed(r: Runtime, g: Gauges, hasScaler: bool, service: Service, now: int, a: Answers): Opening
    requires service.workload.Some? ==> r.workload == service.workload
  {
    if service.workload.Some? && !r.scaled then
      var w := service.workload.value;
      if !hasScaler then Opening(r, g, ScalerUnavailable)
      else
        var called := Call(r, w, w.replicas, a.upOk, FirstOpen, now);
        if !a.upOk then Opening(called, g, ScaleFailed)
        else Dial(called.(scaled := true), g.(workloads := g.workloads + 1), service, now, a)
    else
      Dial(r, g, service, now, a)
  }

  function OpenSection(r: Runtime, g: Gauges, hasScaler: bool, identity: string, service: Service, now: int,
                       a: Answers): Opening {
    Proceed(Enter(r, identity, service, now), g, hasScaler, service, now, a)
  }

  function Release(r: Runtime, g: Gauges, t: ServiceType, now: int): (Runtime, Gauges) {
    var (less, gauges) := if r.active > 0 then (r.(active := r.active - 1), Bump(g, t, -1)) else (r, g);
    if less.active != 0 || less.workload.None? || !less.scaled then (less, gauges)
    else
      var delay := less.workload.value.idleTimeout;
      var id := less.nextTimer;
      (less.(idleTimer := Some(id), nextTimer := id + 1,
             timers := less.timers[id := Timer(now + delay, false, |less.history|)],
             history := less.history + [Emptied(now, delay, id)]), gauges)
  }

  /** Close of a tracked connection: sync.Once lets only the first one release. */
  function CloseSection(r: Runtime, g: Gauges, connection: nat, now: int): (Runtime, Gauges) {
    if connection in r.open
    then Release(r.(open := r.open - {connection}), g, r.open[connection], now)
    else (r, g)
  }

  /** The duration of a timer has passed and its callback starts waiting for the mutex. */
  function Expire(r: Runtime, id: nat, now: int): Runtime {
    if id in r.timers && r.timers[id].due <= now
    then r.(timers := r.timers[id := r.timers[id].(started := true)])
    else r
  }

  function IdleSection(r: Runtime, g: Gauges, id: nat, downOk: bool, now: int): (Runtime, Gauges) {
    var r1 := r.(timers := r.timers - {id});
    if r1.active != 0 || !r1.scaled then (r1, g)
    else
      var (down, gauges) := ScaleDown(r1, g, r1.workload.value, downOk, IdleTimer(id), now);
      (if downOk then down.(idleTimer := None) else down, gauges)
  }

  function ShutdownSection(r: Runtime, g: Gauges, downOk: bool, now: int): (Runtime, Gauges) {
    var stopped := StopTimer(r);
    if stopped.scaled && stopped.workload.Some?
    then ScaleDown(stopped, g, stopped.workload.value, downOk, Stopping, now)
    else (stopped, g)
  }

  /** One critical section of one runtime, or the start of one of its idle callbacks. */
  datatype Action =
    | Opens(identity: string, service: Service, answers: Answers)
    | Closes(connection: nat)
    | Expires(timer: nat)
    | Fires(timer: nat, downOk: bool)
    | Stops(downOk: bool)

  function Act(hasScaler: bool, now: int, r: Runtime, g: Gauges, a: Action): (Runtime, Gauges) {
    match a
    case Opens(identity, service, answers) =>
      var o := OpenSection(r, g, hasScaler, identity, service, now, answers); (o.runtime, o.gauges)
    case Closes(connection) => CloseSection(r, g, connection, now)
    case Expires(timer) => (Expire(r, timer, now), g)
    case Fires(timer, downOk) =>
      if timer in r.timers && r.timers[timer].started then IdleSection(r, g, timer, downOk, now) else (r, g)
    case Stops(downOk) => ShutdownSection(r, g, downOk, now)
  }

  // ----- Runs -----

  /** A client that has looked its runtime up but not yet locked it. */
  datatype Ticket = Ticket(identity: string, service: Service)

  datatype World = World(
    hasScaler: bool, runtimes: map<string, Runtime>, waiting: map<nat, Ticket>, gauges: Gauges, now: int)

  datatype Step =
    | Lookup(client: nat, identity: string, service: Service)
    | Open(client: nat, answers: Answers)
    | On(key: string, action: Action)
    | Tick(duration: nat)

  function Start(hasScaler: bool): World {
    World(hasScaler, map[], map[], Gauges(0, 0, 0), 0)
  }

  /** Run one section on the runtime stored under a key. */
  function Section(w: World, key: string, a: Action): World {
    if key !in w.runtimes then w
    else
      var (r, g) := Act(w.hasScaler, w.now, w.runtimes[key], w.gauges, a);
      w.(runtimes := w.runtimes[key := r], gauges := g)
  }

  /** One atomic step. A step that is not enabled changes nothing; Open needs a ticket. */
  function Apply(w: World, s: Step): World {
    match s
    case Lookup(client, identity, service) =>
      if client in w.waiting then w
      else
        var key := RuntimeKey(identity, service);
        w.(waiting := w.waiting[client := Ticket(identity, service)],
           runtimes := if key in w.runtimes then w.runtimes
                       else w.runtimes[key := NewRuntime()])
    case Open(client, answers) =>
      if client !in w.waiting then w
      else
        var Ticket(identity, service) := w.waiting[client];
        Section(w.(waiting := w.waiting - {client}), RuntimeKey(identity, service),
                Opens(identity, service, answers))
    case On(key, action) => if action.Opens? then w else Section(w, key, action)
    case Tick(duration) => w.(now := w.now + duration)
  }

  /** The state after any sequence of steps from a fresh gateway. */
  function Run(hasScaler: bool, steps: seq<Step>): World {
    Fold(Apply, Start(hasScaler), steps)
  }

  /** Whoever looks up runtime k without a workload is apart from every workload. */
  ghost predicate ApartAt(steps: seq<Step>, k: string) {
    forall s :: s in steps && s.Lookup? && RuntimeKey(s.identity, s.service) == k ==> Apart(s.identity, s.service)
  }

  predicate Positive(service: Service) {
    service.workload.Some? ==> service.workload.value.replicas >= 1
  }

  ghost predicate PositiveFor(steps: seq<Step>, k: string) {
    forall s :: s in steps && s.Lookup? && RuntimeKey(s.identity, s.service) == k ==> Positive(s.service)
  }
}
