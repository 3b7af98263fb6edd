/** The lifecycle gateway over whole runs: every interleaving of every number of clients. */
module LifecycleRuns {
  import opened Prelude
  import opened Policy
  import opened Lifecycle
  import opened LifecycleProofs
  import opened Runs
  import opened Sums
  import opened Text

  // ----- Keys -----

  /** The key of a target belongs to it alone exactly when none of its parts holds a NUL. */
  lemma TargetKeyIsUnique(t: Target)
    ensures (forall u :: KeyOf(Managed(u)) == KeyOf(Managed(t)) ==> u == t) <==> Clean(Managed(t))
  {
    if Clean(Managed(t)) {
      forall u | KeyOf(Managed(u)) == KeyOf(Managed(t)) ensures u == t {
        SplitAtNul("workload", Join(t.kind, t.namespace, t.name), "workload", Join(u.kind, u.namespace, u.name));
        ThreeParts(t.kind, t.namespace, t.name, u.kind, u.namespace, u.name);
      }
    } else {
      var u := Double(t);
      assert KeyOf(Managed(u)) == KeyOf(Managed(t)) && u != t;
    }
  }

  /** Another target with the key of a target that holds a NUL. */
  lemma Double(t: Target) returns (u: Target)
    requires !Clean(Managed(t))
    ensures KeyOf(Managed(u)) == KeyOf(Managed(t)) && u != t
  {
    if NUL in t.kind {
      var a, b := CutAtNul(t.kind);
      u := Target(a, b + [NUL] + t.namespace, t.name);
      assert Join(u.kind, u.namespace, u.name) == Join(t.kind, t.namespace, t.name);
    } else if NUL in t.namespace {
      var a, b := CutAtNul(t.namespace);
      u := Target(t.kind, a, b + [NUL] + t.name);
      assert Join(u.kind, u.namespace, u.name) == Join(t.kind, t.namespace, t.name);
    } else {
      var a, b := CutAtNul(t.name);
      u := Target(t.kind, t.namespace + [NUL] + a, b);
      assert Join(u.kind, u.namespace, u.name) == Join(t.kind, t.namespace, t.name);
    }
  }

  /** The same for the key of an alias among aliases. */
  lemma AliasKeyIsUnique(identity: string, name: string)
    ensures (forall i, n :: KeyOf(Alias(i, n)) == KeyOf(Alias(identity, name)) ==> i == identity && n == name) <==>
            Clean(Alias(identity, name))
  {
    if Clean(Alias(identity, name)) {
      forall i, n | KeyOf(Alias(i, n)) == KeyOf(Alias(identity, name)) ensures i == identity && n == name {
        TwoParts(identity, name, i, n);
      }
    } else if NUL in identity {
      var a, b := CutAtNul(identity);
      assert a + [NUL] + (b + [NUL] + name) == identity + [NUL] + name;
      assert KeyOf(Alias(a, b + [NUL] + name)) == KeyOf(Alias(identity, name)) && a != identity;
    } else {
      var a, b := CutAtNul(name);
      assert (identity + [NUL] + a) + [NUL] + b == identity + [NUL] + name;
      assert KeyOf(Alias(identity + [NUL] + a, b)) == KeyOf(Alias(identity, name)) && b != name;
    }
  }

  /** A grant whose identity and name are free of NUL is apart from every workload. */
  lemma CleanIsApart(identity: string, service: Service)
    requires Clean(Alias(identity, service.name))
    ensures Apart(identity, service)
  {
    if service.workload.None? {
      forall t ensures RuntimeKey(identity, service) != KeyOf(Managed(t)) {
        if RuntimeKey(identity, service) == KeyOf(Managed(t)) {
          assert Join(t.kind, t.namespace, t.name)[|t.kind|] == NUL;
          TwoParts(identity, service.name, "workload", Join(t.kind, t.namespace, t.name));
          assert false;
        }
      }
    }
  }

  // ----- Gauges -----

  function Measures<T>(m: map<string, T>, f: T -> int): map<string, int> {
    map k | k in m :: f(m[k])
  }

  ghost predicate Tallies<T>(m: map<string, T>, f: T -> int, gauge: int) {
    gauge == Sum(Measures(m, f))
  }

  lemma TalliesUpdated<T>(m: map<string, T>, f: T -> int, gauge: int, k: string, v: T, gauge': int)
    requires Tallies(m, f, gauge) && gauge' == gauge + f(v) - if k in m then f(m[k]) else 0
    ensures Tallies(m[k := v], f, gauge')
  {
    SumUpdated(Measures(m, f), k, f(v));
    assert Measures(m[k := v], f) == Measures(m, f)[k := f(v)];
  }

  /** The gauges are the sums over all runtimes. */
  ghost predicate Total(m: map<string, Runtime>, g: Gauges) {
    && Tallies(m, StaticOpen, g.staticOpen)
    && Tallies(m, ManagedOpen, g.managedOpen)
    && Tallies(m, ScaledOne, g.workloads)
  }

  lemma TotalUpdated(m: map<string, Runtime>, g: Gauges, k: string, r: Runtime, g': Gauges)
    requires Total(m, g)
    requires g' == if k in m then Minus(Plus(g, Contribution(r)), Contribution(m[k])) else Plus(g, Contribution(r))
    ensures Total(m[k := r], g')
  {
    TalliesUpdated(m, StaticOpen, g.staticOpen, k, r, g'.staticOpen);
    TalliesUpdated(m, ManagedOpen, g.managedOpen, k, r, g'.managedOpen);
    TalliesUpdated(m, ScaledOne, g.workloads, k, r, g'.workloads);
  }

  lemma NewTotal(m: map<string, Runtime>, g: Gauges, k: string, r: Runtime)
    requires Total(m, g) && k !in m && Contribution(r) == Gauges(0, 0, 0)
    ensures Total(m[k := r], g)
  {
    TotalUpdated(m, g, k, r, Plus(g, Contribution(r)));
  }

  // ----- The invariant of every reachable state -----

  ghost predicate Located(w: World, k: string)
    requires k in w.runtimes
  {
    RuntimeInv(w.hasScaler, w.now, k, w.runtimes[k])
  }

  /** A client that waits has its runtime. */
  ghost predicate TicketFits(w: World, c: nat)
    requires c in w.waiting
  {
    RuntimeKey(w.waiting[c].identity, w.waiting[c].service) in w.runtimes
  }

  ghost predicate AllLocated(w: World) {
    forall k :: k in w.runtimes ==> Located(w, k)
  }

  ghost predicate TicketsFit(w: World) {
    forall c :: c in w.waiting ==> TicketFits(w, c)
  }

  ghost predicate Inv(w: World) {
    AllLocated(w) && TicketsFit(w) && Total(w.runtimes, w.gauges)
  }

  lemma PutTotal(m: map<string, Runtime>, k: string, r: Runtime, g: Gauges, g': Gauges)
    requires k in m && Total(m, g) && Balanced(m[k], g, r, g')
    ensures Total(m[k := r], g')
  {
    TotalUpdated(m, g, k, r, g');
  }

  lemma PutLocated(w: World, k: string, r: Runtime, g: Gauges)
    requires AllLocated(w) && RuntimeInv(w.hasScaler, w.now, k, r)
    ensures AllLocated(w.(runtimes := w.runtimes[k := r], gauges := g))
  {
    var w' := w.(runtimes := w.runtimes[k := r], gauges := g);
    forall j | j in w'.runtimes ensures Located(w', j) {
      assert j != k ==> Located(w, j);
    }
  }

  lemma TicketsKeep(w: World, w': World)
    requires TicketsFit(w) && w.runtimes.Keys <= w'.runtimes.Keys && w'.waiting == w.waiting
    ensures TicketsFit(w')
  {
    forall c | c in w'.waiting ensures TicketFits(w', c) {
      assert TicketFits(w, c);
    }
  }

  lemma PutKeeps(w: World, k: string, r: Runtime, g: Gauges)
    requires Inv(w) && k in w.runtimes
    requires RuntimeInv(w.hasScaler, w.now, k, r) && Balanced(w.runtimes[k], w.gauges, r, g)
    ensures Inv(w.(runtimes := w.runtimes[k := r], gauges := g))
  {
    var w' := w.(runtimes := w.runtimes[k := r], gauges := g);
    PutTotal(w.runtimes, k, r, w.gauges, g);
    PutLocated(w, k, r, g);
    TicketsKeep(w, w');
  }

  lemma NewFits(hasScaler: bool, now: int, k: string)
    ensures RuntimeInv(hasScaler, now, k, NewRuntime()) && Contribution(NewRuntime()) == Gauges(0, 0, 0)
  {
    assert OfType(map[], StaticType) == OfType(map[], ManagedType) == {};
  }

  lemma AddKeeps(w: World, key: string, r: Runtime)
    requires Inv(w) && key !in w.runtimes
    requires RuntimeInv(w.hasScaler, w.now, key, r) && Contribution(r) == Gauges(0, 0, 0)
    ensures Inv(w.(runtimes := w.runtimes[key := r]))
  {
    NewTotal(w.runtimes, w.gauges, key, r);
    PutLocated(w, key, r, w.gauges);
    TicketsKeep(w, w.(runtimes := w.runtimes[key := r]));
  }

  lemma LookupKeeps(w: World, s: Step)
    requires Inv(w) && s.Lookup?
    ensures Inv(Apply(w, s))
  {
    var Lookup(client, identity, service) := s;
    var key := RuntimeKey(identity, service);
    if client !in w.waiting {
      var found := w;
      if key !in w.runtimes {
        NewFits(w.hasScaler, w.now, key);
        AddKeeps(w, key, NewRuntime());
        found := w.(runtimes := w.runtimes[key := NewRuntime()]);
      }
      var w' := found.(waiting := found.waiting[client := Ticket(identity, service)]);
      forall j | j in w'.runtimes ensures Located(w', j) { assert Located(found, j); }
      forall c | c in w'.waiting ensures TicketFits(w', c) { assert c != client ==> TicketFits(found, c); }
    }
  }

  lemma TickKeeps(w: World, d: nat)
    requires Inv(w)
    ensures Inv(w.(now := w.now + d))
  {
    var w' := w.(now := w.now + d);
    forall k | k in w'.runtimes ensures Located(w', k) {
      assert Located(w, k);
      var r := w.runtimes[k];
      forall id | id in r.timers ensures TimerFits(w'.now, r, id) {
        assert TimerFits(w.now, r, id);
      }
    }
    TicketsKeep(w, w');
  }

  lemma SectionKeeps(w: World, k: string, a: Action)
    requires Inv(w) && Fits(k, a)
    ensures Inv(Section(w, k, a))
  {
    if k in w.runtimes {
      assert Located(w, k);
      ActKeeps(w.hasScaler, w.now, k, w.runtimes[k], w.gauges, a);
      var (r, g) := Act(w.hasScaler, w.now, w.runtimes[k], w.gauges, a);
      PutKeeps(w, k, r, g);
    }
  }

  lemma OpenStepKeeps(w: World, c: nat, a: Answers)
    requires Inv(w)
    ensures Inv(Apply(w, Open(c, a)))
  {
    if c in w.waiting {
      var Ticket(identity, service) := w.waiting[c];
      var fewer := w.(waiting := w.waiting - {c});
      forall j | j in fewer.runtimes ensures Located(fewer, j) { assert Located(w, j); }
      forall d | d in fewer.waiting ensures TicketFits(fewer, d) { assert TicketFits(w, d); }
      SectionKeeps(fewer, RuntimeKey(identity, service), Opens(identity, service, a));
    }
  }

  lemma ApplyKeeps(w: World, s: Step)
    requires Inv(w)
    ensures Inv(Apply(w, s))
  {
    match s
    case Lookup(_, _, _) => LookupKeeps(w, s);
    case Open(c, a) => OpenStepKeeps(w, c, a);
    case Tick(d) => TickKeeps(w, d);
    case On(k, a) => if !a.Opens? { SectionKeeps(w, k, a); }
  }

  ghost predicate Good(hasScaler: bool, w: World) {
    Inv(w) && w.hasScaler == hasScaler
  }

  lemma GoodKeeps(hasScaler: bool, w: World, s: Step)
    requires Good(hasScaler, w)
    ensures Good(hasScaler, Apply(w, s))
  {
    ApplyKeeps(w, s);
  }

  /** Whatever the policy resolves, every run keeps the invariant. */
  lemma EveryRunKeeps(hasScaler: bool, steps: seq<Step>)
    ensures Good(hasScaler, Run(hasScaler, steps))
  {
    forall w, s | Good(hasScaler, w) ensures Good(hasScaler, Apply(w, s)) {
      GoodKeeps(hasScaler, w, s);
    }
    Invariance(Apply, Start(hasScaler), steps, w => Good(hasScaler, w), (w, s) => true);
  }
}
