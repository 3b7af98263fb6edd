/** One step of a run, seen from one runtime. */
module LifecycleSteps {
  import opened Prelude
  import opened Policy
  import opened Lifecycle
  import opened LifecycleProofs
  import opened LifecycleRuns

  function ActionOn(w: World, s: Step, k: string): Option<Action> {
    match s
    case Open(c, answers) =>
      if c in w.waiting && RuntimeKey(w.waiting[c].identity, w.waiting[c].service) == k
      then Some(Opens(w.waiting[c].identity, w.waiting[c].service, answers)) else None
    case On(key, action) => if key == k && !action.Opens? then Some(action) else None
    case _ => None
  }

  lemma SectionMoves(w: World, key: string, a: Action, k: string)
    requires k in w.runtimes
    ensures k in Section(w, key, a).runtimes
    ensures Section(w, key, a).runtimes[k] ==
            if k == key then Act(w.hasScaler, w.now, w.runtimes[k], w.gauges, a).0 else w.runtimes[k]
  {
  }

  /** What a step does to one runtime: nothing, or the section it runs there. */
  ghost predicate Moved(w: World, s: Step, k: string)
    requires k in w.runtimes
  {
    var a, w', r := ActionOn(w, s, k), Apply(w, s), w.runtimes[k];
    && k in w'.runtimes
    && if a.None? then w'.runtimes[k] == r
       else Fits(k, a.value) && w'.runtimes[k] == Act(w.hasScaler, w.now, r, w.gauges, a.value).0
  }

  lemma OpenMoves(w: World, c: nat, answers: Answers, k: string)
    requires k in w.runtimes && c in w.waiting
    ensures Moved(w, Open(c, answers), k)
  {
    var Ticket(identity, service) := w.waiting[c];
    SectionMoves(w.(waiting := w.waiting - {c}), RuntimeKey(identity, service), Opens(identity, service, answers), k);
  }

  lemma OnMoves(w: World, key: string, action: Action, k: string)
    requires k in w.runtimes
    ensures Moved(w, On(key, action), k)
  {
    SectionMoves(w, key, action, k);
  }

  lemma OthersMove(w: World, s: Step, k: string)
    requires k in w.runtimes && (s.Lookup? || s.Tick? || (s.Open? && s.client !in w.waiting))
    ensures Moved(w, s, k)
  {
  }

  lemma Moves(w: World, s: Step, k: string)
    requires k in w.runtimes
    ensures Moved(w, s, k)
  {
    if s.Open? && s.client in w.waiting {
      OpenMoves(w, s.client, s.answers, k);
    } else if s.On? {
      OnMoves(w, s.key, s.action, k);
    } else {
      OthersMove(w, s, k);
    }
  }

  lemma SectionAddsNothing(w: World, key: string, a: Action)
    ensures Section(w, key, a).runtimes.Keys == w.runtimes.Keys
  {
  }

  /** Only a lookup creates a runtime, and creates it empty. */
  lemma Appears(w: World, s: Step, k: string)
    requires k in Apply(w, s).runtimes && k !in w.runtimes
    ensures Apply(w, s).runtimes[k] == NewRuntime()
  {
    if s.Open? && s.client in w.waiting {
      var t := w.waiting[s.client];
      SectionAddsNothing(w.(waiting := w.waiting - {s.client}), RuntimeKey(t.identity, t.service),
                         Opens(t.identity, t.service, s.answers));
      assert false;
    } else if s.On? {
      SectionAddsNothing(w, s.key, s.action);
      assert false;
    }
  }
}
