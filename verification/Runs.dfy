/** Runs of a state machine: a fold of its step function over any sequence of actions. */
module Runs {

  function Fold<S, A>(step: (S, A) -> S, start: S, actions: seq<A>): S {
    if actions == [] then start
    else step(Fold(step, start, actions[..|actions| - 1]), actions[|actions| - 1])
  }

  lemma FoldSnoc<S, A>(step: (S, A) -> S, start: S, actions: seq<A>, a: A)
    ensures Fold(step, start, actions + [a]) == step(Fold(step, start, actions), a)
  {
    assert (actions + [a])[..|actions|] == actions;
  }

  /** Splitting a run: the later part is a run from where the earlier part ended. */
  lemma {:induction false} FoldSplit<S, A>(step: (S, A) -> S, start: S, actions: seq<A>, n: nat)
    requires n <= |actions|
    ensures Fold(step, start, actions) == Fold(step, Fold(step, start, actions[..n]), actions[n..])
    decreases |actions|
  {
    if n == |actions| {
      assert actions[..n] == actions && actions[n..] == [];
    } else {
      var last := |actions| - 1;
      FoldSplit(step, start, actions[..last], n);
      assert actions[..last][..n] == actions[..n] && actions[..last][n..] == actions[n..last];
      assert actions[n..][..last - n] == actions[n..last] && actions[n..][last - n] == actions[last];
    }
  }

  /** Invariance: what the start satisfies and every allowed action keeps holds after every run
      all of whose actions were allowed where they happened. */
  lemma {:induction false} Invariance<S(!new), A(!new)>(
    step: (S, A) -> S, start: S, actions: seq<A>, inv: S -> bool, allowed: (S, A) -> bool)
    requires inv(start)
    requires forall s, a :: inv(s) && allowed(s, a) ==> inv(step(s, a))
    requires forall i :: 0 <= i < |actions| ==> allowed(Fold(step, start, actions[..i]), actions[i])
    ensures inv(Fold(step, start, actions))
  {
    if actions != [] {
      var before := actions[..|actions| - 1];
      assert forall i :: 0 <= i < |before| ==> before[..i] == actions[..i];
      Invariance(step, start, before, inv, allowed);
    }
  }

  /** The state after the first n actions. */
  function At<S, A>(step: (S, A) -> S, start: S, actions: seq<A>, n: nat): S
    requires n <= |actions|
  {
    Fold(step, start, actions[..n])
  }

  lemma AtPrefix<S, A>(step: (S, A) -> S, start: S, actions: seq<A>, m: nat, n: nat)
    requires n <= m <= |actions|
    ensures At(step, start, actions[..m], n) == At(step, start, actions, n)
  {
    assert actions[..m][..n] == actions[..n];
  }

  /** Every state of the run, its start and end included, satisfies inv. */
  ghost predicate Always<S, A>(step: (S, A) -> S, start: S, actions: seq<A>, inv: S -> bool) {
    forall n :: 0 <= n <= |actions| ==> inv(At(step, start, actions, n))
  }

  /** Every action of the run is allowed where it happens. */
  ghost predicate Throughout<S, A>(step: (S, A) -> S, start: S, actions: seq<A>, allowed: (S, A) -> bool) {
    forall n :: 0 <= n < |actions| ==> allowed(At(step, start, actions, n), actions[n])
  }

  lemma AlwaysSnoc<S, A>(step: (S, A) -> S, start: S, actions: seq<A>, inv: S -> bool)
    requires actions != []
    ensures Always(step, start, actions, inv) <==>
            Always(step, start, actions[..|actions| - 1], inv) && inv(At(step, start, actions, |actions|))
  {
    var last := |actions| - 1;
    if Always(step, start, actions, inv) {
      assert inv(At(step, start, actions, |actions|));
      forall n | 0 <= n <= last ensures inv(At(step, start, actions[..last], n)) {
        AtPrefix(step, start, actions, last, n);
      }
    }
    if Always(step, start, actions[..last], inv) && inv(At(step, start, actions, |actions|)) {
      forall n | 0 <= n <= |actions| ensures inv(At(step, start, actions, n)) {
        if n <= last {
          AtPrefix(step, start, actions, last, n);
          assert inv(At(step, start, actions[..last], n));
        }
      }
    }
  }

  lemma ThroughoutSnoc<S, A>(step: (S, A) -> S, start: S, actions: seq<A>, allowed: (S, A) -> bool)
    requires actions != []
    ensures var last := |actions| - 1;
            Throughout(step, start, actions, allowed) <==>
            Throughout(step, start, actions[..last], allowed) && allowed(At(step, start, actions, last), actions[last])
  {
    forall n | 0 <= n < |actions|
      ensures At(step, start, actions[..|actions| - 1], n) == At(step, start, actions, n)
    {
      AtPrefix(step, start, actions, |actions| - 1, n);
    }
  }

  lemma AtNext<S, A>(step: (S, A) -> S, start: S, actions: seq<A>, n: nat)
    requires n < |actions|
    ensures At(step, start, actions, n + 1) == step(At(step, start, actions, n), actions[n])
  {
    FoldSnoc(step, start, actions[..n], actions[n]);
    assert actions[..n] + [actions[n]] == actions[..n + 1];
  }

  /** Exactness: if one possible action keeps inv exactly when it is allowed, and then keeps what that
      takes, a possible run has inv throughout exactly when all its actions were allowed. */
  lemma {:induction false} Exactness<S(!new), A(!new)>(
    step: (S, A) -> S, start: S, actions: seq<A>, good: S -> bool, inv: S -> bool,
    possible: (S, A) -> bool, allowed: (S, A) -> bool)
    requires good(start) && forall s :: good(s) ==> inv(s)
    requires forall s, a :: good(s) && possible(s, a) ==>
               (inv(step(s, a)) <==> allowed(s, a)) && (allowed(s, a) ==> good(step(s, a)))
    requires Throughout(step, start, actions, possible)
    ensures Always(step, start, actions, inv) <==> Throughout(step, start, actions, allowed)
    ensures Throughout(step, start, actions, allowed) ==> good(At(step, start, actions, |actions|))
  {
    if actions != [] {
      var last := |actions| - 1;
      ThroughoutSnoc(step, start, actions, possible);
      ThroughoutSnoc(step, start, actions, allowed);
      AlwaysSnoc(step, start, actions, inv);
      Exactness(step, start, actions[..last], good, inv, possible, allowed);
      AtPrefix(step, start, actions, last, last);
      AtNext(step, start, actions, last);
    }
  }
}
