/** Which thread holds which locks: a set of lock addresses per thread, to which
    only the thread's own steps add and from which only they take away. */
module Holders {

  ghost predicate IsHeld(held: seq<set<nat>>, l: nat) {
    exists t :: 0 <= t < |held| && l in held[t]
  }

  /** No lock is held by two threads. */
  ghost predicate Exclusive(held: seq<set<nat>>) {
    forall t, u :: 0 <= t < u < |held| ==> held[t] !! held[u]
  }

  lemma TakeFree(held: seq<set<nat>>, t: nat, l: nat)
    requires Exclusive(held) && t < |held| && !IsHeld(held, l)
    ensures var held' := held[t := held[t] + {l}];
      Exclusive(held') && forall k :: IsHeld(held', k) <==> IsHeld(held, k) || k == l
  {
    var held' := held[t := held[t] + {l}];
    assert l in held'[t];
    forall k
      ensures IsHeld(held', k) <==> IsHeld(held, k) || k == l
    {
      if IsHeld(held, k) {
        var u :| 0 <= u < |held| && k in held[u];
        assert k in held'[u];
      }
      if IsHeld(held', k) && k != l {
        var u :| 0 <= u < |held'| && k in held'[u];
        assert k in held[u];
      }
    }
  }

  lemma GiveBack(held: seq<set<nat>>, t: nat, l: nat)
    requires Exclusive(held) && t < |held| && l in held[t]
    ensures var held' := held[t := held[t] - {l}];
      Exclusive(held') && forall k :: IsHeld(held', k) <==> IsHeld(held, k) && k != l
  {
    var held' := held[t := held[t] - {l}];
    forall k
      ensures IsHeld(held', k) <==> IsHeld(held, k) && k != l
    {
      if IsHeld(held, k) && k != l {
        var u :| 0 <= u < |held| && k in held[u];
        assert k in held'[u];
      }
      if IsHeld(held', k) {
        var u :| 0 <= u < |held'| && k in held'[u];
        assert k in held[u];
      }
    }
  }
}
