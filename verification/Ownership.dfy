/** Locks and the program counters that hold them, for any set of threads. A lock's
    owner is kept beside the counters; `holds` says which counters lie between taking
    and releasing it. */
module Ownership {
  import opened Wrappers

  type Tid = nat

  /** Thread t owns the lock exactly when its counter holds it. */
  ghost predicate Owns<P>(pcs: map<Tid, P>, lock: Option<Tid>, holds: P -> bool) {
    && (forall t <- pcs :: holds(pcs[t]) <==> lock == Some(t))
    && (lock.Some? ==> lock.value in pcs)
  }

  ghost predicate OwnsEach<P, L>(pcs: map<Tid, P>, locks: map<L, Tid>, held: P -> Option<L>) {
    && (forall t <- pcs :: held(pcs[t]).Some? ==> held(pcs[t]).value in locks && locks[held(pcs[t]).value] == t)
    && (forall l <- locks :: locks[l] in pcs && held(pcs[locks[l]]) == Some(l))
  }

  ghost predicate Every<P>(pcs: map<Tid, P>, ok: P -> bool) {
    forall t <- pcs :: ok(pcs[t])
  }

  /** Thread t takes or releases a lock, or leaves it alone. */
  predicate Moves(before: Option<Tid>, after: Option<Tid>, t: Tid, holds: bool) {
    if holds then (before.None? || before == Some(t)) && after == Some(t)
    else after == if before == Some(t) then None else before
  }

  lemma OwnsKept<P>(pcs: map<Tid, P>, lock: Option<Tid>, lock': Option<Tid>, holds: P -> bool, t: Tid, pc: P)
    requires Owns(pcs, lock, holds) && Moves(lock, lock', t, holds(pc))
    ensures Owns(pcs[t := pc], lock', holds)
  {
  }

  /** Thread t takes or releases one of many locks, or leaves them alone. */
  predicate MovesEach<L>(before: map<L, Tid>, after: map<L, Tid>, t: Tid, was: Option<L>, now: Option<L>) {
    if was == now then after == before
    else if now.Some? then was.None? && now.value !in before && after == before[now.value := t]
    else after == before - {was.value}
  }

  lemma OwnsEachKept<P, L>(pcs: map<Tid, P>, locks: map<L, Tid>, locks': map<L, Tid>, held: P -> Option<L>, t: Tid, pc: P)
    requires OwnsEach(pcs, locks, held)
    requires MovesEach(locks, locks', t, if t in pcs then held(pcs[t]) else None, held(pc))
    ensures OwnsEach(pcs[t := pc], locks', held)
  {
  }
}
