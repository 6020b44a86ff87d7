/** Resolve once, answer once, for any set of threads. A request is resolved when some
    thread settles its fate and thereby takes on the duty to answer it; the duty ends
    with the answer. `duty` says which counters carry one. */
module Duties {
  import opened Bytes
  import opened Ownership
  import opened Wrappers

  datatype Claim<F> = Claim(id: uint32, fate: F)

  ghost predicate IsAnswered<F>(answers: seq<Option<Claim<F>>>, id: uint32) {
    exists i :: 0 <= i < |answers| && answers[i].Some? && answers[i].value.id == id
  }

  ghost predicate IsOwed<P, F>(pcs: map<Tid, P>, duty: P -> Option<Claim<F>>, id: uint32) {
    exists t :: t in pcs && duty(pcs[t]).Some? && duty(pcs[t]).value.id == id
  }

  predicate Settled<F(==)>(fates: map<uint32, seq<F>>, c: Claim<F>) {
    c.id in fates && fates[c.id] == [c.fate]
  }

  /** Every duty and every answer is for a request that was resolved once and in that
      way; no request has two duties, two answers, or both; and every resolved request
      has one or the other. */
  ghost predicate Pledged<P, F>(
      pcs: map<Tid, P>, duty: P -> Option<Claim<F>>, answers: seq<Option<Claim<F>>>, fates: map<uint32, seq<F>>) {
    && (forall t <- pcs :: duty(pcs[t]).Some? ==>
          Settled(fates, duty(pcs[t]).value) && !IsAnswered(answers, duty(pcs[t]).value.id))
    && (forall t <- pcs, u <- pcs :: t != u && duty(pcs[t]).Some? && duty(pcs[u]).Some? ==>
          duty(pcs[t]).value.id != duty(pcs[u]).value.id)
    && (forall i :: 0 <= i < |answers| && answers[i].Some? ==> Settled(fates, answers[i].value))
    && (forall i, j :: 0 <= i < j < |answers| && answers[i].Some? && answers[j].Some? ==>
          answers[i].value.id != answers[j].value.id)
    && (forall id <- fates :: fates[id] != [] ==> IsAnswered(answers, id) || IsOwed(pcs, duty, id))
  }

  /** Thread t changes its counter without taking on or ending a duty. */
  lemma PledgedIdle<P, F>(
      pcs: map<Tid, P>, duty: P -> Option<Claim<F>>, answers: seq<Option<Claim<F>>>, fates: map<uint32, seq<F>>,
      t: Tid, pc: P)
    requires Pledged(pcs, duty, answers, fates)
    requires duty(pc) == if t in pcs then duty(pcs[t]) else None
    ensures Pledged(pcs[t := pc], duty, answers, fates)
  {
    forall id | IsOwed(pcs, duty, id) ensures IsOwed(pcs[t := pc], duty, id) {
      var u :| u in pcs && duty(pcs[u]).Some? && duty(pcs[u]).value.id == id;
      assert u in pcs[t := pc] && duty(pcs[t := pc][u]).Some?;
    }
  }

  /** A reply that answers nobody. */
  lemma PledgedNoise<P, F>(
      pcs: map<Tid, P>, duty: P -> Option<Claim<F>>, answers: seq<Option<Claim<F>>>, fates: map<uint32, seq<F>>)
    requires Pledged(pcs, duty, answers, fates)
    ensures Pledged(pcs, duty, answers + [None], fates)
  {
    forall id ensures IsAnswered(answers + [None], id) == IsAnswered(answers, id) {
      AnsweredAppend(answers, None, id);
    }
  }

  /** A new request, not yet resolved. */
  lemma PledgedNew<P, F>(
      pcs: map<Tid, P>, duty: P -> Option<Claim<F>>, answers: seq<Option<Claim<F>>>, fates: map<uint32, seq<F>>,
      id: uint32)
    requires Pledged(pcs, duty, answers, fates) && id !in fates
    ensures Pledged(pcs, duty, answers, fates[id := []])
  {
  }

  /** Thread t resolves a request that had not been resolved. */
  lemma PledgedResolve<P, F>(
      pcs: map<Tid, P>, duty: P -> Option<Claim<F>>, answers: seq<Option<Claim<F>>>, fates: map<uint32, seq<F>>,
      t: Tid, pc: P, c: Claim<F>)
    requires Pledged(pcs, duty, answers, fates)
    requires c.id in fates && fates[c.id] == [] && t in pcs && duty(pcs[t]).None? && duty(pc) == Some(c)
    ensures Pledged(pcs[t := pc], duty, answers, fates[c.id := [c.fate]])
  {
    var pcs', fates' := pcs[t := pc], fates[c.id := [c.fate]];
    if IsAnswered(answers, c.id) {
      AnsweredIsResolved(pcs, duty, answers, fates, c.id);
    }
    forall u <- pcs' | duty(pcs'[u]).Some?
      ensures Settled(fates', duty(pcs'[u]).value) && !IsAnswered(answers, duty(pcs'[u]).value.id)
    {
      if u != t {
        assert Settled(fates, duty(pcs[u]).value);
      }
    }
    forall u <- pcs', v <- pcs' | u != v && duty(pcs'[u]).Some? && duty(pcs'[v]).Some?
      ensures duty(pcs'[u]).value.id != duty(pcs'[v]).value.id
    {
      if u == t {
        assert Settled(fates, duty(pcs[v]).value);
      } else if v == t {
        assert Settled(fates, duty(pcs[u]).value);
      }
    }
    forall i | 0 <= i < |answers| && answers[i].Some? ensures Settled(fates', answers[i].value) {
      assert Settled(fates, answers[i].value);
    }
    forall id <- fates' | fates'[id] != [] ensures IsAnswered(answers, id) || IsOwed(pcs', duty, id) {
      ResolvedIsOwed(pcs, duty, answers, fates, t, pc, c, id);
    }
  }

  /** What has been answered has been resolved. */
  lemma AnsweredIsResolved<P, F>(
      pcs: map<Tid, P>, duty: P -> Option<Claim<F>>, answers: seq<Option<Claim<F>>>, fates: map<uint32, seq<F>>,
      id: uint32)
    requires Pledged(pcs, duty, answers, fates) && IsAnswered(answers, id)
    ensures id in fates && fates[id] != []
  {
    var i :| 0 <= i < |answers| && answers[i].Some? && answers[i].value.id == id;
    assert Settled(fates, answers[i].value);
  }

  lemma ResolvedIsOwed<P, F>(
      pcs: map<Tid, P>, duty: P -> Option<Claim<F>>, answers: seq<Option<Claim<F>>>, fates: map<uint32, seq<F>>,
      t: Tid, pc: P, c: Claim<F>, id: uint32)
    requires Pledged(pcs, duty, answers, fates)
    requires t in pcs && duty(pcs[t]).None? && duty(pc) == Some(c) && (id == c.id || (id in fates && fates[id] != []))
    ensures IsAnswered(answers, id) || IsOwed(pcs[t := pc], duty, id)
  {
    if id == c.id {
      assert t in pcs[t := pc] && duty(pcs[t := pc][t]).Some?;
    } else if !IsAnswered(answers, id) {
      assert IsOwed(pcs, duty, id);
      var u :| u in pcs && duty(pcs[u]).Some? && duty(pcs[u]).value.id == id;
      assert u in pcs[t := pc] && duty(pcs[t := pc][u]).Some?;
    }
  }

  lemma AnsweredAppend<F>(answers: seq<Option<Claim<F>>>, a: Option<Claim<F>>, id: uint32)
    ensures IsAnswered(answers + [a], id) <==> IsAnswered(answers, id) || (a.Some? && a.value.id == id)
  {
    var more := answers + [a];
    if IsAnswered(answers, id) {
      var i :| 0 <= i < |answers| && answers[i].Some? && answers[i].value.id == id;
      assert more[i] == answers[i];
    }
    assert more[|answers|] == a;
  }

  /** Thread t answers and is rid of its duty. */
  lemma PledgedAnswer<P, F>(
      pcs: map<Tid, P>, duty: P -> Option<Claim<F>>, answers: seq<Option<Claim<F>>>, fates: map<uint32, seq<F>>,
      t: Tid, pc: P)
    requires Pledged(pcs, duty, answers, fates)
    requires t in pcs && duty(pcs[t]).Some? && duty(pc).None?
    ensures Pledged(pcs[t := pc], duty, answers + [duty(pcs[t])], fates)
  {
    var a := duty(pcs[t]);
    forall id ensures IsAnswered(answers + [a], id) <==> IsAnswered(answers, id) || id == a.value.id {
      AnsweredAppend(answers, a, id);
    }
    forall id | IsOwed(pcs, duty, id) && id != a.value.id ensures IsOwed(pcs[t := pc], duty, id) {
      var u :| u in pcs && duty(pcs[u]).Some? && duty(pcs[u]).value.id == id;
      assert u in pcs[t := pc] && duty(pcs[t := pc][u]).Some?;
    }
    forall i | 0 <= i < |answers| && answers[i].Some? ensures answers[i].value.id != a.value.id {
      assert !IsAnswered(answers, a.value.id);
    }
  }
}
