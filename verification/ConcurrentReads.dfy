/** How stale a read can be, over every interleaving, and what it takes to be stale at all. */
module ConcurrentReads {
  import opened Basics
  import opened Store
  import opened Cache
  import opened ServerModel
  import opened Concurrent

  /** The served HEAD of u is c. */
  ghost predicate Serves(s: State, u: Uri, c: Content) {
    Lookup(s.tables.prompts, u) == Some(c)
  }

  /** Step i answers a GetPrompt for u with c. */
  ghost predicate Answers(r: Run, i: nat, u: Uri, c: Content) {
    && i < |r.steps| && i + 1 < |r.states|
    && r.steps[i].By? && (r.steps[i].action.HitCache? || r.steps[i].action.PutAndAnswer?)
    && r.steps[i].tid in r.states[i + 1].threads
    && r.states[i + 1].threads[r.steps[i].tid].Answered? && r.states[i + 1].threads[r.steps[i].tid].uri == u
    && r.states[i + 1].threads[r.steps[i].tid].resp.content == c
  }

  // ---- where a held or cached version came from ----

  /** At step l request tid read u from the store and found c. */
  ghost predicate Loads(r: Run, l: nat, tid: Tid, u: Uri, c: Content) {
    && l < |r.steps| && l < |r.states|
    && r.steps[l] == By(tid, LoadStore) && Lookup(r.states[l].threads, tid) == Some(Reading(u)) && Serves(r.states[l], u, c)
  }

  /** At step q request tid put u into the cache. */
  ghost predicate Puts(r: Run, q: nat, tid: Tid, u: Uri) {
    && q < |r.steps| && q < |r.states|
    && r.steps[q] == By(tid, PutAndAnswer(false))
    && tid in r.states[q].threads && r.states[q].threads[tid].Holding? && r.states[q].threads[tid].uri == u
  }

  /** Step m clears u, or tries to; dropped says whether the entry is gone. */
  ghost predicate Clears(s: State, l: Label, u: Uri, dropped: bool) {
    && l.By? && l.action.Clear? && l.tid in s.threads
    && (s.threads[l.tid].Committed? || s.threads[l.tid].Reclearing?) && s.threads[l.tid].req.uri == u
    && (dropped <==> l.action.fault != NotCleared(false))
  }

  /** The entry of u at state i was read at step l, put at step q, and has not been cleared since. */
  ghost predicate ComesFrom(p: Params, r: Run, i: nat, u: Uri, l: nat, q: nat, tid: Tid) {
    && l < q < i <= |r.steps| && i < |r.states|
    && u in r.states[i].cache
    && Loads(r, l, tid, u, r.states[i].cache[u].resp.content) && Puts(r, q, tid, u)
    && r.states[i].cache[u] == Entry(HeadResponse(u, r.states[i].cache[u].resp.content), r.states[q].now + p.cfg.ttl)
    && r.states[q].now <= r.states[l].now + p.wait
    && (forall m :: q < m < i ==> !Clears(r.states[m], r.steps[m], u, true))
  }

  lemma {:induction false} TimeMovesForward(p: Params, r: Run, i: nat, j: nat)
    requires IsRun(p, r) && i <= j <= |r.steps|
    ensures r.states[i].now <= r.states[j].now
    decreases j
  {
    if i < j {
      TimeMovesForward(p, r, i, j - 1);
      assert StepAt(p, r, j - 1);
    }
  }

  /** A version in hand was read from the store by the same request, at the time it remembers. */
  lemma {:induction false} HeldWasLoaded(p: Params, r: Run, i: nat, tid: Tid, u: Uri, c: Content, at: int)
    requires IsRun(p, r) && i <= |r.steps| && Lookup(r.states[i].threads, tid) == Some(Holding(u, c, at))
    ensures exists l :: 0 <= l < i && Loads(r, l, tid, u, c) && r.states[l].now == at
  {
    if i > 0 {
      assert StepAt(p, r, i - 1);
      if Lookup(r.states[i - 1].threads, tid) == Some(Holding(u, c, at)) {
        HeldWasLoaded(p, r, i - 1, tid, u, c, at);
      } else {
        assert Loads(r, i - 1, tid, u, c);
      }
    }
  }

  /** An entry either was there before the step, untouched, or was put by it. */
  lemma {:induction false} EntryStep(p: Params, r: Run, i: nat, u: Uri)
    requires IsRun(p, r) && i < |r.steps| && u in r.states[i + 1].cache
    ensures || (&& r.steps[i].By? && Puts(r, i, r.steps[i].tid, u)
                && var th := r.states[i].threads[r.steps[i].tid];
                   r.states[i + 1].cache[u] == Entry(HeadResponse(u, th.content), r.states[i].now + p.cfg.ttl)
                   && r.states[i].now <= th.at + p.wait)
            || (&& u in r.states[i].cache && r.states[i + 1].cache[u] == r.states[i].cache[u]
                && !Clears(r.states[i], r.steps[i], u, true))
  {
    assert StepAt(p, r, i);
  }

  /** A put leaves an entry that its own request read. */
  lemma {:induction false} PutHasOrigin(p: Params, r: Run, i: nat, u: Uri)
    requires IsRun(p, r) && 0 < i <= |r.steps| && u in r.states[i].cache && r.steps[i - 1].By? && Puts(r, i - 1, r.steps[i - 1].tid, u)
    requires var th := r.states[i - 1].threads[r.steps[i - 1].tid];
             r.states[i].cache[u] == Entry(HeadResponse(u, th.content), r.states[i - 1].now + p.cfg.ttl) && r.states[i - 1].now <= th.at + p.wait
    ensures exists l: nat, q: nat, tid: Tid :: ComesFrom(p, r, i, u, l, q, tid)
  {
    var tid := r.steps[i - 1].tid;
    var th := r.states[i - 1].threads[tid];
    HeldWasLoaded(p, r, i - 1, tid, u, th.content, th.at);
    var l :| 0 <= l < i - 1 && Loads(r, l, tid, u, th.content) && r.states[l].now == th.at;
    assert ComesFrom(p, r, i, u, l, i - 1, tid);
  }

  /** An entry left alone by a step keeps its origin. */
  lemma {:induction false} OriginStays(p: Params, r: Run, i: nat, u: Uri, l: nat, q: nat, tid: Tid)
    requires 0 < i <= |r.steps| && i < |r.states| && ComesFrom(p, r, i - 1, u, l, q, tid)
    requires u in r.states[i].cache && r.states[i].cache[u] == r.states[i - 1].cache[u]
    requires !Clears(r.states[i - 1], r.steps[i - 1], u, true)
    ensures ComesFrom(p, r, i, u, l, q, tid)
  {
  }

  /** Every cached entry has such an origin. */
  lemma {:induction false} EntryHasOrigin(p: Params, r: Run, i: nat, u: Uri)
    requires IsRun(p, r) && i <= |r.steps| && u in r.states[i].cache
    ensures exists l: nat, q: nat, tid: Tid :: ComesFrom(p, r, i, u, l, q, tid)
  {
    if i > 0 {
      EntryStep(p, r, i - 1, u);
      if u in r.states[i - 1].cache && r.states[i].cache[u] == r.states[i - 1].cache[u] && !Clears(r.states[i - 1], r.steps[i - 1], u, true) {
        EntryHasOrigin(p, r, i - 1, u);
        var l: nat, q: nat, tid: Tid :| ComesFrom(p, r, i - 1, u, l, q, tid);
        OriginStays(p, r, i, u, l, q, tid);
      } else {
        PutHasOrigin(p, r, i, u);
      }
    }
  }

  // ---- TTL convergence ----

  /**
   * With every clear allowed to fail, an answer given at time t was the served
   * HEAD at some instant no earlier than t - (ttl + wait).
   */
  lemma {:induction false} AnswerIsRecent(p: Params, r: Run, i: nat, u: Uri, c: Content)
    requires IsRun(p, r) && p.cfg.ttl > 0 && Answers(r, i, u, c)
    ensures r.states[i + 1].threads[r.steps[i].tid].resp == HeadResponse(u, c)
    ensures exists j :: 0 <= j <= i && Serves(r.states[j], u, c) && r.states[j].now + p.cfg.ttl + p.wait >= r.states[i].now
  {
    var tid := r.steps[i].tid;
    assert StepAt(p, r, i);
    var th := r.states[i].threads[tid];
    if th.Holding? {
      HeldWasLoaded(p, r, i, tid, u, c, th.at);
      var l :| 0 <= l < i && Loads(r, l, tid, u, c) && r.states[l].now == th.at;
      assert Serves(r.states[l], u, c);
    } else {
      EntryHasOrigin(p, r, i, u);
      var l: nat, q: nat, reader: Tid :| ComesFrom(p, r, i, u, l, q, reader);
      assert Serves(r.states[l], u, c);
    }
  }

  /** Once writes to u stop, every answer later than the TTL plus the wait is the final HEAD. */
  lemma {:induction false} TtlConvergence(p: Params, r: Run, w: nat, i: nat, u: Uri, final: Option<Content>, c: Content)
    requires IsRun(p, r) && p.cfg.ttl > 0 && Answers(r, i, u, c) && w <= i
    requires forall j :: w <= j <= |r.steps| ==> Lookup(r.states[j].tables.prompts, u) == final
    requires r.states[i].now > r.states[w].now + p.cfg.ttl + p.wait
    ensures final == Some(c)
  {
    AnswerIsRecent(p, r, i, u, c);
    var j :| 0 <= j <= i && Serves(r.states[j], u, c) && r.states[j].now + p.cfg.ttl + p.wait >= r.states[i].now;
    if j < w {
      TimeMovesForward(p, r, j, w);
    }
  }

  // ---- exact causes of staleness ----

  /** Step k moves the served HEAD of u, and its writer has yet to clear the cache. */
  ghost predicate MovesHead(r: Run, k: nat, u: Uri) {
    && k < |r.steps| && k + 1 < |r.states|
    && Moves(r.states[k], r.steps[k], u, MAIN)
    && AwaitsClear(r.states[k + 1], r.steps[k].tid, u)
  }

  /** A writer of u is between its commit and its clear. */
  ghost predicate AwaitsClear(s: State, tid: Tid, u: Uri) {
    tid in s.threads && s.threads[tid].Committed? && s.threads[tid].req.uri == u
  }

  /** The clear of u by a writer failed and left the entry in place. */
  ghost predicate FailedClear(r: Run, m: nat, u: Uri) {
    m < |r.steps| && m < |r.states| && Clears(r.states[m], r.steps[m], u, false)
  }

  lemma {:induction false} HeadStep(p: Params, r: Run, k: nat, u: Uri)
    requires IsRun(p, r) && k < |r.steps| && !MovesHead(r, k, u)
    ensures Lookup(r.states[k + 1].tables.prompts, u) == Lookup(r.states[k].tables.prompts, u)
  {
    assert StepAt(p, r, k);
    TablesStep(p, r.states[k], r.steps[k]);
  }

  lemma {:induction false} HeadUnmoved(p: Params, r: Run, i: nat, j: nat, u: Uri)
    requires IsRun(p, r) && i <= j <= |r.steps|
    requires forall k: nat :: i <= k < j ==> !MovesHead(r, k, u)
    ensures Lookup(r.states[j].tables.prompts, u) == Lookup(r.states[i].tables.prompts, u)
    decreases j
  {
    if i < j {
      HeadUnmoved(p, r, i, j - 1, u);
      HeadStep(p, r, j - 1, u);
    }
  }

  /** A writer waiting to clear either still waits, or has taken its clear step. */
  lemma {:induction false} WriterClears(p: Params, r: Run, k: nat, i: nat, tid: Tid, u: Uri)
    requires IsRun(p, r) && k <= i <= |r.steps| && AwaitsClear(r.states[k], tid, u)
    ensures AwaitsClear(r.states[i], tid, u)
         || exists m :: k <= m < i && r.steps[m].By? && r.steps[m].tid == tid && r.steps[m].action.Clear? && AwaitsClear(r.states[m], tid, u)
    decreases i
  {
    if k < i {
      WriterClears(p, r, k, i - 1, tid, u);
      assert StepAt(p, r, i - 1);
      if AwaitsClear(r.states[i - 1], tid, u) && !AwaitsClear(r.states[i], tid, u) {
        assert r.steps[i - 1].By? && r.steps[i - 1].tid == tid && r.steps[i - 1].action.Clear?;
      }
    }
  }

  /**
   * A cached entry differs from the served HEAD only if the reader that put it
   * overlapped a write, or a writer has committed and not cleared yet, or a clear
   * failed after the entry was put.
   */
  lemma {:induction false} StaleOnlyIf(p: Params, r: Run, i: nat, u: Uri)
    requires IsRun(p, r) && i <= |r.steps| && u in r.states[i].cache
    requires !Serves(r.states[i], u, r.states[i].cache[u].resp.content)
    ensures exists l: nat, q: nat, tid: Tid :: ComesFrom(p, r, i, u, l, q, tid)
              && (|| (exists k: nat :: l < k < q && MovesHead(r, k, u))
                  || (exists writer :: AwaitsClear(r.states[i], writer, u))
                  || (exists m: nat :: q < m < i && FailedClear(r, m, u)))
  {
    EntryHasOrigin(p, r, i, u);
    var l: nat, q: nat, tid: Tid :| ComesFrom(p, r, i, u, l, q, tid);
    if forall k: nat :: l <= k < i ==> !MovesHead(r, k, u) {
      HeadUnmoved(p, r, l, i, u);
      assert false;
    } else {
      var k: nat :| l <= k < i && MovesHead(r, k, u);
      if k > q {
        var writer := r.steps[k].tid;
        WriterClears(p, r, k + 1, i, writer, u);
        if !AwaitsClear(r.states[i], writer, u) {
          var m :| k + 1 <= m < i && r.steps[m].By? && r.steps[m].tid == writer && r.steps[m].action.Clear? && AwaitsClear(r.states[m], writer, u);
          assert Clears(r.states[m], r.steps[m], u, r.steps[m].action.fault != NotCleared(false));
          assert FailedClear(r, m, u);
        }
      } else {
        assert k != l && k != q;
      }
    }
  }

  /** No reader of u that put from step since on, and before i, overlapped a write between its load and its put. */
  ghost predicate NoOverlap(r: Run, since: nat, i: nat, u: Uri) {
    forall l: nat, k: nat, q: nat, tid: Tid, c: Content ::
      l < k < q < i && since <= q && Loads(r, l, tid, u, c) && Puts(r, q, tid, u) ==> !MovesHead(r, k, u)
  }

  /** The run is at its start, or its last step cleared u. */
  ghost predicate JustCleared(r: Run, since: nat, u: Uri) {
    since == 0 || (since <= |r.steps| && since <= |r.states| && Clears(r.states[since - 1], r.steps[since - 1], u, true))
  }

  /**
   * A clear heals everything before it: since the start, or since any clear of u
   * that dropped its entry, it is enough that no reader of u overlapped a write and
   * put, that no clear of u failed, and that no writer of u is in flight. Then a
   * cache hit answers the version served at that very moment.
   */
  lemma {:induction false} CleanHitsAreFresh(p: Params, r: Run, since: nat, i: nat, u: Uri, c: Content)
    requires IsRun(p, r) && Answers(r, i, u, c) && r.steps[i].action.HitCache?
    requires since <= i && JustCleared(r, since, u)
    requires NoOverlap(r, since, i, u) && (forall m: nat :: since <= m < i ==> !FailedClear(r, m, u))
    requires forall writer :: !AwaitsClear(r.states[i], writer, u)
    ensures Serves(r.states[i], u, c)
  {
    assert StepAt(p, r, i);
    if !Serves(r.states[i], u, c) {
      StaleOnlyIf(p, r, i, u);
    }
  }
}
