/** Idempotent submission under any number of racing submitters. */
module Submission {
  import opened Tables
  import opened Protocol
  import opened Invariant
  import opened Growth

  ghost predicate RepliesBacked(s: State) {
    forall k :: 0 <= k < |s.replies| && s.replies[k].id.Some? ==>
      s.replies[k].id.value in s.db.jobs && s.db.jobs[s.replies[k].id.value].key == s.replies[k].key
  }

  lemma {:induction false} RepliesNameTheJob(run: Run)
    requires Valid(run)
    ensures RepliesBacked(After(run))
  {
    if run != [] {
      var before := run[..|run| - 1];
      RepliesNameTheJob(before);
      Reachable(before);
      StepGrows(After(before), run[|run| - 1]);
    }
  }

  /**
   Any number of racing submitters: a key has at most one job, and every id ever returned for it,
   at any two moments of the run, is that job's.
   */
  lemma SubmitIsIdempotent(run: Run, a: nat, b: nat, p: Reply, q: Reply)
    requires Valid(run) && a <= b <= |run|
    requires p in StateAt(run, a).replies && q in StateAt(run, b).replies && p.key == q.key
    requires p.id.Some? && q.id.Some?
    ensures p.id == q.id
    ensures var jobs := StateAt(run, b).db.jobs;
      forall j :: j in jobs && jobs[j].key == p.key ==> j == p.id.value
  {
    RunGrows(run, a, b);
    ReachableAt(run, b);
    ValidPrefix(run, b);
    RepliesNameTheJob(run[..b]);
    assert p in StateAt(run, b).replies;
  }

  /** A submit that lost the insert race could not read the winner back, though it is there. */
  ghost predicate RecoveryReadFailed(run: Run, k: int, key: Key)
    requires Valid(run)
  {
    && 0 <= k < |run| && run[k].SubmitRecover? && run[k].found.None?
    && run[k].h in StateAt(run, k).handlers && StateAt(run, k).handlers[run[k].h] == SubmitRecovering(key)
    && KeyTaken(StateAt(run, k).db, key)
  }

  ghost predicate LosersHaveWinners(s: State) {
    forall h :: h in s.handlers && s.handlers[h].SubmitRecovering? ==> KeyTaken(s.db, s.handlers[h].key)
  }

  lemma {:induction false} LosersFaceWinners(run: Run)
    requires Valid(run)
    ensures LosersHaveWinners(After(run))
  {
    if run != [] {
      var before, e := run[..|run| - 1], run[|run| - 1];
      LosersFaceWinners(before);
      assert JobsGrow(After(before).db.jobs, After(run).db.jobs) by {
        Reachable(before);
        StepGrows(After(before), e);
      }
      LoserStep(After(before), e);
    }
  }

  lemma LoserStep(s: State, e: Event)
    requires Enabled(s, e) && LosersHaveWinners(s) && JobsGrow(s.db.jobs, Step(s, e).db.jobs)
    ensures LosersHaveWinners(Step(s, e))
  {
    var s' := Step(s, e);
    forall h | h in s'.handlers && s'.handlers[h].SubmitRecovering? ensures KeyTaken(s'.db, s'.handlers[h].key) {
      var key := s'.handlers[h].key;
      assert KeyTaken(s.db, key);
      var j :| j in s.db.jobs && s.db.jobs[j].key == key;
      assert j in s'.db.jobs && s'.db.jobs[j].key == key;
    }
  }

  /** A submit is answered null exactly when such a read failed. */
  lemma {:induction false} NullReplyIffReadFailed(run: Run, key: Key)
    requires Valid(run)
    ensures Reply(key, None) in After(run).replies <==> exists k :: RecoveryReadFailed(run, k, key)
  {
    if run != [] {
      var before, e := run[..|run| - 1], run[|run| - 1];
      NullReplyIffReadFailed(before, key);
      LosersFaceWinners(before);
      forall k | 0 <= k < |before| ensures RecoveryReadFailed(run, k, key) <==> RecoveryReadFailed(before, k, key) {
        assert run[..k] == before[..k];
      }
      var s := After(before);
      assert Reply(key, None) in After(run).replies <==>
        Reply(key, None) in s.replies || RecoveryReadFailed(run, |before|, key);
    }
  }
}
