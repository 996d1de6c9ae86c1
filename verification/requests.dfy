/**
 Every request is answered once: over any run the requests opened are those still waiting, those answered
 and those abandoned. So one report gets at most one ack, and one cancel is written at most once.
 */
module Requests {
  import opened Tables
  import opened Protocol

  datatype Topic = Submits | Cancels | Reports

  function TopicOf(h: Handler): Topic {
    match h
    case SubmitInserting(_) => Submits
    case SubmitRecovering(_) => Submits
    case Cancelling(_) => Cancels
    case Committing(_, _, _, _) => Reports
    case Rereading(_, _) => Reports
  }

  /** The handlers with a request on this topic still open. */
  ghost function Waiting(s: State, topic: Topic): set<nat> {
    set h | h in s.handlers && TopicOf(s.handlers[h]) == topic
  }

  /** Requests on the topic that came in. */
  function Opened(run: Run, topic: Topic): nat {
    if run == [] then 0
    else
      var e := run[|run| - 1];
      Opened(run[..|run| - 1], topic)
      + match topic
        case Submits => if e.SubmitCheck? then 1 else 0
        case Cancels => if e.CancelCheck? then 1 else 0
        case Reports => if e.ResultLookup? then 1 else 0
  }

  /** Requests on the topic that a crash or an error ended. */
  function GivenUp(run: Run, topic: Topic): nat
    requires Valid(run)
  {
    if run == [] then 0
    else
      var before, e := run[..|run| - 1], run[|run| - 1];
      GivenUp(before, topic) + if e.Abandon? && TopicOf(After(before).handlers[e.h]) == topic then 1 else 0
  }

  /** How many writes of a cancel, and how many re-reads of a report, the run has. */
  function Writes(run: Run): nat {
    if run == [] then 0 else Writes(run[..|run| - 1]) + if run[|run| - 1].CancelWrite? then 1 else 0
  }

  function Rereads(run: Run): nat {
    if run == [] then 0 else Rereads(run[..|run| - 1]) + if run[|run| - 1].ResultReread? then 1 else 0
  }

  /** The handlers a step leaves: one may be new, one may be done. */
  lemma WaitingAfter(s: State, s': State, h: nat, topic: Topic)
    requires forall x :: x != h ==> (x in s.handlers <==> x in s'.handlers)
    requires forall x :: x != h && x in s.handlers && x in s'.handlers ==> s'.handlers[x] == s.handlers[x]
    ensures |Waiting(s', topic)| + (if h in Waiting(s, topic) then 1 else 0)
         == |Waiting(s, topic)| + (if h in Waiting(s', topic) then 1 else 0)
  {
    SameButFor(Waiting(s, topic), Waiting(s', topic), h);
  }

  lemma SameButFor(a: set<nat>, b: set<nat>, h: nat)
    requires forall x :: x != h ==> (x in a <==> x in b)
    ensures |b| + (if h in a then 1 else 0) == |a| + (if h in b then 1 else 0)
  {
    Without(a, h);
    Without(b, h);
    assert a - {h} == b - {h};
  }

  lemma Without(a: set<nat>, h: nat)
    ensures |a - {h}| + (if h in a then 1 else 0) == |a|
  {
    if h !in a {
      assert a - {h} == a;
    }
  }

  /** The answers of this step on each topic. */
  ghost predicate AnswersOnce(s: State, e: Event)
    requires Enabled(s, e)
  {
    var s' := Step(s, e);
    && |Waiting(s', Submits)| + |s'.replies| + (if e.Abandon? && TopicOf(s.handlers[e.h]) == Submits then 1 else 0)
         == |Waiting(s, Submits)| + |s.replies| + (if e.SubmitCheck? then 1 else 0)
    && |Waiting(s', Cancels)| + (if e.CancelWrite? then 1 else 0)
         + (if e.Abandon? && TopicOf(s.handlers[e.h]) == Cancels then 1 else 0)
         == |Waiting(s, Cancels)| + (if e.CancelCheck? then 1 else 0)
    && |Waiting(s', Reports)| + |s'.db.commits| + (if e.ResultReread? then 1 else 0)
         + (if e.Abandon? && TopicOf(s.handlers[e.h]) == Reports then 1 else 0)
         == |Waiting(s, Reports)| + |s.db.commits| + (if e.ResultLookup? then 1 else 0)
  }

  lemma AnswerStep(s: State, e: Event)
    requires Enabled(s, e)
    ensures AnswersOnce(s, e)
  {
    if e.SubmitCheck? || e.SubmitInsert? || e.SubmitRecover? || e.CancelCheck? || e.CancelWrite?
       || e.ResultLookup? || e.ResultWrite? || e.ResultReread? || e.Abandon? {
      HandlerStep(s, e);
    } else {
      assert Step(s, e).handlers == s.handlers;
      assert forall topic :: Waiting(Step(s, e), topic) == Waiting(s, topic);
    }
  }

  lemma HandlerStep(s: State, e: Event)
    requires Enabled(s, e)
    requires e.SubmitCheck? || e.SubmitInsert? || e.SubmitRecover? || e.CancelCheck? || e.CancelWrite?
      || e.ResultLookup? || e.ResultWrite? || e.ResultReread? || e.Abandon?
    ensures AnswersOnce(s, e)
  {
    WaitingAfter(s, Step(s, e), e.h, Submits);
    WaitingAfter(s, Step(s, e), e.h, Cancels);
    WaitingAfter(s, Step(s, e), e.h, Reports);
  }

  /** Requests opened = waiting + answered + given up, on each topic, over every run. */
  lemma {:induction false} EveryRequestIsAnsweredOnce(run: Run)
    requires Valid(run)
    ensures var s := After(run);
      && Opened(run, Submits) == |Waiting(s, Submits)| + |s.replies| + GivenUp(run, Submits)
      && Opened(run, Cancels) == |Waiting(s, Cancels)| + Writes(run) + GivenUp(run, Cancels)
      && Opened(run, Reports) == |Waiting(s, Reports)| + |s.db.commits| + Rereads(run) + GivenUp(run, Reports)
  {
    if run == [] {
      assert Waiting(INITIAL, Submits) == Waiting(INITIAL, Cancels) == Waiting(INITIAL, Reports) == {};
    } else {
      var before := run[..|run| - 1];
      EveryRequestIsAnsweredOnce(before);
      AnswerStep(After(before), run[|run| - 1]);
    }
  }

  // Acks

  /** Re-reads that worked and found their job SUCCEEDED. */
  function Reacks(run: Run): nat
    requires Valid(run)
  {
    if run == [] then 0
    else
      var before, e := run[..|run| - 1], run[|run| - 1];
      var s := After(before);
      Reacks(before) +
      if e.ResultReread? && e.readOk
         && s.handlers[e.h].job in s.db.jobs && s.db.jobs[s.handlers[e.h].job].status == Succeeded then 1 else 0
  }

  /** Exactly what a step sends and suppresses: the commit's ack unless dropped, and a re-ack on SUCCEEDED. */
  lemma AcksExactly(s: State, e: Event)
    requires Enabled(s, e)
    ensures e.ResultWrite? ==>
      var c := s.handlers[e.h];
      var accepted := Holds(s.db, c.job, c.worker, c.token) && HasStatus(s.db, c.job, Dispatched);
      && |Step(s, e).db.commits| == |s.db.commits| + (if accepted then 1 else 0)
      && Step(s, e).acks == s.acks + (if accepted && !e.drop then [Ack(c.worker, c.job)] else [])
      && Step(s, e).drops == s.drops + (if accepted && e.drop then [c.job] else [])
    ensures e.ResultReread? ==>
      var c := s.handlers[e.h];
      && Step(s, e).db == s.db && Step(s, e).drops == s.drops
      && Step(s, e).acks ==
           s.acks + (if e.readOk && HasStatus(s.db, c.job, Succeeded) then [Ack(c.worker, c.job)] else [])
    ensures !e.ResultWrite? && !e.ResultReread? ==>
      Step(s, e).acks == s.acks && Step(s, e).drops == s.drops && Step(s, e).db.commits == s.db.commits
  {
  }

  /** Acks sent and suppressed are the commits and the re-reads that found one, hence never more than reports. */
  lemma {:induction false} AcksNeverExceedReports(run: Run)
    requires Valid(run)
    ensures |After(run).acks| + |After(run).drops| == |After(run).db.commits| + Reacks(run)
    ensures |After(run).acks| + |After(run).drops| <= Opened(run, Reports)
  {
    AcksAreCounted(run);
    EveryRequestIsAnsweredOnce(run);
  }

  lemma {:induction false} AcksAreCounted(run: Run)
    requires Valid(run)
    ensures |After(run).acks| + |After(run).drops| == |After(run).db.commits| + Reacks(run)
    ensures Reacks(run) <= Rereads(run)
  {
    if run != [] {
      var before := run[..|run| - 1];
      AcksAreCounted(before);
      AcksExactly(After(before), run[|run| - 1]);
    }
  }
}
