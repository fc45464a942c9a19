/** Why cron runs must not overlap: a job that two of them have fetched is dispatched twice, or queued while it runs. */
module SchedulerOverlap {
  import opened Tables
  import opened Scheduling
  import opened SchedulerMachine
  import opened SchedulerSafety

  // Continuations that start no cron run

  ghost predicate NoCron(actions: seq<Action>) {
    forall a :: a in actions ==> !a.StartCron?
  }

  lemma Extend(limit: int, states: seq<State>, actions: seq<Action>, a: Action)
    returns (longer: seq<State>, more: seq<Action>)
    requires Continues(limit, states, actions) && Enabled(states[|actions|], a)
    ensures Continues(limit, longer, more) && more == actions + [a]
    ensures longer == states + [Next(limit, states[|actions|], a)]
  {
    longer, more := states + [Next(limit, states[|actions|], a)], actions + [a];
    forall i {:trigger more[i]} | 0 <= i < |more|
      ensures Enabled(longer[i], more[i]) && longer[i + 1] == Next(limit, longer[i], more[i])
    {
      if i < |actions| {
        assert more[i] == actions[i];
      }
    }
  }

  ghost predicate RowsInRange(db: Db) {
    forall j :: 0 <= j < |db.jobs| ==> db.jobs[j].batch < |db.batches|
  }

  // A failure report frees the job's place in its batch and touches neither tokens nor dispatches nor other jobs.
  lemma FailedReport(limit: int, s: State, j: nat)
    requires RowsInRange(s.db) && j < |s.db.jobs| && Running(s.db.jobs[j].status)
    ensures Enabled(s, Report(j, Failed, false))
    ensures var t := Next(limit, s, Report(j, Failed, false));
            && t.db.jobs == WithStatus(s.db, j, Failed).jobs && RowsInRange(t.db)
            && t.todo == s.todo && t.db.dispatched == s.db.dispatched
            && ActiveJobs(t.db.jobs, s.db.jobs[j].batch) == ActiveJobs(s.db.jobs, s.db.jobs[j].batch) - {j}
  {
    ActiveAfter(s.db, j, Failed, s.db.jobs[j].batch);
  }

  // All running jobs of a batch fail.
  lemma {:induction false} AllFail(limit: int, states: seq<State>, actions: seq<Action>, b: nat, j: nat)
    returns (longer: seq<State>, more: seq<Action>)
    requires Continues(limit, states, actions)
    requires var s := states[|actions|]; RowsInRange(s.db) && j < |s.db.jobs| && s.db.jobs[j].status == QueuedForRun
    ensures Continues(limit, longer, more) && longer[0] == states[0]
    ensures |more| >= |actions| && more[..|actions|] == actions && NoCron(more[|actions|..])
    ensures var s, t := states[|actions|], longer[|more|];
            && RowsInRange(t.db) && j < |t.db.jobs| && t.db.jobs[j] == s.db.jobs[j]
            && t.todo == s.todo && t.db.dispatched == s.db.dispatched && ActiveJobs(t.db.jobs, b) == {}
    decreases |ActiveJobs(states[|actions|].db.jobs, b)|
  {
    var s := states[|actions|];
    if i :| i in ActiveJobs(s.db.jobs, b) {
      FailedReport(limit, s, i);
      var one;
      longer, one := Extend(limit, states, actions, Report(i, Failed, false));
      longer, more := AllFail(limit, longer, one, b, j);
      NoCronAfter(actions, Report(i, Failed, false), more);
    } else {
      longer, more := states, actions;
      assert more[|actions|..] == [];
    }
  }

  lemma NoCronAfter(actions: seq<Action>, a: Action, more: seq<Action>)
    requires |more| > |actions| && more[..|actions| + 1] == actions + [a]
    requires !a.StartCron? && NoCron(more[|actions| + 1..])
    ensures more[..|actions|] == actions && NoCron(more[|actions|..])
  {
    assert more[..|actions|] == more[..|actions| + 1][..|actions|];
    assert more[|actions|..] == [more[..|actions| + 1][|actions|]] + more[|actions| + 1..];
  }

  // The turn of a fetched job, whatever has become of it since, in a batch where nothing runs.
  lemma RetryTriggers(limit: int, s: State, j: nat)
    requires limit >= 0 && j < |s.db.jobs| && Retry(j) in s.todo && ActiveJobs(s.db.jobs, s.db.jobs[j].batch) == {}
    ensures Enabled(s, Perform(Retry(j)))
    ensures Next(limit, s, Perform(Retry(j))) ==
            State(AfterTrigger(s.db, j), s.todo - multiset{Retry(j)}, s.plans)
  {}

  // With its place full, a running job goes back to the queue although its workflow goes on.
  lemma RetryRequeuesRunning(limit: int, s: State, j: nat)
    requires j < |s.db.jobs| && Retry(j) in s.todo && Running(s.db.jobs[j].status)
    requires limit != 0 && |ActiveJobs(s.db.jobs, s.db.jobs[j].batch)| >= limit
    ensures Enabled(s, Perform(Retry(j)))
    ensures var t := Next(limit, s, Perform(Retry(j)));
            t.db.jobs[j].status == QueuedForRun && t.db.dispatched == s.db.dispatched
  {}

  ghost predicate DispatchesTwice(db: Db) {
    exists k, m :: 0 <= k < m < |db.dispatched| && db.dispatched[k] == db.dispatched[m]
  }

  // Two turns of one fetched job: both dispatch it, when the first workflow has failed before the second turn.
  lemma TwoTurns(limit: int, states: seq<State>, actions: seq<Action>, j: nat)
    returns (longer: seq<State>, more: seq<Action>)
    requires limit >= 0 && Continues(limit, states, actions)
    requires var s := states[|actions|];
             && RowsInRange(s.db) && j < |s.db.jobs| && s.todo[Retry(j)] >= 2
             && ActiveJobs(s.db.jobs, s.db.jobs[j].batch) == {}
    ensures Continues(limit, longer, more) && longer[0] == states[0]
    ensures more == actions + [Perform(Retry(j)), Report(j, Failed, false), Perform(Retry(j))]
    ensures longer[|more|].db.dispatched == states[|actions|].db.dispatched + [j, j]
  {
    var s := states[|actions|];
    var b := s.db.jobs[j].batch;
    RetryTriggers(limit, s, j);
    longer, more := Extend(limit, states, actions, Perform(Retry(j)));
    var t := longer[|more|];
    ActiveAfter(s.db, j, Triggered, b);
    assert ActiveJobs(t.db.jobs, b) == {j};
    FailedReport(limit, t, j);
    longer, more := Extend(limit, longer, more, Report(j, Failed, false));
    var u := longer[|more|];
    assert u.db.jobs[j].batch == b && ActiveJobs(u.db.jobs, b) == {};
    RetryTriggers(limit, u, j);
    longer, more := Extend(limit, longer, more, Perform(Retry(j)));
  }

  // A cron run that starts while another holds a job makes two turns for it; then two dispatches are possible.

  lemma TwoTurnsStart(limit: int, s: State) returns (j: nat)
    requires Inv(limit, s) && !NoRetry(s)
    ensures RowsInRange(s.db) && j < |s.db.jobs| && s.db.jobs[j].status == QueuedForRun
    ensures (s.todo + RetryTokens(s.db.jobs, |s.db.jobs|))[Retry(j)] == 2
  {
    var t :| t in s.todo && t.Retry?;
    j := t.job;
    assert Fits(s, t) && Owned(s, j);
    RetryTokensCount(s.db.jobs, |s.db.jobs|, Retry(j));
  }

  lemma OverlapCanDispatchTwice(limit: int, s: State) returns (states: seq<State>, actions: seq<Action>)
    requires Inv(limit, s) && limit >= 0 && !NoRetry(s)
    ensures Continues(limit, states, actions) && states[0] == s
    ensures |actions| > 0 && actions[0] == StartCron && NoCron(actions[1..])
    ensures DispatchesTwice(states[|actions|].db)
  {
    var j := TwoTurnsStart(limit, s);
    states, actions := CronThenFailures(limit, s, j);
    var failures := actions;
    states, actions := TwoTurns(limit, states, actions, j);
    var dispatched := states[|actions|].db.dispatched;
    var n := |dispatched|;
    assert dispatched[n - 2] == dispatched[n - 1];
    assert actions[1..] == failures[1..] + [Perform(Retry(j)), Report(j, Failed, false), Perform(Retry(j))];
  }

  lemma CronThenFailures(limit: int, s: State, j: nat) returns (states: seq<State>, actions: seq<Action>)
    requires RowsInRange(s.db) && j < |s.db.jobs| && s.db.jobs[j].status == QueuedForRun
    ensures Continues(limit, states, actions) && states[0] == s
    ensures |actions| > 0 && actions[0] == StartCron && NoCron(actions[1..])
    ensures var t := states[|actions|];
            && RowsInRange(t.db) && j < |t.db.jobs|
            && t.todo == s.todo + RetryTokens(s.db.jobs, |s.db.jobs|) && ActiveJobs(t.db.jobs, t.db.jobs[j].batch) == {}
  {
    states, actions := [s], [];
    states, actions := Extend(limit, states, actions, StartCron);
    states, actions := AllFail(limit, states, actions, s.db.jobs[j].batch, j);
    assert actions[..1][0] == StartCron;
  }

  // A cron start can lead to a job dispatched twice, with no further cron run, if and only if another cron run
  // still holds a job at that moment.
  lemma OverlapIff(limit: int, s: State)
    requires Inv(limit, s) && limit >= 0
    ensures (exists states: seq<State>, actions: seq<Action> ::
               && Continues(limit, states, actions) && states[0] == s
               && |actions| > 0 && actions[0] == StartCron && NoCron(actions[1..])
               && DispatchesTwice(states[|actions|].db)) <==> !NoRetry(s)
  {
    if !NoRetry(s) {
      var states, actions := OverlapCanDispatchTwice(limit, s);
    }
    forall states: seq<State>, actions: seq<Action> |
      && Continues(limit, states, actions) && states[0] == s
      && |actions| > 0 && actions[0] == StartCron && NoCron(actions[1..]) && NoRetry(s)
      ensures !DispatchesTwice(states[|actions|].db)
    {
      OnlyFirstStart(states, actions);
      ContinuationKeepsInv(limit, states, actions, |actions|);
    }
  }

  lemma OnlyFirstStart(states: seq<State>, actions: seq<Action>)
    requires |states| == |actions| + 1 && |actions| > 0 && NoCron(actions[1..]) && NoRetry(states[0])
    ensures NoOverlap(states, actions)
  {
    forall i {:trigger actions[i]} | 0 < i < |actions| ensures !actions[i].StartCron? {
      assert actions[i] == actions[1..][i - 1] && actions[1..][i - 1] in actions[1..];
    }
  }
}
