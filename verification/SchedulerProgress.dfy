/** Runs of the scheduler end: a rank that every effective step lowers, and no state stuck above quiescence. */
module SchedulerProgress {
  import opened Wrappers
  import opened Tables
  import opened Scheduling
  import opened SchedulerAnyRun
  import opened SchedulerMachine
  import opened SchedulerSafety

  ghost function TurnTokens(s: State, j: nat): nat {
    match ParentOf(s.db.links, j)
    case None => s.todo[Initial(j)]
    case Some(p) => s.todo[Child(p, j)]
  }

  // How far a job is from its end; its completion goroutine counts as one more step.
  ghost function Phase(s: State, j: nat): nat
    requires j < |s.db.jobs|
  {
    s.todo[Complete(j)] +
    match s.db.jobs[j].status
    case Created => if TurnTokens(s, j) > 0 then 5 else 6
    case QueuedForRun => 4
    case Triggered => 3
    case Started => 2
    case _ => 0
  }

  ghost function Phases(s: State, n: nat): nat
    requires n <= |s.db.jobs|
  {
    if n == 0 then 0 else Phases(s, n - 1) + Phase(s, n - 1)
  }

  ghost function Dispatches(s: State, n: nat): nat {
    if n == 0 then 0 else Dispatches(s, n - 1) + s.todo[Dispatch(n - 1)]
  }

  ghost function Rank(s: State): nat {
    Phases(s, |s.db.jobs|) + Dispatches(s, |s.db.batches|)
  }

  lemma {:induction false} PhasesCompare(s: State, t: State, n: nat)
    requires n <= |s.db.jobs| && n <= |t.db.jobs|
    requires forall j :: 0 <= j < n ==> Phase(t, j) <= Phase(s, j)
    ensures Phases(t, n) <= Phases(s, n)
    ensures (exists j :: 0 <= j < n && Phase(t, j) < Phase(s, j)) ==> Phases(t, n) < Phases(s, n)
    decreases n
  {
    if n > 0 {
      PhasesCompare(s, t, n - 1);
    }
  }

  lemma {:induction false} DispatchesCompare(s: State, t: State, n: nat)
    requires forall b :: t.todo[Dispatch(b)] <= s.todo[Dispatch(b)]
    ensures Dispatches(t, n) <= Dispatches(s, n)
    ensures (exists b :: 0 <= b < n && t.todo[Dispatch(b)] < s.todo[Dispatch(b)]) ==>
      Dispatches(t, n) < Dispatches(s, n)
    decreases n
  {
    if n > 0 {
      DispatchesCompare(s, t, n - 1);
    }
  }

  lemma RankCompare(s: State, t: State)
    requires |s.db.jobs| == |t.db.jobs| && |s.db.batches| == |t.db.batches|
    requires forall j :: 0 <= j < |s.db.jobs| ==> Phase(t, j) <= Phase(s, j)
    requires forall b :: t.todo[Dispatch(b)] <= s.todo[Dispatch(b)]
    ensures Rank(t) <= Rank(s)
    ensures (exists j :: 0 <= j < |s.db.jobs| && Phase(t, j) < Phase(s, j)) ==> Rank(t) < Rank(s)
    ensures (exists b :: 0 <= b < |s.db.batches| && t.todo[Dispatch(b)] < s.todo[Dispatch(b)]) ==> Rank(t) < Rank(s)
  {
    PhasesCompare(s, t, |s.db.jobs|);
    DispatchesCompare(s, t, |s.db.batches|);
  }

  // Starting a cron run, or the cron queueing a queued job again, changes nothing of lasting effect.
  ghost predicate IsStutter(s: State, a: Action, t: State) {
    a.StartCron? || (a.Perform? && a.task.Retry? && t.db == s.db)
  }

  lemma StepLowersRank(limit: int, s: State, a: Action)
    requires Inv(limit, s) && Enabled(s, a) && !a.NewBatch?
    ensures Rank(Next(limit, s, a)) <= Rank(s)
    ensures !IsStutter(s, a, Next(limit, s, a)) ==> Rank(Next(limit, s, a)) < Rank(s)
  {
    match a
    case NewBatch(_, _, _) =>
    case StartCron =>
      forall t: Task | !t.Retry? ensures Next(limit, s, a).todo[t] == s.todo[t] {
        RetryTokensCount(s.db.jobs, |s.db.jobs|, t);
      }
      RankCompare(s, Next(limit, s, a));
    case Report(j, status, allApplied) => ReportLowersRank(limit, s, j, status, allApplied);
    case Perform(task) =>
      match task
      case Dispatch(b) => DispatchLowersRank(limit, s, b);
      case Complete(p) => CompletionLowersRank(limit, s, p);
      case _ => ScheduleLowersRank(limit, s, task);
  }

  lemma ReportLowersRank(limit: int, s: State, j: nat, status: JobStatus, allApplied: bool)
    requires TokensInv(s) && Enabled(s, Report(j, status, allApplied))
    ensures Rank(Next(limit, s, Report(j, status, allApplied))) < Rank(s)
  {
    var t := Next(limit, s, Report(j, status, allApplied));
    assert t.db.jobs == WithStatus(s.db, j, status).jobs && t.db.links == s.db.links;
    forall i | 0 <= i < |s.db.jobs| ensures Phase(t, i) <= Phase(s, i) {
      assert TurnTokens(t, i) == TurnTokens(s, i);
    }
    assert Phase(t, j) < Phase(s, j);
    RankCompare(s, t);
  }

  lemma DispatchLowersRank(limit: int, s: State, b: nat)
    requires TokensInv(s) && Enabled(s, Perform(Dispatch(b)))
    ensures Rank(Next(limit, s, Perform(Dispatch(b)))) < Rank(s)
  {
    var t := Next(limit, s, Perform(Dispatch(b)));
    forall u: Task | u != Dispatch(b) ensures t.todo[u] >= s.todo[u] && (!u.Initial? ==> t.todo[u] == s.todo[u]) {
      InitialTokensCount(s.db, b, |s.db.jobs|, u);
    }
    InitialTokensCount(s.db, b, |s.db.jobs|, Dispatch(b));
    assert t.todo[Dispatch(b)] < s.todo[Dispatch(b)];
    forall i | 0 <= i < |s.db.jobs| ensures Phase(t, i) <= Phase(s, i) {
      MoreTurns(s, t, i);
    }
    RankCompare(s, t);
  }

  lemma CompletionLowersRank(limit: int, s: State, p: nat)
    requires TokensInv(s) && Enabled(s, Perform(Complete(p)))
    ensures Rank(Next(limit, s, Perform(Complete(p)))) < Rank(s)
  {
    var t := Next(limit, s, Perform(Complete(p)));
    assert Fits(s, Complete(p));
    CompletionTokens(s, t.todo, p);
    FewerCompletions(s, t, p);
  }

  lemma FewerCompletions(s: State, t: State, p: nat)
    requires t.db == s.db && p < |s.db.jobs| && t.todo[Complete(p)] < s.todo[Complete(p)]
    requires forall u: Task :: u != Complete(p) ==> t.todo[u] >= s.todo[u] && (!u.Child? ==> t.todo[u] == s.todo[u])
    ensures Rank(t) < Rank(s)
  {
    forall i | 0 <= i < |s.db.jobs| ensures Phase(t, i) <= Phase(s, i) {
      MoreTurns(s, t, i);
    }
    MoreTurns(s, t, p);
    assert Phase(t, p) < Phase(s, p);
    RankCompare(s, t);
  }

  lemma CompletionTokens(s: State, todo: multiset<Task>, p: nat)
    requires DistinctChildren(s.db.links) && Complete(p) in s.todo
    requires todo == s.todo - multiset{Complete(p)} + ChildTokens(s.db.links, p)
    ensures todo[Complete(p)] < s.todo[Complete(p)]
    ensures forall u: Task :: u != Complete(p) ==> todo[u] >= s.todo[u] && (!u.Child? ==> todo[u] == s.todo[u])
  {
    forall u: Task ensures u != Complete(p) ==> todo[u] >= s.todo[u] && (!u.Child? ==> todo[u] == s.todo[u]) {
      ChildTokensCount(s.db.links, p, u);
    }
    ChildTokensCount(s.db.links, p, Complete(p));
  }

  lemma MoreTurns(s: State, t: State, i: nat)
    requires i < |s.db.jobs| && t.db == s.db
    requires TurnTokens(t, i) >= TurnTokens(s, i) && t.todo[Complete(i)] <= s.todo[Complete(i)]
    ensures Phase(t, i) <= Phase(s, i)
    ensures t.todo[Complete(i)] < s.todo[Complete(i)] ==> Phase(t, i) < Phase(s, i)
  {}

  lemma ScheduleLowersRank(limit: int, s: State, task: Task)
    requires TokensInv(s) && Enabled(s, Perform(task)) && !task.Dispatch? && !task.Complete?
    ensures Rank(Next(limit, s, Perform(task))) <= Rank(s)
    ensures !IsStutter(s, Perform(task), Next(limit, s, Perform(task))) ==>
      Rank(Next(limit, s, Perform(task))) < Rank(s)
  {
    var j, t := task.job, Next(limit, s, Perform(task));
    TaskIsDue(s, task, j);
    assert Owned(s, j);
    ScheduleEffect(limit, s, task);
    forall i | 0 <= i < |s.db.jobs| && i != j ensures Phase(t, i) == Phase(s, i) {
      OtherTurns(s, t, task, i);
    }
    assert Phase(t, j) <= Phase(s, j);
    assert t.db.jobs[j].status != s.db.jobs[j].status ==> Phase(t, j) < Phase(s, j);
    RankCompare(s, t);
  }

  lemma ScheduleEffect(limit: int, s: State, task: Task)
    requires TokensInv(s) && Enabled(s, Perform(task)) && !task.Dispatch? && !task.Complete?
    ensures var j, t := task.job, Next(limit, s, Perform(task));
            && t.todo == s.todo - multiset{task}
            && |t.db.jobs| == |s.db.jobs| && t.db.links == s.db.links && t.db.batches == s.db.batches
            && (forall i :: 0 <= i < |s.db.jobs| && i != j ==> t.db.jobs[i] == s.db.jobs[i])
            && (t.db.jobs[j].status == Triggered || t.db.jobs[j].status == QueuedForRun)
            && (t.db.jobs[j].status == s.db.jobs[j].status ==> t.db == s.db)
  {
    TaskIsDue(s, task, task.job);
  }

  lemma OtherTurns(s: State, t: State, task: Task, i: nat)
    requires t.todo == s.todo - multiset{task} && t.db.links == s.db.links
    requires (task.Initial? || task.Child? || task.Retry?) && task.job != i
    ensures TurnTokens(t, i) == TurnTokens(s, i) && t.todo[Complete(i)] == s.todo[Complete(i)]
  {}

  ghost function Cost(states: seq<State>, actions: seq<Action>, m: nat): nat
    requires m < |actions| && m + 1 < |states|
  {
    if IsStutter(states[m], actions[m], states[m + 1]) then 0 else 1
  }

  // The number of steps from i to k that have a lasting effect.
  ghost function EffectiveSteps(states: seq<State>, actions: seq<Action>, i: nat, k: nat): nat
    requires i <= k <= |actions| && |states| == |actions| + 1
  {
    if i == k then 0 else EffectiveSteps(states, actions, i, k - 1) + Cost(states, actions, k - 1)
  }

  lemma {:induction false} CostsBounded(states: seq<State>, actions: seq<Action>, i: nat, k: nat)
    requires i <= k <= |actions| && |states| == |actions| + 1
    requires forall m {:trigger Cost(states, actions, m)} :: i <= m < k ==>
      Cost(states, actions, m) + Rank(states[m + 1]) <= Rank(states[m])
    ensures EffectiveSteps(states, actions, i, k) + Rank(states[k]) <= Rank(states[i])
    decreases k
  {
    if i < k {
      CostsBounded(states, actions, i, k - 1);
      assert Cost(states, actions, k - 1) + Rank(states[k - 1 + 1]) <= Rank(states[k - 1]);
    }
  }

  lemma EffectiveStepsBounded(limit: int, states: seq<State>, actions: seq<Action>, i: nat, k: nat)
    requires IsRun(limit, states, actions) && NoOverlap(states, actions) && i <= k <= |actions|
    requires forall m :: i <= m < k ==> !actions[m].NewBatch?
    ensures EffectiveSteps(states, actions, i, k) + Rank(states[k]) <= Rank(states[i])
  {
    forall m {:trigger Cost(states, actions, m)} | i <= m < k
      ensures Cost(states, actions, m) + Rank(states[m + 1]) <= Rank(states[m])
    {
      RunStepLowersRank(limit, states, actions, m);
    }
    CostsBounded(states, actions, i, k);
  }

  lemma RunStepLowersRank(limit: int, states: seq<State>, actions: seq<Action>, m: nat)
    requires IsRun(limit, states, actions) && NoOverlap(states, actions) && m < |actions| && !actions[m].NewBatch?
    ensures Cost(states, actions, m) + Rank(states[m + 1]) <= Rank(states[m])
  {
    RunKeepsInv(limit, states, actions, m);
    StepLowersRank(limit, states[m], actions[m]);
  }

  lemma {:induction false} PhasesBounded(s: State, n: nat)
    requires TokensInv(s) && n <= |s.db.jobs|
    ensures Phases(s, n) <= 6 * n
    decreases n
  {
    if n > 0 {
      PhasesBounded(s, n - 1);
      assert Owned(s, n - 1);
    }
  }

  lemma {:induction false} DispatchesBounded(s: State, n: nat)
    requires TokensInv(s)
    ensures Dispatches(s, n) <= n
    decreases n
  {
    if n > 0 {
      DispatchesBounded(s, n - 1);
    }
  }

  // Once no more batches arrive, at most six effective steps per job and one per batch remain.
  lemma RunsAreBounded(limit: int, states: seq<State>, actions: seq<Action>, i: nat, k: nat)
    requires IsRun(limit, states, actions) && NoOverlap(states, actions) && i <= k <= |actions|
    requires forall m :: i <= m < k ==> !actions[m].NewBatch?
    ensures EffectiveSteps(states, actions, i, k) <= 6 * |states[i].db.jobs| + |states[i].db.batches|
  {
    RunKeepsInv(limit, states, actions, i);
    EffectiveStepsBounded(limit, states, actions, i, k);
    PhasesBounded(states[i], |states[i].db.jobs|);
    DispatchesBounded(states[i], |states[i].db.batches|);
  }

  // Unless quiescent, the system or a worker can make an effective step, after a cron start if need be;
  // so with a limit of 0 or more no state is stuck.
  lemma NeverStuck(limit: int, s: State) returns (cron: bool, a: Action)
    requires Inv(limit, s) && limit >= 0 && !Quiescent(s)
    ensures cron ==> NoRetry(s)
    ensures var t := if cron then Next(limit, s, StartCron) else s;
            !a.NewBatch? && Enabled(t, a) && !IsStutter(t, a, Next(limit, t, a)) && Rank(Next(limit, t, a)) < Rank(s)
  {
    cron := false;
    if j :| 0 <= j < |s.db.jobs| && Running(s.db.jobs[j].status) {
      a := Report(j, Failed, false);
      StepLowersRank(limit, s, a);
    } else if t :| t in s.todo && !t.Retry? {
      a := Perform(t);
      assert Fits(s, t);
      StepLowersRank(limit, s, a);
    } else if t :| t in s.todo {
      a := Perform(t);
      assert Fits(s, t);
      TaskIsDue(s, t, t.job);
      IdleBatchTriggers(limit, s, t.job);
      StepLowersRank(limit, s, a);
    } else {
      assert s.todo == multiset{};
      var j :| 0 <= j < |s.db.jobs| && s.db.jobs[j].status == QueuedForRun;
      cron := true;
      var t := Next(limit, s, StartCron);
      RetryTokensCount(s.db.jobs, |s.db.jobs|, Retry(j));
      StepKeepsInv(limit, s, StartCron);
      StepLowersRank(limit, s, StartCron);
      a := Perform(Retry(j));
      IdleBatchTriggers(limit, t, j);
      StepLowersRank(limit, t, a);
    }
  }

  lemma IdleBatchTriggers(limit: int, s: State, j: nat)
    requires limit >= 0 && j < |s.db.jobs| && s.db.jobs[j].status == QueuedForRun
    requires forall i :: 0 <= i < |s.db.jobs| ==> !Running(s.db.jobs[i].status)
    ensures AfterSchedule(limit, s.db, s.db.jobs[j].batch, j) == AfterTrigger(s.db, j)
    ensures AfterTrigger(s.db, j) != s.db
  {
    assert ActiveJobs(s.db.jobs, s.db.jobs[j].batch) == {};
    assert AfterTrigger(s.db, j).jobs[j].status == Triggered;
  }
}
