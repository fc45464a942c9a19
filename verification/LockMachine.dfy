/** All interleavings of lock operations by any number of pull requests, and of pull requests closing and reopening. */
module LockMachine {
  import opened Wrappers
  import opened LockStore
  import opened PullRequestLocks
  import opened LockCommands

  datatype PullRequest = PullRequest(repo: string, number: int, org: nat)

  // closed: the closed pull requests of each repository.
  datatype State = State(rows: seq<LockRow>, closed: set<(string, int)>)

  datatype Action =
    | Acquire(pr: PullRequest, project: string, ciAnswers: bool)
    | Release(pr: PullRequest, project: string)
    | Force(repo: string, project: string)
    | Cleanup(pr: PullRequest)
    | Close(repo: string, number: int)
    | Reopen(repo: string, number: int)

  function RepoOf(a: Action): string {
    match a
    case Acquire(pr, _, _) => pr.repo
    case Release(pr, _) => pr.repo
    case Force(repo, _) => repo
    case Cleanup(pr) => pr.repo
    case Close(repo, _) => repo
    case Reopen(repo, _) => repo
  }

  // The CI service of a repository knows the pull requests of that repository, if it answers at all.
  function Answers(s: State, repo: string, ciAnswers: bool): int -> PrState {
    h => if !ciAnswers then Unknown else if (repo, h) in s.closed then Closed else Open
  }

  function Next(s: State, a: Action): State {
    match a
    case Acquire(pr, project, ciAnswers) =>
      s.(rows := AfterAcquire(s.rows, LockId(pr.repo, project), pr.number, pr.org, Answers(s, pr.repo, ciAnswers)))
    case Release(pr, project) =>
      var resource := LockId(pr.repo, project);
      if HolderIn(s.rows, resource) == Some(pr.number) then s.(rows := Without(s.rows, resource)) else s
    case Force(repo, project) => s.(rows := Without(s.rows, LockId(repo, project)))
    case Cleanup(pr) => s.(rows := Cleaned(s.rows, pr.number, pr.repo, pr.org))
    case Close(repo, number) => s.(closed := s.closed + {(repo, number)})
    case Reopen(repo, number) => s.(closed := s.closed - {(repo, number)})
  }

  // Repository names do not contain the separator of resource names.
  ghost predicate IsRun(states: seq<State>, actions: seq<Action>) {
    && |states| == |actions| + 1 && states[0].rows == []
    && forall i {:trigger actions[i]} :: 0 <= i < |actions| ==>
      '#' !in RepoOf(actions[i]) && states[i + 1] == Next(states[i], actions[i])
  }

  lemma StepKeepsOneRowEach(s: State, a: Action)
    requires OneRowEach(s.rows)
    ensures OneRowEach(Next(s, a).rows)
  {
    match a
    case Acquire(pr, project, ciAnswers) =>
      AcquireRefines(s.rows, LockId(pr.repo, project), pr.number, pr.org, Answers(s, pr.repo, ciAnswers));
    case Release(pr, project) => WithoutKeepsOneRowEach(s.rows, LockId(pr.repo, project));
    case Force(repo, project) => WithoutKeepsOneRowEach(s.rows, LockId(repo, project));
    case Cleanup(pr) => CleanedKeepsOneRowEach(s.rows, pr.number, pr.repo, pr.org);
    case Close(_, _) =>
    case Reopen(_, _) =>
  }

  // What each step is there for: the holder's release, any force and the holder's cleanup free the resource; closing
  // and reopening a pull request changes no lock.
  lemma StepsTakeEffect(s: State, a: Action, repo: string, project: string)
    requires OneRowEach(s.rows)
    ensures var resource := LockId(repo, project);
            var was, now := HolderIn(s.rows, resource), HolderIn(Next(s, a).rows, resource);
            match a
            case Acquire(_, _, _) => Next(s, a).closed == s.closed
            case Release(pr, p) =>
              pr.repo == repo && p == project ==> now == if was == Some(pr.number) then None else was
            case Force(r, p) => r == repo && p == project ==> now == None
            case Cleanup(pr) => LockRow(resource, pr.number, pr.org) in s.rows && pr.repo <= resource ==> now == None
            case Close(r, n) => Next(s, a) == State(s.rows, s.closed + {(r, n)})
            case Reopen(r, n) => Next(s, a) == State(s.rows, s.closed - {(r, n)})
  {
    var resource := LockId(repo, project);
    match a
    case Acquire(_, _, _) =>
    case Release(pr, p) => NoHolderWithout(s.rows, LockId(pr.repo, p));
    case Force(r, p) => NoHolderWithout(s.rows, LockId(r, p));
    case Cleanup(pr) =>
      if LockRow(resource, pr.number, pr.org) in s.rows && pr.repo <= resource {
        OwnLockCleaned(s.rows, pr.number, pr.repo, pr.org, resource);
      }
    case Close(_, _) =>
    case Reopen(_, _) =>
  }

  lemma NoHolderWithout(rows: seq<LockRow>, resource: string)
    ensures HolderIn(Without(rows, resource), resource) == None
  {
    HoldersLookup(Without(rows, resource), resource);
    WithoutKeeps(rows, resource);
  }

  lemma OwnLockCleaned(rows: seq<LockRow>, pr: int, repo: string, org: nat, resource: string)
    requires OneRowEach(rows) && LockRow(resource, pr, org) in rows && repo <= resource
    ensures HolderIn(Cleaned(rows, pr, repo, org), resource) == None
  {
    LikeOfPrefix(repo, resource);
    CleanedKeeps(rows, pr, repo, org);
    HoldersLookup(Cleaned(rows, pr, repo, org), resource);
    var k :| 0 <= k < |rows| && rows[k] == LockRow(resource, pr, org);
    forall row | row in rows && row.resource == resource ensures row == LockRow(resource, pr, org) {
      var i :| 0 <= i < |rows| && rows[i] == row;
      assert i == k;
    }
  }

  // In every reachable state each resource has at most one row, hence at most one holder.
  lemma {:induction false} OneHolderEach(states: seq<State>, actions: seq<Action>, i: nat)
    requires IsRun(states, actions) && i < |states|
    ensures OneRowEach(states[i].rows)
    decreases i
  {
    if i > 0 {
      OneHolderEach(states, actions, i - 1);
      StepKeepsOneRowEach(states[i - 1], actions[i - 1]);
      assert states[i - 1 + 1] == Next(states[i - 1], actions[i - 1]);
    }
  }

  // The only ways to lose a lock on a project.
  ghost predicate MayTake(s: State, a: Action, repo: string, project: string, h: int) {
    match a
    case Acquire(pr, p, ciAnswers) =>
      pr.repo == repo && p == project && pr.number != h && ciAnswers && (repo, h) in s.closed
    case Release(pr, p) => pr.repo == repo && p == project && pr.number == h
    case Force(r, p) => r == repo && p == project
    case Cleanup(pr) => pr.number == h && Like(pr.repo + "%", LockId(repo, project))
    case _ => false
  }

  // A step changes the holder of a project only by taking it from its holder in one of those ways, or by an
  // acquisition for it; after a successful acquisition the caller holds it.
  lemma HolderChanges(s: State, a: Action, repo: string, project: string)
    requires OneRowEach(s.rows) && '#' !in repo && '#' !in RepoOf(a)
    ensures var was, now := HolderIn(s.rows, LockId(repo, project)), HolderIn(Next(s, a).rows, LockId(repo, project));
            && (was.Some? && now != was ==> MayTake(s, a, repo, project, was.value))
            && (now.Some? && now != was ==>
                 a.Acquire? && a.pr.repo == repo && a.project == project && now == Some(a.pr.number))
            && (a.Acquire? && a.pr.repo == repo && a.project == project ==>
                  (now == Some(a.pr.number) <==>
                    was == None || was == Some(a.pr.number) || (a.ciAnswers && (repo, was.value) in s.closed)))
  {
    var resource := LockId(repo, project);
    LookupEverywhere(s.rows);
    LookupEverywhere(Next(s, a).rows);
    match a
    case Acquire(pr, p, ciAnswers) =>
      LockIdInjective(repo, project, pr.repo, p);
      AcquireRefines(s.rows, LockId(pr.repo, p), pr.number, pr.org, Answers(s, pr.repo, ciAnswers));
    case Release(pr, p) =>
      LockIdInjective(repo, project, pr.repo, p);
      UnlockRefines(s.rows, LockId(pr.repo, p));
    case Force(r, p) =>
      LockIdInjective(repo, project, r, p);
      UnlockRefines(s.rows, LockId(r, p));
    case Cleanup(pr) =>
      CleanedHolders(s.rows, pr.number, pr.repo, pr.org, resource);
      CleanedKeeps(s.rows, pr.number, pr.repo, pr.org);
      if HolderIn(s.rows, resource).Some? {
        var h := HolderIn(s.rows, resource).value;
        RowIsHolder(s.rows, resource, h);
        RowIsHolder(Next(s, a).rows, resource, h);
        if h == pr.number && HolderIn(Next(s, a).rows, resource) != Some(h) {
          var row :| row in s.rows && row.resource == resource && row.lockId == h;
          assert Cleans(row, pr.number, pr.repo, pr.org);
        }
      }
    case Close(_, _) =>
    case Reopen(_, _) =>
  }

  // Over any run: a pull request that stays open keeps a lock until it releases it, runs an unlock cleanup
  // that covers it, or somebody forces it.
  lemma {:induction false} OpenHolderKeeps(states: seq<State>, actions: seq<Action>, i: nat, k: nat, repo: string,
                                           project: string, h: int)
    requires IsRun(states, actions) && i <= k < |states| && '#' !in repo
    requires HolderIn(states[i].rows, LockId(repo, project)) == Some(h)
    requires forall m :: i <= m < k ==> (repo, h) !in states[m].closed
    requires forall m :: i <= m < k ==>
               match actions[m]
               case Release(pr, p) => pr.repo != repo || p != project || pr.number != h
               case Force(r, p) => r != repo || p != project
               case Cleanup(pr) => pr.number != h || !Like(pr.repo + "%", LockId(repo, project))
               case _ => true
    ensures HolderIn(states[k].rows, LockId(repo, project)) == Some(h)
    decreases k
  {
    if i < k {
      OpenHolderKeeps(states, actions, i, k - 1, repo, project, h);
      OneHolderEach(states, actions, k - 1);
      HolderChanges(states[k - 1], actions[k - 1], repo, project);
      assert states[k - 1 + 1] == Next(states[k - 1], actions[k - 1]);
    }
  }

  // The step on the map store.
  function MapNext(s: State, holders: map<string, int>, a: Action): map<string, int> {
    match a
    case Acquire(pr, project, ciAnswers) =>
      (match LockAttempt(holders, LockId(pr.repo, project), pr.number, Answers(s, pr.repo, ciAnswers))
       case Success(after) => after
       case Failure(_) => holders)
    case Release(pr, project) =>
      var resource := LockId(pr.repo, project);
      if resource in holders && holders[resource] == pr.number then holders - {resource} else holders
    case Force(repo, project) => holders - {LockId(repo, project)}
    case _ => holders
  }

  // Over any run of lock operations from the empty table, the row table behaves as the map.
  lemma {:induction false} TableRefinesMap(states: seq<State>, actions: seq<Action>, maps: seq<map<string, int>>,
                                           i: nat)
    requires IsRun(states, actions) && |maps| == |states| && i < |states|
    requires forall m :: 0 <= m < |actions| ==> !actions[m].Cleanup?
    requires maps[0] == map[]
    requires forall m {:trigger actions[m]} :: 0 <= m < |actions| ==>
      maps[m + 1] == MapNext(states[m], maps[m], actions[m])
    ensures Holders(states[i].rows) == maps[i]
    decreases i
  {
    if i > 0 {
      TableRefinesMap(states, actions, maps, i - 1);
      OneHolderEach(states, actions, i - 1);
      var s, a := states[i - 1], actions[i - 1];
      assert states[i - 1 + 1] == Next(s, a) && maps[i - 1 + 1] == MapNext(s, maps[i - 1], a);
      match a
      case Acquire(pr, project, ciAnswers) =>
        AcquireRefines(s.rows, LockId(pr.repo, project), pr.number, pr.org, Answers(s, pr.repo, ciAnswers));
      case Release(pr, project) =>
        HoldersLookup(s.rows, LockId(pr.repo, project));
        UnlockRefines(s.rows, LockId(pr.repo, project));
      case Force(repo, project) => UnlockRefines(s.rows, LockId(repo, project));
      case _ =>
    }
  }
}
