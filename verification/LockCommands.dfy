/** Lock and unlock commands over all impacted projects of a pull request, and the cleanup that follows an unlock. */
module LockCommands {
  import opened Wrappers
  import opened LockStore
  import opened PullRequestLocks

  datatype Command = PlanCommand | ApplyCommand | LockCommand | UnlockCommand | OtherCommand

  // SQL's LIKE: % stands for any text, _ for any one character.
  predicate Like(pattern: string, s: string)
    decreases |pattern| + |s|
  {
    if pattern == "" then s == ""
    else if pattern[0] == '%' then Like(pattern[1..], s) || (s != "" && Like(pattern, s[1..]))
    else s != "" && (pattern[0] == '_' || pattern[0] == s[0]) && Like(pattern[1..], s[1..])
  }

  lemma {:induction false} PercentMatchesAll(s: string)
    ensures Like("%", s)
    decreases |s|
  {
    if s != "" {
      PercentMatchesAll(s[1..]);
    }
  }

  // The pattern of the cleanup covers every resource that starts with the repository's name.
  lemma {:induction false} LikeOfPrefix(repo: string, s: string)
    requires repo <= s
    ensures Like(repo + "%", s)
    decreases |repo|
  {
    if repo == "" {
      assert repo + "%" == "%";
      PercentMatchesAll(s);
    } else {
      assert (repo + "%")[1..] == repo[1..] + "%" && (repo + "%")[0] == repo[0];
      LikeOfPrefix(repo[1..], s[1..]);
      if repo[0] == '%' {
        LikeAfterPercent(repo[1..] + "%", s[1..]);
        assert repo + "%" == ['%'] + (repo[1..] + "%");
      }
    }
  }

  lemma LikeAfterPercent(pattern: string, s: string)
    requires Like(pattern, s)
    ensures Like(['%'] + pattern, s)
  {
    assert (['%'] + pattern)[1..] == pattern;
  }

  // s begins like the repository's name, where an underscore fits any character.
  ghost predicate BeginsLike(repo: string, s: string) {
    |repo| <= |s| && forall i :: 0 <= i < |repo| ==> repo[i] == '_' || repo[i] == s[i]
  }

  // What the cleanup's pattern covers, for every name without a percent sign.
  lemma {:induction false} LikeIsPrefix(repo: string, s: string)
    requires '%' !in repo
    ensures Like(repo + "%", s) <==> BeginsLike(repo, s)
    decreases |repo|
  {
    if repo == "" {
      assert repo + "%" == "%";
      PercentMatchesAll(s);
    } else {
      assert (repo + "%")[1..] == repo[1..] + "%" && (repo + "%")[0] == repo[0];
      if s != "" {
        LikeIsPrefix(repo[1..], s[1..]);
        assert forall i :: 0 < i < |repo| ==> repo[i] == repo[1..][i - 1];
        assert forall i :: 0 < i < |s| ==> s[i] == s[1..][i - 1];
      }
    }
  }

  // The cleanup: all rows of one pull request number and organisation whose resource matches the repository's name.
  predicate Cleans(row: LockRow, pr: int, repo: string, org: nat) {
    row.lockId == pr && row.org == org && Like(repo + "%", row.resource)
  }

  function Cleaned(rows: seq<LockRow>, pr: int, repo: string, org: nat): seq<LockRow> {
    if rows == [] then []
    else (if Cleans(rows[0], pr, repo, org) then [] else [rows[0]]) + Cleaned(rows[1..], pr, repo, org)
  }

  lemma {:induction false} CleanedKeeps(rows: seq<LockRow>, pr: int, repo: string, org: nat)
    ensures forall row :: row in Cleaned(rows, pr, repo, org) <==> row in rows && !Cleans(row, pr, repo, org)
    decreases rows
  {
    if rows != [] {
      CleanedKeeps(rows[1..], pr, repo, org);
      assert rows == [rows[0]] + rows[1..];
    }
  }

  lemma {:induction false} CleanedKeepsOneRowEach(rows: seq<LockRow>, pr: int, repo: string, org: nat)
    requires OneRowEach(rows)
    ensures OneRowEach(Cleaned(rows, pr, repo, org))
    decreases rows
  {
    if rows != [] {
      var rest := rows[1..];
      assert forall i :: 0 <= i < |rest| ==> rest[i] == rows[i + 1];
      CleanedKeepsOneRowEach(rest, pr, repo, org);
      CleanedKeeps(rest, pr, repo, org);
      forall row | row in rest ensures row.resource != rows[0].resource {
        var k :| 0 <= k < |rest| && rest[k] == row;
      }
    }
  }

  // In a table with one row each, a row and the holder of its resource are the same thing.
  lemma RowIsHolder(rows: seq<LockRow>, resource: string, pr: int)
    requires OneRowEach(rows)
    ensures HolderIn(rows, resource) == Some(pr) <==>
      exists row :: row in rows && row.resource == resource && row.lockId == pr
  {
    HoldersLookup(rows, resource);
    FirstRow(rows, resource);
    if row :| row in rows && row.resource == resource && row.lockId == pr {
      var first :| first in rows && first.resource == resource && HolderIn(rows, resource) == Some(first.lockId);
      var i :| 0 <= i < |rows| && rows[i] == row;
      var k :| 0 <= k < |rows| && rows[k] == first;
      assert i == k;
    }
  }

  lemma {:induction false} FirstRow(rows: seq<LockRow>, resource: string)
    ensures HolderIn(rows, resource).Some? ==>
              exists row :: row in rows && row.resource == resource && HolderIn(rows, resource) == Some(row.lockId)
    decreases rows
  {
    if rows != [] {
      FirstRow(rows[1..], resource);
      assert rows == [rows[0]] + rows[1..];
    }
  }

  // The cleanup takes a lock from exactly the holder it is run for, and from no other pull request number.
  lemma CleanedHolders(rows: seq<LockRow>, pr: int, repo: string, org: nat, resource: string)
    requires OneRowEach(rows)
    ensures OneRowEach(Cleaned(rows, pr, repo, org))
    ensures forall h :: h != pr ==>
      (HolderIn(Cleaned(rows, pr, repo, org), resource) == Some(h) <==> HolderIn(rows, resource) == Some(h))
    ensures HolderIn(Cleaned(rows, pr, repo, org), resource).Some? ==>
      HolderIn(rows, resource) == HolderIn(Cleaned(rows, pr, repo, org), resource)
  {
    CleanedKeepsOneRowEach(rows, pr, repo, org);
    CleanedKeeps(rows, pr, repo, org);
    forall h | h != pr
      ensures HolderIn(Cleaned(rows, pr, repo, org), resource) == Some(h) <==> HolderIn(rows, resource) == Some(h)
    {
      RowIsHolder(rows, resource, h);
      RowIsHolder(Cleaned(rows, pr, repo, org), resource, h);
    }
    if HolderIn(Cleaned(rows, pr, repo, org), resource).Some? {
      var h := HolderIn(Cleaned(rows, pr, repo, org), resource).value;
      RowIsHolder(rows, resource, h);
      RowIsHolder(Cleaned(rows, pr, repo, org), resource, h);
    }
  }

  // The cleanup also reaches other repositories: those whose names begin with this one's and, through an underscore
  // in it, any resource that fits it character by character, even of a repository with a shorter name. The locks it
  // deletes are all the repository's own exactly when this number holds no such lock.
  lemma CleanupStaysInRepoIff(rows: seq<LockRow>, pr: int, repo: string, org: nat, namespaces: set<string>)
    requires '%' !in repo && '#' !in repo && forall ns :: ns in namespaces ==> '#' !in ns
    requires forall row :: row in rows ==> exists ns, name :: ns in namespaces && row.resource == LockId(ns, name)
    ensures (forall row :: row in rows && row !in Cleaned(rows, pr, repo, org) ==> repo + "#" <= row.resource) <==>
            (forall ns, name :: ns in namespaces && ns != repo && BeginsLike(repo, LockId(ns, name)) ==>
               LockRow(LockId(ns, name), pr, org) !in rows)
  {
    CleanedKeeps(rows, pr, repo, org);
    forall row | row in rows && row !in Cleaned(rows, pr, repo, org)
      ensures repo + "#" <= row.resource ||
              exists ns, name :: ns in namespaces && ns != repo && BeginsLike(repo, LockId(ns, name)) &&
                                 LockRow(LockId(ns, name), pr, org) in rows
    {
      var ns, name :| ns in namespaces && row.resource == LockId(ns, name);
      LikeIsPrefix(repo, row.resource);
      assert row == LockRow(LockId(ns, name), pr, org);
      if ns == repo {
        assert repo + "#" <= row.resource;
      }
    }
    forall ns, name | ns in namespaces && ns != repo && BeginsLike(repo, LockId(ns, name)) &&
                      LockRow(LockId(ns, name), pr, org) in rows
      ensures exists row :: row in rows && row !in Cleaned(rows, pr, repo, org) && !(repo + "#" <= row.resource)
    {
      var row := LockRow(LockId(ns, name), pr, org);
      LikeIsPrefix(repo, row.resource);
      assert Cleans(row, pr, repo, org);
      OwnResource(repo, ns, name);
    }
  }

  lemma OwnResource(repo: string, ns: string, name: string)
    requires '#' !in repo && '#' !in ns
    ensures repo + "#" <= LockId(ns, name) <==> ns == repo
  {
    var id := LockId(ns, name);
    if repo + "#" <= id {
      assert id == LockId(repo, id[|repo| + 1..]);
      LockIdInjective(ns, name, repo, id[|repo| + 1..]);
    }
  }

  // An unlock in one repository releases the lock of the same number in another whose name is longer.
  lemma CleanupReachesLongerNames()
    ensures var rows := [LockRow("org/app2#net", 7, 1)];
            HolderIn(rows, "org/app2#net") == Some(7) &&
              HolderIn(Cleaned(rows, 7, "org/app", 1), "org/app2#net") == None
  {
    var rows := [LockRow("org/app2#net", 7, 1)];
    assert "org/app" <= "org/app2#net";
    LikeOfPrefix("org/app", "org/app2#net");
    CleanedKeeps(rows, 7, "org/app", 1);
    HoldersLookup(Cleaned(rows, 7, "org/app", 1), "org/app2#net");
  }

  // Nor need its name be longer: the underscore of one repository's name fits the separator after another's.
  lemma CleanupReachesShorterNames()
    ensures var rows := [LockRow(LockId("org/a", "b"), 7, 1)];
            HolderIn(rows, LockId("org/a", "b")) == Some(7) && Cleaned(rows, 7, "org/a_b", 1) == []
  {
    var resource := LockId("org/a", "b");
    assert resource == "org/a#b";
    assert BeginsLike("org/a_b", resource);
    LikeIsPrefix("org/a_b", resource);
    assert Cleans(LockRow(resource, 7, 1), 7, "org/a_b", 1);
  }

  // Another pull request, not known to be closed, holds the resource.
  ghost predicate Blocked(rows: seq<LockRow>, resource: string, pr: int, ci: int -> PrState) {
    HolderIn(rows, resource).Some? && HolderIn(rows, resource).value != pr &&
      ci(HolderIn(rows, resource).value) != Closed
  }

  /** The command of one project: a lock error is reported, a failed unlock is not. */
  method PerformLockingActionFromCommand(prLock: PullRequestLock, command: Command, ci: int -> PrState)
    returns (err: Option<LockError>)
    requires OneRowEach(prLock.internalLock.rows)
    modifies prLock.internalLock
    ensures OneRowEach(prLock.internalLock.rows)
    ensures var before, after := Holders(old(prLock.internalLock.rows)), Holders(prLock.internalLock.rows);
            if command in {PlanCommand, ApplyCommand, LockCommand} then
              match LockAttempt(before, prLock.Resource(), prLock.prNumber, ci)
              case Success(holders) => err == None && after == holders
              case Failure(e) => err == Some(e) && after == before
            else
              err == None &&
              var was := HolderIn(old(prLock.internalLock.rows), prLock.Resource());
              after == if command == UnlockCommand && was == Some(prLock.prNumber)
                       then before - {prLock.Resource()} else before
    ensures command in {PlanCommand, ApplyCommand, LockCommand} ==>
      && (err.Some? <==> Blocked(old(prLock.internalLock.rows), prLock.Resource(), prLock.prNumber, ci))
      && (err == None ==> HolderIn(prLock.internalLock.rows, prLock.Resource()) == Some(prLock.prNumber))
    ensures command !in {PlanCommand, ApplyCommand, LockCommand, UnlockCommand} ==>
      err == None && prLock.internalLock.rows == old(prLock.internalLock.rows)
  {
    HoldersLookup(prLock.internalLock.rows, prLock.Resource());
    LockAttemptMeans(Holders(prLock.internalLock.rows), prLock.Resource(), prLock.prNumber, ci);
    err := None;
    match command {
      case UnlockCommand =>
        var released := prLock.Unlock();
      case PlanCommand =>
        var acquired;
        acquired, err := prLock.Lock(ci);
      case ApplyCommand =>
        var acquired;
        acquired, err := prLock.Lock(ci);
      case LockCommand =>
        var acquired;
        acquired, err := prLock.Lock(ci);
      case OtherCommand =>
    }
    HoldersLookup(prLock.internalLock.rows, prLock.Resource());
  }

  method DeleteAllLocksAcquiredByPR(store: BackendDBLock, prNumber: int, repoFullName: string, orgId: nat)
    modifies store
    ensures store.rows == Cleaned(old(store.rows), prNumber, repoFullName, orgId)
    ensures forall row :: row in store.rows <==>
      row in old(store.rows) && !(row.lockId == prNumber && row.org == orgId && Like(repoFullName + "%", row.resource))
  {
    var kept := [];
    for i := 0 to |store.rows|
      invariant store.rows == old(store.rows)
      invariant kept + Cleaned(store.rows[i..], prNumber, repoFullName, orgId) ==
        Cleaned(store.rows, prNumber, repoFullName, orgId)
    {
      assert store.rows[i..][0] == store.rows[i] && store.rows[i..][1..] == store.rows[i + 1..];
      if !Cleans(store.rows[i], prNumber, repoFullName, orgId) {
        kept := kept + [store.rows[i]];
      }
    }
    store.rows := kept;
    CleanedRows(old(store.rows), prNumber, repoFullName, orgId);
  }

  lemma CleanedRows(rows: seq<LockRow>, pr: int, repo: string, org: nat)
    ensures forall row :: row in Cleaned(rows, pr, repo, org) <==>
      row in rows && !(row.lockId == pr && row.org == org && Like(repo + "%", row.resource))
  {
    CleanedKeeps(rows, pr, repo, org);
  }

  // Nobody but pr and the holders whose pull request is closed can have lost a lock.
  ghost predicate SparesOthers(before: seq<LockRow>, after: seq<LockRow>, pr: int, ci: int -> PrState) {
    forall resource, h ::
      h != pr && HolderIn(before, resource) == Some(h) && ci(h) != Closed ==> HolderIn(after, resource) == Some(h)
  }

  // Nobody but pr can have gained a lock.
  ghost predicate GivesOthersNone(before: seq<LockRow>, after: seq<LockRow>, pr: int) {
    forall resource, h :: h != pr && HolderIn(after, resource) == Some(h) ==> HolderIn(before, resource) == Some(h)
  }

  ghost predicate HoldsAll(rows: seq<LockRow>, repo: string, projects: seq<string>, pr: int) {
    forall name :: name in projects ==> HolderIn(rows, LockId(repo, name)) == Some(pr)
  }

  lemma LookupEverywhere(rows: seq<LockRow>)
    ensures forall resource ::
      HolderIn(rows, resource) == if resource in Holders(rows) then Some(Holders(rows)[resource]) else None
  {
    forall resource
      ensures HolderIn(rows, resource) == if resource in Holders(rows) then Some(Holders(rows)[resource]) else None
    {
      HoldersLookup(rows, resource);
    }
  }

  lemma AttemptSparesOthers(before: seq<LockRow>, after: seq<LockRow>, resource: string, pr: int, ci: int -> PrState)
    requires LockAttempt(Holders(before), resource, pr, ci).Success?
    requires Holders(after) == LockAttempt(Holders(before), resource, pr, ci).value
    ensures SparesOthers(before, after, pr, ci) && HolderIn(after, resource) == Some(pr)
    ensures forall other :: HolderIn(before, other) == Some(pr) ==> HolderIn(after, other) == Some(pr)
  {
    LookupEverywhere(before);
    LookupEverywhere(after);
  }

  lemma ReleaseSparesOthers(before: seq<LockRow>, after: seq<LockRow>, resource: string, pr: int, ci: int -> PrState)
    requires HolderIn(before, resource) == Some(pr) && Holders(after) == Holders(before) - {resource}
    ensures SparesOthers(before, after, pr, ci)
  {
    LookupEverywhere(before);
    LookupEverywhere(after);
  }

  lemma SameHoldersSpareAll(before: seq<LockRow>, after: seq<LockRow>, pr: int, ci: int -> PrState)
    requires Holders(after) == Holders(before)
    ensures SparesOthers(before, after, pr, ci)
    ensures forall other :: HolderIn(after, other) == HolderIn(before, other)
  {
    forall other ensures HolderIn(after, other) == HolderIn(before, other) {
      HoldersLookup(before, other);
      HoldersLookup(after, other);
    }
  }

  /** The backend's loop over the impacted projects, ended by the first error, then the cleanup of an unlock. */
  method PerformOnImpactedProjects(store: BackendDBLock, orgId: nat, repoFullName: string,
                                   impactedProjects: seq<string>, prNumber: int,
                                   prLocks: bool, command: Command, ci: int -> PrState)
    returns (err: Option<LockError>)
    requires OneRowEach(store.rows)
    modifies store
    ensures OneRowEach(store.rows) && SparesOthers(old(store.rows), store.rows, prNumber, ci)
    ensures GivesOthersNone(old(store.rows), store.rows, prNumber)
    ensures err == None && prLocks && command in {PlanCommand, ApplyCommand, LockCommand} ==>
      forall name :: name in impactedProjects ==> HolderIn(store.rows, LockId(repoFullName, name)) == Some(prNumber)
    ensures err.Some? <==>
      && prLocks && command in {PlanCommand, ApplyCommand, LockCommand}
      && exists name :: name in impactedProjects && Blocked(old(store.rows), LockId(repoFullName, name), prNumber, ci)
    ensures command !in {PlanCommand, ApplyCommand, LockCommand, UnlockCommand} ==> store.rows == old(store.rows)
    ensures command == UnlockCommand ==>
              err == None &&
              forall row :: row in store.rows ==>
                !(row.lockId == prNumber && row.org == orgId && repoFullName <= row.resource)
  {
    err := None;
    if prLocks {
      for i := 0 to |impactedProjects|
        invariant err == None && OneRowEach(store.rows) && SparesOthers(old(store.rows), store.rows, prNumber, ci)
        invariant GivesOthersNone(old(store.rows), store.rows, prNumber)
        invariant command in {PlanCommand, ApplyCommand, LockCommand} ==>
          && HoldsAll(store.rows, repoFullName, impactedProjects[..i], prNumber)
          && forall k :: 0 <= k < i ==>
               !Blocked(old(store.rows), LockId(repoFullName, impactedProjects[k]), prNumber, ci)
        invariant command !in {PlanCommand, ApplyCommand, LockCommand, UnlockCommand} ==> store.rows == old(store.rows)
      {
        ghost var before := store.rows;
        var prLock := new PullRequestLock(store, orgId, repoFullName, impactedProjects[i], prNumber);
        err := PerformLockingActionFromCommand(prLock, command, ci);
        StepSparesOthers(before, store.rows, prLock.Resource(), prNumber, command, ci, err);
        SameBlocks(old(store.rows), before, prLock.Resource(), prNumber, ci);
        if err.Some? {
          assert impactedProjects[i] in impactedProjects;
          return;
        }
        assert impactedProjects[..i + 1] == impactedProjects[..i] + [impactedProjects[i]];
      }
      assert impactedProjects[..|impactedProjects|] == impactedProjects;
    }
    if command == UnlockCommand {
      ghost var before := store.rows;
      DeleteAllLocksAcquiredByPR(store, prNumber, repoFullName, orgId);
      CleanedKeeps(before, prNumber, repoFullName, orgId);
      forall resource {
        CleanedHolders(before, prNumber, repoFullName, orgId, resource);
      }
      CleanedKeepsOneRowEach(before, prNumber, repoFullName, orgId);
      forall row | row in store.rows
        ensures !(row.lockId == prNumber && row.org == orgId && repoFullName <= row.resource)
      {
        if repoFullName <= row.resource {
          LikeOfPrefix(repoFullName, row.resource);
        }
      }
    }
  }

  // What the loop has done so far does not unblock or block a resource.
  lemma SameBlocks(before: seq<LockRow>, after: seq<LockRow>, resource: string, pr: int, ci: int -> PrState)
    requires SparesOthers(before, after, pr, ci) && GivesOthersNone(before, after, pr)
    ensures Blocked(before, resource, pr, ci) <==> Blocked(after, resource, pr, ci)
  {
    if Blocked(before, resource, pr, ci) {
      var h := HolderIn(before, resource).value;
      assert HolderIn(after, resource) == Some(h);
    }
    if Blocked(after, resource, pr, ci) {
      var h := HolderIn(after, resource).value;
      assert HolderIn(before, resource) == Some(h);
    }
  }

  lemma StepSparesOthers(before: seq<LockRow>, after: seq<LockRow>, resource: string, pr: int, command: Command,
                         ci: int -> PrState, err: Option<LockError>)
    requires if command in {PlanCommand, ApplyCommand, LockCommand} then
               match LockAttempt(Holders(before), resource, pr, ci)
               case Success(holders) => err == None && Holders(after) == holders
               case Failure(e) => err == Some(e) && Holders(after) == Holders(before)
             else
               err == None &&
               Holders(after) == if command == UnlockCommand && HolderIn(before, resource) == Some(pr)
                                 then Holders(before) - {resource} else Holders(before)
    ensures SparesOthers(before, after, pr, ci)
    ensures command in {PlanCommand, ApplyCommand, LockCommand} ==>
      forall other :: HolderIn(before, other) == Some(pr) ==> HolderIn(after, other) == Some(pr)
    ensures command in {PlanCommand, ApplyCommand, LockCommand} && err == None ==> HolderIn(after, resource) == Some(pr)
    ensures GivesOthersNone(before, after, pr)
  {
    LookupEverywhere(before);
    LookupEverywhere(after);
    if command in {PlanCommand, ApplyCommand, LockCommand} && err == None {
      AttemptSparesOthers(before, after, resource, pr, ci);
    } else if Holders(after) == Holders(before) {
      SameHoldersSpareAll(before, after, pr, ci);
    } else {
      ReleaseSparesOthers(before, after, resource, pr, ci);
    }
  }
}
