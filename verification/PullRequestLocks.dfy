/** The lock protocol of pull requests over the row store. */
module PullRequestLocks {
  import opened Wrappers
  import opened LockStore

  // What the CI service answers about a pull request.
  datatype PrState = Open | Closed | Unknown

  datatype LockError = LockedBy(pr: int) | CannotTell(pr: int)

  function LockId(projectNamespace: string, projectName: string): string {
    projectNamespace + "#" + projectName
  }

  // Resource names are unambiguous for namespaces without the separator.
  lemma LockIdInjective(ns: string, name: string, ns': string, name': string)
    requires '#' !in ns && '#' !in ns'
    ensures LockId(ns, name) == LockId(ns', name') <==> ns == ns' && name == name'
  {
    if LockId(ns, name) == LockId(ns', name') {
      var id := LockId(ns, name);
      assert forall i :: 0 <= i < |ns| ==> id[i] == ns[i];
      assert forall i :: 0 <= i < |ns'| ==> id[i] == ns'[i];
      assert id[|ns|] == '#' && id[|ns'|] == '#';
      assert id[..|ns|] == ns && id[..|ns'|] == ns';
      assert id[|ns| + 1..] == name && id[|ns'| + 1..] == name';
    }
  }

  // The outcome of a lock attempt and the holders after it, in terms of the map.
  function LockAttempt(holders: map<string, int>, resource: string, pr: int,
                       ci: int -> PrState): Result<map<string, int>, LockError> {
    if resource !in holders then Success(holders[resource := pr])
    else
      var holder := holders[resource];
      if holder == pr then Success(holders)
      else match ci(holder)
           case Unknown => Failure(CannotTell(holder))
           case Closed => Success(holders[resource := pr])
           case Open => Failure(LockedBy(holder))
  }

  // A lock attempt succeeds exactly when the resource is free, the caller's, or held by a closed pull request;
  // then the caller holds it, and in every case no other resource changes.
  lemma LockAttemptMeans(holders: map<string, int>, resource: string, pr: int, ci: int -> PrState)
    ensures var r := LockAttempt(holders, resource, pr, ci);
            && (r.Success? <==> resource !in holders || holders[resource] == pr || ci(holders[resource]) == Closed)
            && (r.Success? ==>
                  && resource in r.value && r.value[resource] == pr && r.value.Keys == holders.Keys + {resource}
                  && forall other :: other in holders && other != resource ==> r.value[other] == holders[other])
            && (r.Failure? ==> resource in holders && r.error.pr == holders[resource] != pr
                               && (r.error.LockedBy? <==> ci(holders[resource]) == Open))
  {
  }

  // The same attempt on the rows: a closed holder's rows go, the caller's row comes.
  function AfterAcquire(rows: seq<LockRow>, resource: string, pr: int, org: nat, ci: int -> PrState): seq<LockRow> {
    match HolderIn(rows, resource)
    case None => rows + [LockRow(resource, pr, org)]
    case Some(holder) =>
      if holder != pr && ci(holder) == Closed then Without(rows, resource) + [LockRow(resource, pr, org)] else rows
  }

  // An attempt that changes the table puts in exactly the caller's row, with the caller's organisation, in place of
  // the resource's other rows.
  lemma AcquireMeans(rows: seq<LockRow>, resource: string, pr: int, org: nat, ci: int -> PrState)
    ensures var holder, after := HolderIn(rows, resource), AfterAcquire(rows, resource, pr, org, ci);
            if holder == None || (holder != Some(pr) && ci(holder.value) == Closed)
            then forall row :: row in after <==>
                   (row in rows && row.resource != resource) || row == LockRow(resource, pr, org)
            else after == rows
  {
    var row := LockRow(resource, pr, org);
    HoldersLookup(rows, resource);
    WithoutKeeps(rows, resource);
    assert forall r :: r in rows + [row] <==> r in rows || r == row;
    assert forall r :: r in Without(rows, resource) + [row] <==> r in Without(rows, resource) || r == row;
  }

  // On a table with one row each, the attempt on rows refines the attempt on the map, and keeps one row each.
  lemma AcquireRefines(rows: seq<LockRow>, resource: string, pr: int, org: nat, ci: int -> PrState)
    requires OneRowEach(rows)
    ensures OneRowEach(AfterAcquire(rows, resource, pr, org, ci))
    ensures Holders(AfterAcquire(rows, resource, pr, org, ci)) ==
            match LockAttempt(Holders(rows), resource, pr, ci)
            case Success(holders) => holders
            case Failure(_) => Holders(rows)
  {
    HoldersLookup(rows, resource);
    match HolderIn(rows, resource)
    case None => LockFree(rows, resource, pr, org);
    case Some(holder) =>
      if holder != pr && ci(holder) == Closed {
        Relock(rows, resource, pr, org);
      }
  }

  lemma LockFree(rows: seq<LockRow>, resource: string, pr: int, org: nat)
    requires OneRowEach(rows) && HolderIn(rows, resource) == None
    ensures OneRowEach(rows + [LockRow(resource, pr, org)])
    ensures Holders(rows + [LockRow(resource, pr, org)]) == Holders(rows)[resource := pr]
  {
    LockRefinesIff(rows, resource, pr, org);
    LockKeepsOneRowEach(rows, resource, pr, org);
  }

  lemma Relock(rows: seq<LockRow>, resource: string, pr: int, org: nat)
    requires OneRowEach(rows)
    ensures var free := Without(rows, resource);
            OneRowEach(free + [LockRow(resource, pr, org)])
            && Holders(free + [LockRow(resource, pr, org)]) == Holders(rows)[resource := pr]
  {
    var free := Without(rows, resource);
    UnlockRefines(rows, resource);
    WithoutKeepsOneRowEach(rows, resource);
    HoldersLookup(free, resource);
    LockFree(free, resource, pr, org);
    assert (Holders(rows) - {resource})[resource := pr] == Holders(rows)[resource := pr];
  }

  class PullRequestLock {
    const internalLock: BackendDBLock
    const orgId: nat
    const projectNamespace: string
    const projectName: string
    const prNumber: int

    constructor (internalLock: BackendDBLock, orgId: nat, projectNamespace: string, projectName: string, prNumber: int)
      ensures this.internalLock == internalLock && this.orgId == orgId
      ensures Resource() == LockId(projectNamespace, projectName) && this.prNumber == prNumber
    {
      this.internalLock, this.orgId := internalLock, orgId;
      this.projectNamespace, this.projectName, this.prNumber := projectNamespace, projectName, prNumber;
    }

    function Resource(): string {
      LockId(projectNamespace, projectName)
    }

    /** Takes the lock unless another pull request that is not closed holds it. */
    method Lock(ci: int -> PrState) returns (acquired: bool, err: Option<LockError>)
      requires OneRowEach(internalLock.rows)
      modifies internalLock
      ensures OneRowEach(internalLock.rows)
      ensures internalLock.rows == AfterAcquire(old(internalLock.rows), Resource(), prNumber, orgId, ci)
      ensures acquired && HolderIn(old(internalLock.rows), Resource()) != Some(prNumber) ==>
        forall row :: row in internalLock.rows <==>
          (row in old(internalLock.rows) && row.resource != Resource()) || row == LockRow(Resource(), prNumber, orgId)
      ensures match LockAttempt(Holders(old(internalLock.rows)), Resource(), prNumber, ci)
              case Success(holders) => acquired && err == None && Holders(internalLock.rows) == holders
              case Failure(e) => !acquired && err == Some(e) && internalLock.rows == old(internalLock.rows)
    {
      HoldersLookup(internalLock.rows, Resource());
      AcquireMeans(internalLock.rows, Resource(), prNumber, orgId, ci);
      AcquireRefines(internalLock.rows, Resource(), prNumber, orgId, ci);
      var noHangingLocks;
      noHangingLocks, err := VerifyNoHangingLocks(ci);
      if err.Some? {
        return false, err;
      }
      var existing := internalLock.GetLock(Resource());
      HoldersLookup(internalLock.rows, Resource());
      if existing.Some? {
        return true, None;
      }
      acquired := internalLock.Lock(orgId, prNumber, Resource());
      err := None;
    }

    /** Releases a lock left behind by a closed pull request. */
    method VerifyNoHangingLocks(ci: int -> PrState) returns (ok: bool, err: Option<LockError>)
      requires OneRowEach(internalLock.rows)
      modifies internalLock
      ensures OneRowEach(internalLock.rows)
      ensures ok <==> err == None
      ensures var holder := HolderIn(old(internalLock.rows), Resource());
              if holder == None || holder == Some(prNumber)
              then err == None && internalLock.rows == old(internalLock.rows)
              else match ci(holder.value)
                   case Unknown => err == Some(CannotTell(holder.value)) && internalLock.rows == old(internalLock.rows)
                   case Open => err == Some(LockedBy(holder.value)) && internalLock.rows == old(internalLock.rows)
                   case Closed => err == None && internalLock.rows == Without(old(internalLock.rows), Resource())
                                  && Holders(internalLock.rows) == Holders(old(internalLock.rows)) - {Resource()}
    {
      var transactionId := internalLock.GetLock(Resource());
      if transactionId.Some? {
        if transactionId.value != prNumber {
          match ci(transactionId.value)
          case Unknown =>
            return false, Some(CannotTell(transactionId.value));
          case Closed =>
            UnlockRefines(internalLock.rows, Resource());
            WithoutKeepsOneRowEach(internalLock.rows, Resource());
            var unlocked := internalLock.Unlock(Resource());
            return true, None;
          case Open =>
            return false, Some(LockedBy(transactionId.value));
        }
        return true, None;
      }
      return true, None;
    }

    /** Releases the lock if this pull request holds it. */
    method Unlock() returns (released: bool)
      requires OneRowEach(internalLock.rows)
      modifies internalLock
      ensures OneRowEach(internalLock.rows)
      ensures released <==> HolderIn(old(internalLock.rows), Resource()) == Some(prNumber)
      ensures released ==> internalLock.rows == Without(old(internalLock.rows), Resource())
      ensures released ==> Holders(internalLock.rows) == Holders(old(internalLock.rows)) - {Resource()}
      ensures !released ==> internalLock.rows == old(internalLock.rows)
    {
      var lock := internalLock.GetLock(Resource());
      if lock.Some? {
        if prNumber == lock.value {
          UnlockRefines(internalLock.rows, Resource());
          WithoutKeepsOneRowEach(internalLock.rows, Resource());
          released := internalLock.Unlock(Resource());
          if released {
            return true;
          }
        }
      }
      return false;
    }

    /** Releases the lock whoever holds it. */
    method ForceUnlock()
      requires OneRowEach(internalLock.rows)
      modifies internalLock
      ensures OneRowEach(internalLock.rows)
      ensures Holders(internalLock.rows) == Holders(old(internalLock.rows)) - {Resource()}
    {
      var lock := internalLock.GetLock(Resource());
      UnlockRefines(internalLock.rows, Resource());
      WithoutKeepsOneRowEach(internalLock.rows, Resource());
      HoldersLookup(internalLock.rows, Resource());
      if lock.Some? {
        var released := internalLock.Unlock(Resource());
      } else {
        assert Holders(internalLock.rows) - {Resource()} == Holders(internalLock.rows);
      }
    }
  }

  /** The same protocol over the map store. */
  method LockOverMap(internalLock: MockLock, resource: string, prNumber: int, ci: int -> PrState)
    returns (acquired: bool, err: Option<LockError>)
    modifies internalLock
    ensures match LockAttempt(old(internalLock.mapLock), resource, prNumber, ci)
            case Success(holders) => acquired && err == None && internalLock.mapLock == holders
            case Failure(e) => !acquired && err == Some(e) && internalLock.mapLock == old(internalLock.mapLock)
  {
    ghost var before := internalLock.mapLock;
    var transactionId := internalLock.GetLock(resource);
    if transactionId.Some? && transactionId.value != prNumber {
      match ci(transactionId.value)
      case Unknown =>
        return false, Some(CannotTell(transactionId.value));
      case Closed =>
        var unlocked := internalLock.Unlock(resource);
      case Open =>
        return false, Some(LockedBy(transactionId.value));
    }
    var existing := internalLock.GetLock(resource);
    if existing.Some? {
      return true, None;
    }
    acquired := internalLock.Lock(prNumber, resource);
    err := None;
    assert (before - {resource})[resource := prNumber] == before[resource := prNumber];
    assert resource !in before ==> before - {resource} == before;
  }

  // Executing under the lock

  datatype Operation = PlanOperation | ApplyOperation | DestroyOperation

  datatype Execution = Executed | NotLocked | LockFailed(error: LockError)

  /** Runs an operation only while its pull request holds the project; executed records who held it then. */
  class LockingExecutorWrapper {
    const projectLock: PullRequestLock
    var executed: seq<(Operation, Option<int>)>

    constructor (projectLock: PullRequestLock)
      ensures this.projectLock == projectLock && executed == []
    {
      this.projectLock, executed := projectLock, [];
    }

    method Execute(op: Operation, ci: int -> PrState) returns (r: Execution)
      requires OneRowEach(projectLock.internalLock.rows)
      modifies this, projectLock.internalLock
      ensures OneRowEach(projectLock.internalLock.rows)
      ensures r != NotLocked
      ensures executed == if r == Executed then old(executed) + [(op, Some(projectLock.prNumber))] else old(executed)
      ensures var before := Holders(old(projectLock.internalLock.rows));
              match LockAttempt(before, projectLock.Resource(), projectLock.prNumber, ci)
              case Success(holders) => r == Executed && Holders(projectLock.internalLock.rows) == holders
              case Failure(e) =>
                r == LockFailed(e) && projectLock.internalLock.rows == old(projectLock.internalLock.rows)
    {
      LockAttemptMeans(Holders(projectLock.internalLock.rows), projectLock.Resource(), projectLock.prNumber, ci);
      var locked, err := projectLock.Lock(ci);
      if err.Some? {
        return LockFailed(err.value);
      }
      if locked {
        HoldersLookup(projectLock.internalLock.rows, projectLock.Resource());
        executed := executed + [(op, HolderIn(projectLock.internalLock.rows, projectLock.Resource()))];
        return Executed;
      }
      return NotLocked;
    }
  }
}
