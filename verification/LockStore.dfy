/**
 Two stores of pull request locks: a map from resource to holder, and the table of lock rows that should
 behave like it.
 */
module LockStore {
  import opened Wrappers

  datatype LockRow = LockRow(resource: string, lockId: int, org: nat)

  // The query for a resource takes the first row, in the order of insertion.
  function HolderIn(rows: seq<LockRow>, resource: string): Option<int> {
    if rows == [] then None
    else if rows[0].resource == resource then Some(rows[0].lockId)
    else HolderIn(rows[1..], resource)
  }

  // The map a table stands for.
  function Holders(rows: seq<LockRow>): map<string, int> {
    if rows == [] then map[] else Holders(rows[1..])[rows[0].resource := rows[0].lockId]
  }

  ghost predicate OneRowEach(rows: seq<LockRow>) {
    forall i, j :: 0 <= i < j < |rows| ==> rows[i].resource != rows[j].resource
  }

  function Without(rows: seq<LockRow>, resource: string): seq<LockRow> {
    if rows == [] then []
    else (if rows[0].resource == resource then [] else [rows[0]]) + Without(rows[1..], resource)
  }

  lemma {:induction false} HoldersLookup(rows: seq<LockRow>, resource: string)
    ensures HolderIn(rows, resource) == if resource in Holders(rows) then Some(Holders(rows)[resource]) else None
    ensures resource in Holders(rows) <==> exists row :: row in rows && row.resource == resource
    decreases rows
  {
    if rows != [] {
      HoldersLookup(rows[1..], resource);
      assert rows == [rows[0]] + rows[1..];
    }
  }

  lemma {:induction false} WithoutKeeps(rows: seq<LockRow>, resource: string)
    ensures forall row :: row in Without(rows, resource) <==> row in rows && row.resource != resource
    decreases rows
  {
    if rows != [] {
      WithoutKeeps(rows[1..], resource);
      assert rows == [rows[0]] + rows[1..];
    }
  }

  lemma {:induction false} WithoutKeepsOneRowEach(rows: seq<LockRow>, resource: string)
    requires OneRowEach(rows)
    ensures OneRowEach(Without(rows, resource))
    decreases rows
  {
    if rows != [] {
      var rest := rows[1..];
      assert forall i :: 0 <= i < |rest| ==> rest[i] == rows[i + 1];
      WithoutKeepsOneRowEach(rest, resource);
      WithoutKeeps(rest, resource);
      forall row | row in rest ensures row.resource != rows[0].resource {
        var k :| 0 <= k < |rest| && rest[k] == row;
      }
    }
  }

  // Unlocking refines removing from the map, whatever the table holds.
  lemma {:induction false} UnlockRefines(rows: seq<LockRow>, resource: string)
    ensures Holders(Without(rows, resource)) == Holders(rows) - {resource}
    decreases rows
  {
    if rows != [] {
      UnlockRefines(rows[1..], resource);
      if rows[0].resource != resource {
        var kept := [rows[0]] + Without(rows[1..], resource);
        assert kept[1..] == Without(rows[1..], resource);
        assert Holders(kept) == Holders(rows) - {resource};
      } else {
        assert Without(rows, resource) == Without(rows[1..], resource);
        assert Holders(rows) - {resource} == Holders(rows[1..]) - {resource};
      }
    }
  }

  lemma {:induction false} HoldersOfAppended(rows: seq<LockRow>, row: LockRow)
    ensures Holders(rows + [row]) == map[row.resource := row.lockId] + Holders(rows)
    decreases rows
  {
    if rows == [] {
      assert rows + [row] == [row];
    } else {
      assert (rows + [row])[0] == rows[0] && (rows + [row])[1..] == rows[1..] + [row];
      HoldersOfAppended(rows[1..], row);
    }
  }

  // Locking refines overwriting the map entry exactly when the resource is free or the caller's already.
  lemma LockRefinesIff(rows: seq<LockRow>, resource: string, lockId: int, org: nat)
    ensures Holders(rows + [LockRow(resource, lockId, org)]) == Holders(rows)[resource := lockId] <==>
            HolderIn(rows, resource) == None || HolderIn(rows, resource) == Some(lockId)
  {
    var row := LockRow(resource, lockId, org);
    HoldersOfAppended(rows, row);
    HoldersLookup(rows, resource);
    var after, wanted := Holders(rows + [row]), Holders(rows)[resource := lockId];
    assert after.Keys == wanted.Keys;
    assert after[resource] == if resource in Holders(rows) then Holders(rows)[resource] else lockId;
    assert forall r :: r in after && r != resource ==> after[r] == wanted[r];
    if resource !in Holders(rows) || Holders(rows)[resource] == lockId {
      assert after == wanted;
    }
  }

  lemma LockKeepsOneRowEach(rows: seq<LockRow>, resource: string, lockId: int, org: nat)
    requires OneRowEach(rows)
    ensures OneRowEach(rows + [LockRow(resource, lockId, org)]) <==> HolderIn(rows, resource) == None
  {
    HoldersLookup(rows, resource);
    var more := rows + [LockRow(resource, lockId, org)];
    if row :| row in rows && row.resource == resource {
      var i :| 0 <= i < |rows| && rows[i] == row;
      assert more[i].resource == more[|rows|].resource;
    }
  }

  /** The map store. */
  class MockLock {
    var mapLock: map<string, int>

    constructor ()
      ensures mapLock == map[]
    {
      mapLock := map[];
    }

    method Lock(transactionId: int, resource: string) returns (ok: bool)
      modifies this
      ensures ok && mapLock == old(mapLock)[resource := transactionId]
    {
      mapLock := mapLock[resource := transactionId];
      ok := true;
    }

    method Unlock(resource: string) returns (ok: bool)
      modifies this
      ensures ok && mapLock == old(mapLock) - {resource}
    {
      mapLock := mapLock - {resource};
      ok := true;
    }

    method GetLock(resource: string) returns (holder: Option<int>)
      ensures holder == if resource in mapLock then Some(mapLock[resource]) else None
    {
      holder := if resource in mapLock then Some(mapLock[resource]) else None;
    }
  }

  /** The row store: locking inserts a row, unlocking deletes all rows of the resource. */
  class BackendDBLock {
    var rows: seq<LockRow>

    constructor ()
      ensures rows == []
    {
      rows := [];
    }

    method Lock(orgId: nat, lockId: int, resource: string) returns (ok: bool)
      modifies this
      ensures ok && rows == old(rows) + [LockRow(resource, lockId, orgId)]
    {
      rows := rows + [LockRow(resource, lockId, orgId)];
      ok := true;
    }

    method Unlock(resource: string) returns (ok: bool)
      modifies this
      ensures ok && rows == Without(old(rows), resource)
    {
      var kept := [];
      for i := 0 to |rows|
        invariant rows == old(rows)
        invariant kept + Without(rows[i..], resource) == Without(rows, resource)
      {
        assert rows[i..][0] == rows[i] && rows[i..][1..] == rows[i + 1..];
        if rows[i].resource != resource {
          kept := kept + [rows[i]];
        }
      }
      rows := kept;
      ok := true;
    }

    method GetLock(resource: string) returns (holder: Option<int>)
      ensures holder == HolderIn(rows, resource)
    {
      for i := 0 to |rows|
        invariant HolderIn(rows[i..], resource) == HolderIn(rows, resource)
      {
        assert rows[i..][0] == rows[i] && rows[i..][1..] == rows[i + 1..];
        if rows[i].resource == resource {
          return Some(rows[i].lockId);
        }
      }
      return None;
    }
  }
}
