/** The table that links installations of the GitHub app to organisations. */
module InstallationLinks {
  import opened Wrappers

  datatype LinkRow = LinkRow(org: nat, installation: int, active: bool)

  // UnknownOrganisation: the foreign key on the organisation refuses a row without one.
  datatype LinkError = LinkedToAnotherOrg(org: nat) | UnknownOrganisation

  // The active links as pairs of organisation and installation.
  function Active(rows: seq<LinkRow>): set<(nat, int)> {
    set row | row in rows && row.active :: (row.org, row.installation)
  }

  ghost predicate OneToOne(links: set<(nat, int)>) {
    forall l, m :: l in links && m in links && (l.0 == m.0 || l.1 == m.1) ==> l == m
  }

  // The number of active rows per organisation and per installation is one at most, not only the number of pairs.
  ghost predicate OneActiveRowEach(rows: seq<LinkRow>) {
    forall i, j :: 0 <= i < j < |rows| && rows[i].active && rows[j].active ==>
                     rows[i].org != rows[j].org && rows[i].installation != rows[j].installation
  }

  // Creating a link: refused if the installation is active for another organisation; nothing if it is active for
  // this one; otherwise the organisation's other link gives way to it.
  function AfterCreate(links: set<(nat, int)>, org: nat, installation: int): set<(nat, int)> {
    if exists l :: l in links && l.1 == installation then links
    else (set l | l in links && l.0 != org) + {(org, installation)}
  }

  function AfterDelete(links: set<(nat, int)>, installation: int): set<(nat, int)> {
    set l | l in links && l.1 != installation
  }

  lemma RowsAreOneToOne(rows: seq<LinkRow>)
    requires OneActiveRowEach(rows)
    ensures OneToOne(Active(rows))
  {
    forall l, m | l in Active(rows) && m in Active(rows) && (l.0 == m.0 || l.1 == m.1) ensures l == m {
      var r :| r in rows && r.active && l == (r.org, r.installation);
      var q :| q in rows && q.active && m == (q.org, q.installation);
      var i :| 0 <= i < |rows| && rows[i] == r;
      var j :| 0 <= j < |rows| && rows[j] == q;
      assert i == j;
    }
  }

  datatype Event = Create(org: nat, installation: int) | Delete(installation: int)

  function AfterEvent(links: set<(nat, int)>, e: Event): set<(nat, int)> {
    match e
    case Create(org, installation) => AfterCreate(links, org, installation)
    case Delete(installation) => AfterDelete(links, installation)
  }

  function AfterEvents(events: seq<Event>): set<(nat, int)> {
    if events == [] then {} else AfterEvent(AfterEvents(events[..|events| - 1]), events[|events| - 1])
  }

  // After any sequence of creations and deletions the active links are a partial one-to-one map.
  lemma {:induction false} AlwaysOneToOne(events: seq<Event>)
    ensures OneToOne(AfterEvents(events))
    decreases |events|
  {
    if events != [] {
      AlwaysOneToOne(events[..|events| - 1]);
    }
  }

  // What the last event changes, link by link.
  lemma LastEvent(events: seq<Event>, e: Event)
    ensures var was, now := AfterEvents(events), AfterEvents(events + [e]);
            forall org, installation ::
              (org, installation) in now <==>
                match e
                case Delete(gone) => (org, installation) in was && installation != gone
                case Create(o, i) =>
                  if exists l :: l in was && l.1 == i then (org, installation) in was
                  else ((org, installation) in was && org != o) || (org == o && installation == i)
  {
    assert (events + [e])[..|events|] == events;
  }

  // A creation that is not refused leaves exactly this link for its organisation and its installation,
  // and all links of other organisations as they were.
  lemma CreateMeans(links: set<(nat, int)>, org: nat, installation: int)
    requires OneToOne(links) && forall l :: l in links && l.1 == installation ==> l.0 == org
    ensures var after := AfterCreate(links, org, installation);
            && OneToOne(after)
            && (forall l :: l in after && (l.0 == org || l.1 == installation) <==> l == (org, installation))
            && (forall l: (nat, int) :: l.0 != org ==> (l in after <==> l in links))
  {
    var after := AfterCreate(links, org, installation);
    if l :| l in links && l.1 == installation {
      assert l == (org, installation);
    } else {
      assert (org, installation) in after;
    }
  }

  class InstallationTable {
    var rows: seq<LinkRow>

    constructor ()
      ensures rows == []
    {
      rows := [];
    }

    /** Links an installation to an organisation, deactivating the organisation's other installations. */
    method CreateGithubInstallationLink(org: nat, installation: int) returns (r: Result<LinkRow, LinkError>)
      requires OneActiveRowEach(rows)
      modifies this
      ensures OneActiveRowEach(rows)
      ensures r.Failure? <==> exists l :: l in Active(old(rows)) && l.1 == installation && l.0 != org
      ensures r.Failure? ==>
        rows == old(rows) && r.error.LinkedToAnotherOrg? && (r.error.org, installation) in Active(rows)
      ensures r.Success? ==> r.value == LinkRow(org, installation, true) && r.value in rows
      ensures Active(rows) == AfterCreate(Active(old(rows)), org, installation)
      ensures |rows| >= |old(rows)|
      ensures forall i :: 0 <= i < |old(rows)| ==>
        rows[i].org == old(rows)[i].org && rows[i].installation == old(rows)[i].installation
    {
      for i := 0 to |rows|
        invariant rows == old(rows)
        invariant forall j :: 0 <= j < i ==> !(rows[j].active && rows[j].installation == installation)
      {
        if rows[i].active && rows[i].installation == installation {
          assert rows[i] in rows;
          assert (rows[i].org, installation) in Active(rows);
          RowsAreOneToOne(rows);
          if rows[i].org != org {
            return Failure(LinkedToAnotherOrg(rows[i].org));
          }
          return Success(rows[i]);
        }
      }
      assert forall l :: l in Active(rows) ==> l.1 != installation;
      for i := 0 to |rows|
        invariant |rows| == |old(rows)| && OneActiveRowEach(rows)
        invariant forall j :: 0 <= j < |rows| ==>
                    rows[j] == if j < i && old(rows)[j].org == org then old(rows)[j].(active := false) else old(rows)[j]
      {
        if rows[i].active && rows[i].org == org && rows[i].installation != installation {
          rows := rows[i := rows[i].(active := false)];
        }
      }
      ghost var kept := rows;
      DeactivatedLinks(old(rows), kept, org);
      rows := rows + [LinkRow(org, installation, true)];
      assert forall row :: row in rows <==> row in kept || row == LinkRow(org, installation, true);
      assert Active(rows) == Active(kept) + {(org, installation)};
      return Success(LinkRow(org, installation, true));
    }

    /** Deactivates the active link of a deleted installation; without one it tries to save a blank row, and fails. */
    method HandleInstallationDeleted(installation: int) returns (err: Option<LinkError>)
      requires OneActiveRowEach(rows)
      modifies this
      ensures OneActiveRowEach(rows)
      ensures Active(rows) == AfterDelete(Active(old(rows)), installation)
      ensures err == None <==> exists l :: l in Active(old(rows)) && l.1 == installation
      ensures err.Some? ==> err.value == UnknownOrganisation && rows == old(rows)
      ensures |rows| == |old(rows)|
      ensures forall i :: 0 <= i < |rows| ==>
        rows[i] == old(rows)[i].(active := old(rows)[i].active && old(rows)[i].installation != installation)
    {
      for i := 0 to |rows|
        invariant rows == old(rows)
        invariant forall j :: 0 <= j < i ==> !(rows[j].active && rows[j].installation == installation)
      {
        if rows[i].active && rows[i].installation == installation {
          OneLinkLess(rows, i);
          assert rows[i] in rows && (rows[i].org, installation) in Active(rows);
          rows := rows[i := rows[i].(active := false)];
          return None;
        }
      }
      assert forall l :: l in Active(rows) ==> l.1 != installation;
      return Some(UnknownOrganisation);
    }
  }

  lemma DeactivatedLinks(before: seq<LinkRow>, after: seq<LinkRow>, org: nat)
    requires |before| == |after|
    requires forall j :: 0 <= j < |after| ==>
      after[j] == if before[j].org == org then before[j].(active := false) else before[j]
    ensures Active(after) == set l | l in Active(before) && l.0 != org
  {
    forall l ensures l in Active(after) <==> l in Active(before) && l.0 != org {
      if l in Active(after) {
        var row :| row in after && row.active && l == (row.org, row.installation);
        var j :| 0 <= j < |after| && after[j] == row;
        assert before[j] == row && before[j] in before;
      }
      if l in Active(before) && l.0 != org {
        var row :| row in before && row.active && l == (row.org, row.installation);
        var j :| 0 <= j < |before| && before[j] == row;
        assert after[j] == row && after[j] in after;
      }
    }
  }

  lemma OneLinkLess(rows: seq<LinkRow>, i: nat)
    requires OneActiveRowEach(rows) && i < |rows| && rows[i].active
    ensures var after := rows[i := rows[i].(active := false)];
            OneActiveRowEach(after) && Active(after) == AfterDelete(Active(rows), rows[i].installation)
  {
    var after := rows[i := rows[i].(active := false)];
    forall l ensures l in Active(after) <==> l in Active(rows) && l.1 != rows[i].installation {
      if l in Active(after) {
        var row :| row in after && row.active && l == (row.org, row.installation);
        var j :| 0 <= j < |after| && after[j] == row;
        assert j != i && rows[j] == row && rows[j] in rows;
      }
      if l in Active(rows) && l.1 != rows[i].installation {
        var row :| row in rows && row.active && l == (row.org, row.installation);
        var j :| 0 <= j < |rows| && rows[j] == row;
        assert after[j] == row && after[j] in after;
      }
    }
  }
}
