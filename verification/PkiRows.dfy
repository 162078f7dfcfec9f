/** What each operation of the authority does to the certificate rows and the published lists, and
    when a certificate is revoked over whole runs. */
module PkiRows {
  import opened Wrappers
  import opened Text
  import opened Pki
  import opened PkiRuns

  // ---- one operation ----

  /** Creating a CA adds it, with its serial file at 2, and touches nothing else. */
  lemma CreateAdds(o: Office, ca: string)
    requires ca != "" && ca !in o.cas
    ensures var o' := Do(o, NewCaDeed(ca));
      && o'.cas == o.cas + {ca} && ca in o'.serialFile && o'.serialFile[ca] == 2
      && o'.serialFile - {ca} == o.serialFile - {ca} && o'.rows == o.rows && o'.crls == o.crls && o'.numberFile == o.numberFile
  {
  }

  /** The row of an identity. */
  ghost predicate IsRowOf(rows: seq<Cert>, i: nat, ca: string, kind: Kind, cn: string) {
    i < |rows| && rows[i].ca == ca && rows[i].kind == kind && rows[i].cn == cn
  }

  /** A successful issue leaves one row for the identity, unrevoked and under a serial never handed
      out before: its old row, or a new one at the end. No other row and no list changes. */
  lemma IssueWritesRow(o: Office, ca: string, kind: Kind, cn: string) returns (i: nat)
    requires Safe(o) && TrimSpace(cn) != "" && ca in o.cas
    ensures var o' := Do(o, IssueDeed(ca, kind, cn, true));
      && i <= |o.rows| && |o'.rows| == (if i < |o.rows| then |o.rows| else |o.rows| + 1)
      && (i < |o.rows| <==> exists j: nat :: IsRowOf(o.rows, j, ca, kind, cn))
      && (i < |o.rows| ==> IsRowOf(o.rows, i, ca, kind, cn))
      && IsRowOf(o'.rows, i, ca, kind, cn) && !o'.rows[i].revoked && (ca, o'.rows[i].serial) !in o.issued
      && (forall j: nat :: j < |o.rows| && j != i ==> o'.rows[j] == o.rows[j])
      && o'.crls == o.crls && o'.cas == o.cas
  {
    i := Find(o.rows, ca, kind, cn);
    FindIs(o.rows, ca, kind, cn);
    TakeKeepsSerials(o, ca);
    if i < |o.rows| { assert IsRowOf(o.rows, i, ca, kind, cn); }
  }

  /** An issue that fails writes no row: a missing name or CA changes nothing, and a failed
      signature uses up a serial. */
  lemma FailedIssueWritesNothing(o: Office, ca: string, kind: Kind, cn: string, signs: bool)
    requires TrimSpace(cn) == "" || ca !in o.cas || !signs
    ensures var o' := Do(o, IssueDeed(ca, kind, cn, signs));
      && o'.rows == o.rows && o'.crls == o.crls && o'.cas == o.cas
      && (TrimSpace(cn) == "" || ca !in o.cas ==> o' == o)
      && (TrimSpace(cn) != "" && ca in o.cas && Safe(o) ==> o'.issued == o.issued + [(ca, o.serialFile[ca])])
  {
  }

  /** A renewal is an issue of the identity of its row. */
  lemma RenewIsIssue(o: Office, id: nat, signs: bool)
    requires id < |o.rows|
    ensures Do(o, RenewDeed(id, signs)) == Do(o, IssueDeed(o.rows[id].ca, o.rows[id].kind, o.rows[id].cn, signs))
  {
  }

  /** Revoking an unrevoked certificate marks its row with the time and nothing else, leaves every
      other row, and publishes a list of its CA that mentions the serial at that time. */
  lemma RevokeRevokes(o: Office, id: nat, now: int)
    requires Safe(o) && id < |o.rows| && !o.rows[id].revoked
    ensures var o', c := Do(o, RevokeDeed(id, now)), o.rows[id];
      && |o'.rows| == |o.rows| && o'.rows[id] == c.(revoked := true, revokedAt := now)
      && (forall j: nat :: j < |o.rows| && j != id ==> o'.rows[j] == o.rows[j])
      && c.ca in o'.crls && Entry(c.serial, now) in o'.crls[c.ca].entries
      && o'.crls - {c.ca} == o.crls - {c.ca} && o'.cas == o.cas && o'.serialFile == o.serialFile
  {
    var c := o.rows[id];
    var marked := o.(rows := o.rows[id := c.(revoked := true, revokedAt := now)]);
    PositiveSerials(o, id);
    RebuildListsExactly(marked, c.ca, Entry(c.serial, now));
    assert Stands(marked.rows, c.ca, Entry(c.serial, now), id);
    assert Do(o, RevokeDeed(id, now)) == Rebuild(marked, c.ca);
  }

  /** A second revocation, or one of no row, changes nothing. */
  lemma RevokeAgain(o: Office, id: nat, now: int)
    requires id >= |o.rows| || o.rows[id].revoked
    ensures Do(o, RevokeDeed(id, now)) == o
  {
  }

  /** A rebuild touches the list of its CA only. */
  lemma RebuildTouchesLists(o: Office, ca: string)
    ensures var o' := Do(o, RebuildDeed(ca));
      && o'.rows == o.rows && o'.cas == o.cas && o'.serialFile == o.serialFile && o'.crls - {ca} == o.crls - {ca}
      && (ca !in o.cas ==> o' == o)
  {
  }

  lemma {:induction false} EntriesMap(rows: seq<Cert>, ids: seq<nat>)
    requires Ids(rows, ids) && forall k :: 0 <= k < |ids| ==> rows[ids[k]].serial > 0
    ensures var entries := Entries(rows, ids);
      |entries| == |ids| && forall k :: 0 <= k < |ids| ==> entries[k] == Entry(rows[ids[k]].serial, rows[ids[k]].revokedAt)
  {
    if ids != [] { EntriesMap(rows, ids[..|ids| - 1]); }
  }

  /** A rebuilt list has one entry for each revoked row of its CA, in the order of revocation, and
      the next number. */
  lemma RebuiltInOrder(o: Office, ca: string) returns (ids: seq<nat>)
    requires Safe(o) && ca in o.cas
    ensures forall id: nat :: id in ids <==> id < |o.rows| && o.rows[id].ca == ca && o.rows[id].revoked
    ensures Ids(o.rows, ids) && forall j, k :: 0 <= j < k < |ids| ==>
      o.rows[ids[j]].revokedAt < o.rows[ids[k]].revokedAt || (o.rows[ids[j]].revokedAt == o.rows[ids[k]].revokedAt && ids[j] < ids[k])
    ensures var o' := Do(o, RebuildDeed(ca));
      && ca in o'.crls && |o'.crls[ca].entries| == |ids|
      && (forall k :: 0 <= k < |ids| ==> o'.crls[ca].entries[k] == Entry(o.rows[ids[k]].serial, o.rows[ids[k]].revokedAt))
      && (ca in o.numberFile && o.numberFile[ca] >= 1 ==> o'.crls[ca].number == o.numberFile[ca])
      && (ca !in o.numberFile || o.numberFile[ca] < 1 ==> o'.crls[ca].number == 1)
      && o'.numberFile == o.numberFile[ca := o'.crls[ca].number + 1]
  {
    ids := RevokedIds(o.rows, ca, |o.rows|);
    RevokedIdsAre(o.rows, ca, |o.rows|);
    forall k | 0 <= k < |ids| ensures o.rows[ids[k]].serial > 0 { PositiveSerials(o, ids[k]); }
    EntriesMap(o.rows, ids);
  }

  // ---- over runs ----

  /** The deed revokes the row, or would if it were not revoked already. */
  predicate Hits(o: Office, d: Deed, id: nat) { d.RevokeDeed? && d.id == id && id < |o.rows| }

  /** The deed succeeds in issuing the identity of a certificate, by an issue or a renewal. */
  predicate IssuesAnew(o: Office, d: Deed, c: Cert) {
    match d
    case IssueDeed(ca, kind, cn, signs) => ca == c.ca && kind == c.kind && cn == c.cn && TrimSpace(cn) != "" && ca in o.cas && signs
    case RenewDeed(id, signs) => id < |o.rows| && SameIdentity(o.rows[id], c) && TrimSpace(c.cn) != "" && c.ca in o.cas && signs
    case _ => false
  }

  /** What one deed does to a row. */
  lemma RowAfter(o: Office, d: Deed, id: nat)
    requires Safe(o) && id < |o.rows|
    ensures var o', c := Do(o, d), o.rows[id];
      && id < |o'.rows| && SameIdentity(o'.rows[id], c)
      && (o'.rows[id].revoked <==> Hits(o, d, id) || (c.revoked && !IssuesAnew(o, d, c)))
  {
    var c := o.rows[id];
    match d {
      case IssueDeed(ca, kind, cn, signs) => IssuedRow(o, ca, kind, cn, signs, id);
      case RenewDeed(i, signs) => if i < |o.rows| { IssuedRow(o, o.rows[i].ca, o.rows[i].kind, o.rows[i].cn, signs, id); }
      case RevokeDeed(i, now) => RevokedRow(o, i, now, id);
      case _ =>
    }
  }

  lemma IssuedRow(o: Office, ca: string, kind: Kind, cn: string, signs: bool, id: nat)
    requires Safe(o) && id < |o.rows|
    ensures var o', c := Issue(o, ca, kind, cn, signs), o.rows[id];
      && id < |o'.rows| && SameIdentity(o'.rows[id], c)
      && (o'.rows[id].revoked <==> c.revoked && !IssuesAnew(o, IssueDeed(ca, kind, cn, signs), c))
  {
    if TrimSpace(cn) != "" && ca in o.cas && signs {
      var i := IssueWritesRow(o, ca, kind, cn);
      FindOwn(o.rows, id);
    } else {
      FailedIssueWritesNothing(o, ca, kind, cn, signs);
    }
  }

  lemma RevokedRow(o: Office, i: nat, now: int, id: nat)
    requires Safe(o) && id < |o.rows|
    ensures var o', c := Revoke(o, i, now), o.rows[id];
      id < |o'.rows| && SameIdentity(o'.rows[id], c) && (o'.rows[id].revoked <==> i == id || c.revoked)
  {
    if i < |o.rows| && !o.rows[i].revoked { RevokeRevokes(o, i, now); } else { RevokeAgain(o, i, now); }
  }

  /** A row that a deed adds is not revoked, and rows are never taken away. */
  lemma RowsGrow(o: Office, d: Deed)
    requires Safe(o)
    ensures var o' := Do(o, d); |o.rows| <= |o'.rows| && forall id: nat :: |o.rows| <= id < |o'.rows| ==> !o'.rows[id].revoked
  {
    match d {
      case RevokeDeed(i, now) => if i < |o.rows| && !o.rows[i].revoked { RevokeRevokes(o, i, now); } else { RevokeAgain(o, i, now); }
      case _ =>
    }
  }

  /** The office before the deed `i` of a run. */
  function OfficeAt(deeds: seq<Deed>, i: nat): Office
    requires i <= |deeds|
  {
    After(deeds[..i])
  }

  /** One of the first `n` deeds revokes the row, and none of those after it issues the identity
      anew. */
  ghost predicate RevokedLast(deeds: seq<Deed>, n: nat, id: nat, c: Cert)
    requires n <= |deeds|
  {
    exists i: nat :: i < n && Hits(OfficeAt(deeds, i), deeds[i], id) && NoneAnew(deeds, i + 1, n, c)
  }

  ghost predicate NoneAnew(deeds: seq<Deed>, i: nat, n: nat, c: Cert)
    requires n <= |deeds|
  {
    forall j: nat {:trigger OfficeAt(deeds, j)} :: i <= j < n ==> !IssuesAnew(OfficeAt(deeds, j), deeds[j], c)
  }

  lemma RevokedLastNext(deeds: seq<Deed>, n: nat, id: nat, c: Cert)
    requires n < |deeds| && !(Hits(OfficeAt(deeds, n), deeds[n], id) && IssuesAnew(OfficeAt(deeds, n), deeds[n], c))
    ensures RevokedLast(deeds, n + 1, id, c) <==>
      Hits(OfficeAt(deeds, n), deeds[n], id) || (RevokedLast(deeds, n, id, c) && !IssuesAnew(OfficeAt(deeds, n), deeds[n], c))
  {
    var hit, anew := Hits(OfficeAt(deeds, n), deeds[n], id), IssuesAnew(OfficeAt(deeds, n), deeds[n], c);
    if hit { assert NoneAnew(deeds, n + 1, n + 1, c); }
    if RevokedLast(deeds, n, id, c) && !anew {
      var i: nat :| i < n && Hits(OfficeAt(deeds, i), deeds[i], id) && NoneAnew(deeds, i + 1, n, c);
      assert NoneAnew(deeds, i + 1, n + 1, c);
    }
    if RevokedLast(deeds, n + 1, id, c) && !hit {
      var i: nat :| i < n + 1 && Hits(OfficeAt(deeds, i), deeds[i], id) && NoneAnew(deeds, i + 1, n + 1, c);
      assert NoneAnew(deeds, i + 1, n, c);
    }
  }

  lemma BeforeNext(deeds: seq<Deed>, n: nat)
    requires n < |deeds|
    ensures OfficeAt(deeds, n + 1) == Do(OfficeAt(deeds, n), deeds[n])
  {
    assert deeds[..n + 1][..n] == deeds[..n];
  }

  /** Rows that do not exist yet are hit by nothing. */
  lemma {:induction false} NoneHitsBefore(deeds: seq<Deed>, n: nat, id: nat)
    requires n <= |deeds| && id >= |OfficeAt(deeds, n).rows|
    ensures forall i: nat :: i <= n ==> id >= |OfficeAt(deeds, i).rows|
  {
    if n > 0 {
      BeforeNext(deeds, n - 1);
      EveryRunIsSafe(deeds[..n - 1]);
      RowsGrow(OfficeAt(deeds, n - 1), deeds[n - 1]);
      NoneHitsBefore(deeds, n - 1, id);
    }
  }

  /** Over every run a certificate is revoked exactly if some revocation hit it after the last
      successful issue or renewal of its identity. */
  lemma {:induction false} RevokedExactly(deeds: seq<Deed>, n: nat, id: nat)
    requires n <= |deeds| && id < |OfficeAt(deeds, n).rows|
    ensures var c := OfficeAt(deeds, n).rows[id]; c.revoked <==> RevokedLast(deeds, n, id, c)
  {
    if n > 0 {
      var o := OfficeAt(deeds, n - 1);
      var c := OfficeAt(deeds, n).rows[id];
      BeforeNext(deeds, n - 1);
      EveryRunIsSafe(deeds[..n - 1]);
      RevokedLastNext(deeds, n - 1, id, c);
      if id < |o.rows| {
        RevokedExactly(deeds, n - 1, id);
        RowAfter(o, deeds[n - 1], id);
        SameLast(deeds, n - 1, id, o.rows[id], c);
      } else {
        RowsGrow(o, deeds[n - 1]);
        NoneHitsBefore(deeds, n - 1, id);
      }
    }
  }

  /** Only the identity of the certificate matters. */
  lemma SameLast(deeds: seq<Deed>, n: nat, id: nat, c: Cert, d: Cert)
    requires n <= |deeds| && SameIdentity(c, d)
    ensures RevokedLast(deeds, n, id, c) <==> RevokedLast(deeds, n, id, d)
    ensures n < |deeds| ==> (IssuesAnew(OfficeAt(deeds, n), deeds[n], c) <==> IssuesAnew(OfficeAt(deeds, n), deeds[n], d))
  {
    forall i: nat | i <= n ensures NoneAnew(deeds, i, n, c) <==> NoneAnew(deeds, i, n, d) {
      forall j: nat | i <= j < n ensures IssuesAnew(OfficeAt(deeds, j), deeds[j], c) <==> IssuesAnew(OfficeAt(deeds, j), deeds[j], d) {}
    }
  }
}
