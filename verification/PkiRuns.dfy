/** What every run of issue, revoke, renew and rebuild keeps. */
module PkiRuns {
  import opened Wrappers
  import opened Text
  import opened Pki

  // ---- what a rebuilt list says ----

  ghost predicate Sorted(rows: seq<Cert>, ids: seq<nat>)
    requires Ids(rows, ids)
  {
    forall j, k :: 0 <= j < k < |ids| ==> Before(rows, ids[j], ids[k])
  }

  lemma {:induction false} InsertKeepsSorted(rows: seq<Cert>, id: nat, ids: seq<nat>)
    requires id < |rows| && Ids(rows, ids) && Sorted(rows, ids) && id !in ids
    ensures Sorted(rows, Insert(rows, id, ids))
    ensures forall x: nat :: x in Insert(rows, id, ids) <==> x == id || x in ids
  {
    if ids != [] && !Before(rows, id, ids[0]) {
      InsertKeepsSorted(rows, id, ids[1..]);
      var tail := Insert(rows, id, ids[1..]);
      forall k | 0 <= k < |tail| ensures Before(rows, ids[0], tail[k]) {
        assert tail[k] in tail;
        if tail[k] != id { var m :| 0 <= m < |ids[1..]| && ids[1..][m] == tail[k]; }
      }
      assert forall x: nat :: x in ids <==> x == ids[0] || x in ids[1..];
    }
  }

  ghost predicate ListsRevoked(rows: seq<Cert>, ca: string, n: nat, ids: seq<nat>)
    requires n <= |rows|
  {
    forall x: nat :: x in ids <==> x < n && rows[x].ca == ca && rows[x].revoked
  }

  lemma OneMoreRow(rows: seq<Cert>, ca: string, n: nat, rest: seq<nat>, ids: seq<nat>)
    requires n < |rows| && Ids(rows, rest) && Sorted(rows, rest) && ListsRevoked(rows, ca, n, rest)
    requires ids == if rows[n].ca == ca && rows[n].revoked then Insert(rows, n, rest) else rest
    ensures Ids(rows, ids) && Sorted(rows, ids) && ListsRevoked(rows, ca, n + 1, ids)
  {
    if rows[n].ca == ca && rows[n].revoked { InsertKeepsSorted(rows, n, rest); }
  }

  /** ListRevokedCertificates: exactly the revoked rows of the CA, each once, by revocation time
      and id. */
  lemma {:induction false} RevokedIdsAre(rows: seq<Cert>, ca: string, n: nat)
    requires n <= |rows|
    ensures Sorted(rows, RevokedIds(rows, ca, n)) && ListsRevoked(rows, ca, n, RevokedIds(rows, ca, n))
  {
    if n > 0 {
      RevokedIdsAre(rows, ca, n - 1);
      OneMoreRow(rows, ca, n - 1, RevokedIds(rows, ca, n - 1), RevokedIds(rows, ca, n));
    }
  }

  ghost predicate RowListed(rows: seq<Cert>, ids: seq<nat>, e: Entry)
    requires Ids(rows, ids)
  {
    exists k :: 0 <= k < |ids| && rows[ids[k]].serial == e.serial && rows[ids[k]].revokedAt == e.at && e.serial > 0
  }

  lemma {:induction false} EntriesAre(rows: seq<Cert>, ids: seq<nat>, e: Entry)
    requires Ids(rows, ids)
    ensures e in Entries(rows, ids) <==> RowListed(rows, ids, e)
  {
    if ids != [] {
      var init, last := ids[..|ids| - 1], ids[|ids| - 1];
      EntriesAre(rows, init, e);
      assert RowListed(rows, ids, e) ==> RowListed(rows, init, e) || (rows[last].serial == e.serial && rows[last].revokedAt == e.at);
      if RowListed(rows, init, e) {
        var k :| 0 <= k < |init| && rows[init[k]].serial == e.serial && rows[init[k]].revokedAt == e.at;
        assert ids[k] == init[k];
      }
    }
  }

  /** A revoked row of a CA that an entry stands for. */
  ghost predicate Stands(rows: seq<Cert>, ca: string, e: Entry, id: nat) {
    id < |rows| && rows[id].ca == ca && rows[id].revoked && rows[id].serial == e.serial && rows[id].revokedAt == e.at
  }

  /** A rebuilt list holds exactly the revoked rows of its CA that have a positive serial. */
  lemma RebuildListsExactly(o: Office, ca: string, e: Entry)
    requires ca in o.cas
    ensures ca in Rebuild(o, ca).crls
    ensures e in Rebuild(o, ca).crls[ca].entries <==> e.serial > 0 && exists id: nat :: Stands(o.rows, ca, e, id)
  {
    var ids := RevokedIds(o.rows, ca, |o.rows|);
    RevokedIdsAre(o.rows, ca, |o.rows|);
    EntriesAre(o.rows, ids, e);
    if RowListed(o.rows, ids, e) {
      var k :| 0 <= k < |ids| && o.rows[ids[k]].serial == e.serial && o.rows[ids[k]].revokedAt == e.at;
      assert ids[k] in ids;
      assert Stands(o.rows, ca, e, ids[k]);
    }
    if id: nat :| Stands(o.rows, ca, e, id) {
      assert id in ids;
    }
  }

  // ---- runs ----

  datatype Deed =
    | NewCaDeed(ca: string)
    | IssueDeed(ca: string, kind: Kind, cn: string, signs: bool)
    | RevokeDeed(id: nat, now: int)
    | RenewDeed(id: nat, signs: bool)
    | RebuildDeed(ca: string)

  function Do(o: Office, d: Deed): Office {
    match d
    case NewCaDeed(ca) => CreateCA(o, ca)
    case IssueDeed(ca, kind, cn, signs) => Issue(o, ca, kind, cn, signs)
    case RevokeDeed(id, now) => Revoke(o, id, now)
    case RenewDeed(id, signs) => Renew(o, id, signs)
    case RebuildDeed(ca) => Rebuild(o, ca)
  }

  function After(deeds: seq<Deed>): Office {
    if deeds == [] then EMPTY else Do(After(deeds[..|deeds| - 1]), deeds[|deeds| - 1])
  }

  /** The serials handed out under a CA are 2, 3, ... up to the one in its file, in this order. */
  ghost predicate SerialsOk(o: Office) {
    && (forall ca :: ca in o.cas <==> ca in o.serialFile)
    && (forall ca :: ca in o.cas ==> o.serialFile[ca] >= 2)
    && (forall ca, n :: (ca, n) in o.issued <==> ca in o.cas && 2 <= n < o.serialFile[ca])
    && (forall i, j :: 0 <= i < j < |o.issued| && o.issued[i].0 == o.issued[j].0 ==> o.issued[i].1 < o.issued[j].1)
  }

  /** Rows carry serials that were handed out, no two of a CA the same one. */
  ghost predicate RowsOk(o: Office) {
    && (forall i {:trigger o.rows[i]} :: 0 <= i < |o.rows| ==> (o.rows[i].ca, o.rows[i].serial) in o.issued)
    && (forall i, j :: 0 <= i < j < |o.rows| && o.rows[i].ca == o.rows[j].ca ==> o.rows[i].serial != o.rows[j].serial)
  }

  predicate SameIdentity(c: Cert, d: Cert) { c.ca == d.ca && c.kind == d.kind && c.cn == d.cn }

  /** One row per CA, kind and common name. */
  ghost predicate IdentitiesOk(rows: seq<Cert>) {
    forall i, j :: 0 <= i < j < |rows| ==> !SameIdentity(rows[i], rows[j])
  }

  lemma UpsertKeepsIdentities(rows: seq<Cert>, c: Cert)
    requires IdentitiesOk(rows)
    ensures IdentitiesOk(Upsert(rows, c))
  {
    FindIs(rows, c.ca, c.kind, c.cn);
  }

  ghost predicate OnList(o: Office, c: Cert) {
    c.ca in o.crls && Entry(c.serial, c.revokedAt) in o.crls[c.ca].entries
  }

  ghost predicate Mentioned(o: Office, ca: string, serial: int) {
    ca in o.crls && exists e :: e in o.crls[ca].entries && e.serial == serial
  }

  /** Every revoked row is on the list of its CA, no unrevoked row's serial is, and lists mention
      only serials that were handed out. */
  ghost predicate ListsOk(o: Office) {
    && (forall i {:trigger o.rows[i]} :: 0 <= i < |o.rows| ==> (if o.rows[i].revoked then OnList(o, o.rows[i]) else !Mentioned(o, o.rows[i].ca, o.rows[i].serial)))
    && (forall ca, e :: ca in o.crls && e in o.crls[ca].entries ==> (ca, e.serial) in o.issued)
  }

  /** The numbers published for a CA increase strictly, below the one in its file. */
  ghost predicate NumbersOk(o: Office) {
    && (forall i {:trigger o.published[i]} :: 0 <= i < |o.published| ==>
          o.published[i].0 in o.numberFile && 1 <= o.published[i].1 < o.numberFile[o.published[i].0])
    && (forall i, j :: 0 <= i < j < |o.published| && o.published[i].0 == o.published[j].0 ==> o.published[i].1 < o.published[j].1)
  }

  ghost predicate Safe(o: Office) { SerialsOk(o) && RowsOk(o) && IdentitiesOk(o.rows) && ListsOk(o) && NumbersOk(o) }

  lemma CreateKeepsSafe(o: Office, ca: string)
    requires Safe(o)
    ensures Safe(CreateCA(o, ca))
  {
    var o' := CreateCA(o, ca);
    assert forall i :: 0 <= i < |o'.rows| ==> o'.rows[i] == o.rows[i];
  }

  lemma TakeKeepsSerials(o: Office, ca: string)
    requires SerialsOk(o) && ca in o.cas
    ensures SerialsOk(TakeSerial(o, ca)) && (ca, SerialAt(o, ca)) !in o.issued
  {
    var o' := TakeSerial(o, ca);
    assert forall x :: x in o'.issued <==> x in o.issued || x == (ca, SerialAt(o, ca));
    forall i, j | 0 <= i < j < |o'.issued| && o'.issued[i].0 == o'.issued[j].0 ensures o'.issued[i].1 < o'.issued[j].1 {
      if j == |o.issued| { assert o.issued[i] in o.issued; }
    }
  }

  lemma {:induction false} FindIs(rows: seq<Cert>, ca: string, kind: Kind, cn: string)
    ensures var i := Find(rows, ca, kind, cn);
      && (i < |rows| ==> rows[i].ca == ca && rows[i].kind == kind && rows[i].cn == cn)
      && forall j :: 0 <= j < i ==> !(rows[j].ca == ca && rows[j].kind == kind && rows[j].cn == cn)
  {
    if rows != [] {
      var init := rows[..|rows| - 1];
      FindIs(init, ca, kind, cn);
      assert forall j :: 0 <= j < |init| ==> init[j] == rows[j];
    }
  }

  lemma IssueKeepsRows(o: Office, o': Office, c: Cert)
    requires RowsOk(o) && o'.rows == Upsert(o.rows, c) && o'.issued == o.issued + [(c.ca, c.serial)]
    requires (c.ca, c.serial) !in o.issued
    ensures RowsOk(o')
  {
    var at := Find(o.rows, c.ca, c.kind, c.cn);
    forall i | 0 <= i < |o'.rows| ensures (o'.rows[i].ca, o'.rows[i].serial) in o'.issued {
      if i != at { assert (o.rows[i].ca, o.rows[i].serial) in o.issued; }
    }
    forall i, j | 0 <= i < j < |o'.rows| && o'.rows[i].ca == o'.rows[j].ca ensures o'.rows[i].serial != o'.rows[j].serial {
      if i == at { assert (o.rows[j].ca, o.rows[j].serial) in o.issued; }
      if j == at { assert (o.rows[i].ca, o.rows[i].serial) in o.issued; }
    }
  }

  lemma IssueKeepsLists(o: Office, o': Office, c: Cert)
    requires ListsOk(o) && o'.rows == Upsert(o.rows, c) && o'.issued == o.issued + [(c.ca, c.serial)] && o'.crls == o.crls
    requires (c.ca, c.serial) !in o.issued && !c.revoked
    ensures ListsOk(o')
  {
    var at := Find(o.rows, c.ca, c.kind, c.cn);
    forall i | 0 <= i < |o'.rows|
      ensures if o'.rows[i].revoked then OnList(o', o'.rows[i]) else !Mentioned(o', o'.rows[i].ca, o'.rows[i].serial)
    {
      if i != at { assert o'.rows[i] == o.rows[i]; }
    }
  }

  lemma IssueKeepsSafe(o: Office, ca: string, kind: Kind, cn: string, signs: bool)
    requires Safe(o)
    ensures Safe(Issue(o, ca, kind, cn, signs))
  {
    if TrimSpace(cn) != "" && ca in o.cas {
      TakeKeepsSerials(o, ca);
      var o' := Issue(o, ca, kind, cn, signs);
      if signs {
        var c := Cert(ca, kind, cn, SerialAt(o, ca), false, 0);
        IssueKeepsRows(o, o', c);
        IssueKeepsLists(o, o', c);
        UpsertKeepsIdentities(o.rows, c);
      } else {
        assert forall i :: 0 <= i < |o'.rows| ==> o'.rows[i] == o.rows[i];
        TakeKeepsLists(o, o');
      }
    }
  }

  lemma TakeKeepsLists(o: Office, o': Office)
    requires RowsOk(o) && ListsOk(o) && o'.rows == o.rows && o'.crls == o.crls && o.issued <= o'.issued
    ensures RowsOk(o') && ListsOk(o')
  {
    assert forall x :: x in o.issued ==> x in o'.issued;
    forall i | 0 <= i < |o'.rows|
      ensures (o'.rows[i].ca, o'.rows[i].serial) in o'.issued
      ensures if o'.rows[i].revoked then OnList(o', o'.rows[i]) else !Mentioned(o', o'.rows[i].ca, o'.rows[i].serial)
    {
      assert o'.rows[i] == o.rows[i];
    }
  }

  /** Rows and lists, apart from the rows of one CA. */
  ghost predicate OtherListsOk(o: Office, ca: string) {
    && (forall i {:trigger o.rows[i]} :: 0 <= i < |o.rows| && o.rows[i].ca != ca ==>
          (if o.rows[i].revoked then OnList(o, o.rows[i]) else !Mentioned(o, o.rows[i].ca, o.rows[i].serial)))
    && (forall c, e :: c in o.crls && e in o.crls[c].entries ==> (c, e.serial) in o.issued)
  }

  lemma PositiveSerials(o: Office, id: nat)
    requires SerialsOk(o) && RowsOk(o) && id < |o.rows|
    ensures o.rows[id].serial >= 2 && o.rows[id].ca in o.cas
  {
    assert (o.rows[id].ca, o.rows[id].serial) in o.issued;
  }

  lemma RebuiltRow(o: Office, ca: string, id: nat)
    requires SerialsOk(o) && RowsOk(o) && ca in o.cas && id < |o.rows| && o.rows[id].ca == ca
    ensures var o' := Rebuild(o, ca); if o.rows[id].revoked then OnList(o', o.rows[id]) else !Mentioned(o', ca, o.rows[id].serial)
  {
    var o', c := Rebuild(o, ca), o.rows[id];
    PositiveSerials(o, id);
    RebuildListsExactly(o, ca, Entry(c.serial, c.revokedAt));
    if c.revoked {
      assert Stands(o.rows, ca, Entry(c.serial, c.revokedAt), id);
    } else if Mentioned(o', ca, c.serial) {
      var e :| e in o'.crls[ca].entries && e.serial == c.serial;
      ListedIsRevoked(o, ca, e, id);
    }
  }

  lemma ListedIsRevoked(o: Office, ca: string, e: Entry, id: nat)
    requires RowsOk(o) && ca in o.cas && e in Rebuild(o, ca).crls[ca].entries
    requires id < |o.rows| && o.rows[id].ca == ca && o.rows[id].serial == e.serial
    ensures o.rows[id].revoked
  {
    RebuildListsExactly(o, ca, e);
    var j: nat :| Stands(o.rows, ca, e, j);
    assert j == id;
  }

  lemma RebuiltEntries(o: Office, ca: string, e: Entry)
    requires SerialsOk(o) && RowsOk(o) && ca in o.cas && e in Rebuild(o, ca).crls[ca].entries
    ensures (ca, e.serial) in o.issued
  {
    RebuildListsExactly(o, ca, e);
    var id: nat :| Stands(o.rows, ca, e, id);
    assert (o.rows[id].ca, o.rows[id].serial) in o.issued;
  }

  lemma RebuildRepairs(o: Office, ca: string, o': Office)
    requires SerialsOk(o) && RowsOk(o) && ca in o.cas && OtherListsOk(o, ca) && o' == Rebuild(o, ca)
    ensures ListsOk(o')
  {
    forall i | 0 <= i < |o'.rows|
      ensures if o'.rows[i].revoked then OnList(o', o'.rows[i]) else !Mentioned(o', o'.rows[i].ca, o'.rows[i].serial)
    {
      if o.rows[i].ca == ca { RebuiltRow(o, ca, i); }
    }
    forall c, e | c in o'.crls && e in o'.crls[c].entries ensures (c, e.serial) in o'.issued {
      if c == ca { RebuiltEntries(o, ca, e); }
    }
  }

  lemma RebuildKeepsNumbers(o: Office, ca: string)
    requires NumbersOk(o)
    ensures NumbersOk(Rebuild(o, ca))
  {
    var o' := Rebuild(o, ca);
    if ca in o.cas {
      forall i | 0 <= i < |o'.published|
        ensures o'.published[i].0 in o'.numberFile && 1 <= o'.published[i].1 < o'.numberFile[o'.published[i].0]
      {
        if i < |o.published| { assert o'.published[i] == o.published[i]; }
      }
      forall i, j | 0 <= i < j < |o'.published| && o'.published[i].0 == o'.published[j].0
        ensures o'.published[i].1 < o'.published[j].1
      {
        assert o'.published[i] == o.published[i];
      }
    }
  }

  lemma RebuildKeepsSafe(o: Office, ca: string, o': Office)
    requires SerialsOk(o) && RowsOk(o) && IdentitiesOk(o.rows) && NumbersOk(o) && ca in o.cas && OtherListsOk(o, ca) && o' == Rebuild(o, ca)
    ensures Safe(o')
  {
    RebuildRepairs(o, ca, o');
    RebuildKeepsNumbers(o, ca);
    assert forall i :: 0 <= i < |o'.rows| ==> o'.rows[i] == o.rows[i];
  }

  lemma RevokeKeepsSafe(o: Office, id: nat, now: int)
    requires Safe(o)
    ensures Safe(Revoke(o, id, now))
  {
    if id < |o.rows| && !o.rows[id].revoked {
      var ca := o.rows[id].ca;
      PositiveSerials(o, id);
      var marked := o.(rows := o.rows[id := o.rows[id].(revoked := true, revokedAt := now)]);
      forall i | 0 <= i < |marked.rows| ensures (marked.rows[i].ca, marked.rows[i].serial) in marked.issued { assert (o.rows[i].ca, o.rows[i].serial) in o.issued; }
      forall i | 0 <= i < |marked.rows| && marked.rows[i].ca != ca
        ensures if marked.rows[i].revoked then OnList(marked, marked.rows[i]) else !Mentioned(marked, marked.rows[i].ca, marked.rows[i].serial)
      {
        assert marked.rows[i] == o.rows[i];
      }
      RebuildKeepsSafe(marked, ca, Revoke(o, id, now));
    }
  }

  lemma DoKeepsSafe(o: Office, d: Deed)
    requires Safe(o)
    ensures Safe(Do(o, d))
  {
    match d {
      case NewCaDeed(ca) => CreateKeepsSafe(o, ca);
      case IssueDeed(ca, kind, cn, signs) => IssueKeepsSafe(o, ca, kind, cn, signs);
      case RevokeDeed(id, now) => RevokeKeepsSafe(o, id, now);
      case RenewDeed(id, signs) =>
        if id < |o.rows| { IssueKeepsSafe(o, o.rows[id].ca, o.rows[id].kind, o.rows[id].cn, signs); }
      case RebuildDeed(ca) => if ca in o.cas { RebuildKeepsSafe(o, ca, Do(o, d)); }
    }
  }

  /** Over every run: serials under a CA are distinct, increasing and never the CA's own 1; list
      numbers strictly increase (RFC 5280 section 5.2.3); every revoked row is on the list of its
      CA, and no unrevoked row's serial is. */
  lemma {:induction false} EveryRunIsSafe(deeds: seq<Deed>)
    ensures Safe(After(deeds))
  {
    if deeds != [] {
      EveryRunIsSafe(deeds[..|deeds| - 1]);
      DoKeepsSafe(After(deeds[..|deeds| - 1]), deeds[|deeds| - 1]);
    }
  }

  // ---- exactness between rebuilds ----

  /** A revoked row of a CA carries the serial. */
  ghost predicate Revoked(o: Office, ca: string, serial: int) {
    exists id: nat {:trigger o.rows[id]} :: id < |o.rows| && o.rows[id].ca == ca && o.rows[id].revoked && o.rows[id].serial == serial
  }

  /** The list of a CA mentions exactly the serials of its revoked rows. */
  ghost predicate ListExact(o: Office, ca: string) {
    forall serial :: Mentioned(o, ca, serial) <==> Revoked(o, ca, serial)
  }

  /** A listed serial that no row of the CA carries. */
  ghost predicate Stale(o: Office, ca: string, serial: int) {
    Mentioned(o, ca, serial) && forall id :: 0 <= id < |o.rows| && o.rows[id].ca == ca ==> o.rows[id].serial != serial
  }

  lemma ExactMeansNoneStale(o: Office, ca: string)
    requires Safe(o) && ca in o.crls
    ensures ListExact(o, ca) <==> forall serial :: !Stale(o, ca, serial)
  {
    if forall serial :: !Stale(o, ca, serial) {
      forall serial ensures Mentioned(o, ca, serial) <==> Revoked(o, ca, serial) {
        assert !Stale(o, ca, serial);
        if Revoked(o, ca, serial) {
          var id: nat :| id < |o.rows| && o.rows[id].ca == ca && o.rows[id].revoked && o.rows[id].serial == serial;
          assert OnList(o, o.rows[id]);
        }
      }
    }
  }

  /** The deed publishes a new list of the CA: a rebuild, or the first revocation of one of its
      certificates. */
  predicate Publishes(o: Office, d: Deed, ca: string) {
    match d
    case RebuildDeed(c) => c == ca && ca in o.cas
    case RevokeDeed(id, _) => id < |o.rows| && !o.rows[id].revoked && o.rows[id].ca == ca && ca in o.cas
    case _ => false
  }

  /** The row that an issue or a renewal overwrites, if it succeeds and the identity has one. */
  function Overwritten(o: Office, d: Deed): Option<nat> {
    match d
    case IssueDeed(ca, kind, cn, signs) =>
      if TrimSpace(cn) == "" || ca !in o.cas || !signs || Find(o.rows, ca, kind, cn) == |o.rows| then None
      else Some(Find(o.rows, ca, kind, cn))
    case RenewDeed(id, signs) =>
      if id < |o.rows| && TrimSpace(o.rows[id].cn) != "" && o.rows[id].ca in o.cas && signs then Some(id) else None
    case _ => None
  }

  /** The deed issues anew the identity of a certificate of the CA that is revoked at that time. */
  predicate Reissues(o: Office, d: Deed, ca: string) {
    var id := Overwritten(o, d);
    id.Some? && id.value < |o.rows| && o.rows[id.value].ca == ca && o.rows[id.value].revoked
  }

  /** A deed that publishes no list of the CA leaves its list, and leaves each row of the CA unless
      it overwrites it; what it writes carries a serial never handed out before. */
  ghost predicate Writes(o: Office, o': Office, at: Option<nat>, ca: string) {
    && |o'.rows| >= |o.rows|
    && (forall i {:trigger o'.rows[i]} {:trigger o.rows[i]} :: 0 <= i < |o.rows| && o.rows[i].ca == ca && at != Some(i) ==> o'.rows[i] == o.rows[i])
    && (forall i {:trigger o'.rows[i]} :: 0 <= i < |o'.rows| && o'.rows[i].ca == ca && (i < |o.rows| ==> at == Some(i) || o.rows[i].ca != ca)
          ==> (ca, o'.rows[i].serial) !in o.issued)
    && (ca in o.crls <==> ca in o'.crls) && (ca in o.crls ==> o'.crls[ca] == o.crls[ca])
  }

  lemma FindOwn(rows: seq<Cert>, id: nat)
    requires IdentitiesOk(rows) && id < |rows|
    ensures Find(rows, rows[id].ca, rows[id].kind, rows[id].cn) == id
  {
    FindIs(rows, rows[id].ca, rows[id].kind, rows[id].cn);
    var i := Find(rows, rows[id].ca, rows[id].kind, rows[id].cn);
    if i != id { assert SameIdentity(rows[i], rows[id]); }
  }

  lemma IssueWrites(o: Office, kind: Kind, cn: string, signs: bool, c: string, ca: string)
    requires Safe(o)
    ensures Writes(o, Issue(o, c, kind, cn, signs), Overwritten(o, IssueDeed(c, kind, cn, signs)), ca)
  {
    if TrimSpace(cn) != "" && c in o.cas {
      TakeKeepsSerials(o, c);
      FindIs(o.rows, c, kind, cn);
    }
  }

  lemma RenewWrites(o: Office, id: nat, signs: bool, ca: string)
    requires Safe(o)
    ensures Writes(o, Renew(o, id, signs), Overwritten(o, RenewDeed(id, signs)), ca)
  {
    if id < |o.rows| {
      IssueWrites(o, o.rows[id].kind, o.rows[id].cn, signs, o.rows[id].ca, ca);
      FindOwn(o.rows, id);
    }
  }

  lemma RevokeWrites(o: Office, id: nat, now: int, ca: string)
    requires Safe(o) && !Publishes(o, RevokeDeed(id, now), ca)
    ensures Writes(o, Revoke(o, id, now), None, ca)
  {
    if id < |o.rows| { PositiveSerials(o, id); }
  }

  lemma DoWrites(o: Office, d: Deed, ca: string)
    requires Safe(o) && !Publishes(o, d, ca)
    ensures Writes(o, Do(o, d), Overwritten(o, d), ca)
  {
    match d {
      case IssueDeed(c, kind, cn, signs) => IssueWrites(o, kind, cn, signs, c, ca);
      case RenewDeed(id, signs) => RenewWrites(o, id, signs, ca);
      case RevokeDeed(id, now) => RevokeWrites(o, id, now, ca);
      case _ =>
    }
  }

  lemma StaleStays(o: Office, o': Office, at: Option<nat>, ca: string, serial: int)
    requires Safe(o) && Writes(o, o', at, ca) && Stale(o, ca, serial)
    ensures Stale(o', ca, serial)
  {
    assert (ca, serial) in o.issued;
    forall i | 0 <= i < |o'.rows| && o'.rows[i].ca == ca ensures o'.rows[i].serial != serial {
      if i < |o.rows| && o.rows[i].ca == ca && at != Some(i) { assert o'.rows[i] == o.rows[i]; }
    }
  }

  lemma ReissueMakesStale(o: Office, o': Office, id: nat, ca: string)
    requires Safe(o) && Writes(o, o', Some(id), ca) && id < |o.rows| && o.rows[id].ca == ca && o.rows[id].revoked
    ensures Stale(o', ca, o.rows[id].serial)
  {
    var serial := o.rows[id].serial;
    assert OnList(o, o.rows[id]);
    assert (o.rows[id].ca, o.rows[id].serial) in o.issued;
    forall i | 0 <= i < |o'.rows| && o'.rows[i].ca == ca ensures o'.rows[i].serial != serial {
      if i < |o.rows| && i != id && o.rows[i].ca == ca { assert o'.rows[i] == o.rows[i]; }
    }
  }

  /** Nothing becomes stale while no revoked certificate is issued anew. */
  lemma NoneBecomesStale(o: Office, o': Office, at: Option<nat>, ca: string, serial: int)
    requires Safe(o) && Writes(o, o', at, ca) && ListExact(o, ca)
    requires at.Some? && at.value < |o.rows| && o.rows[at.value].ca == ca ==> !o.rows[at.value].revoked
    ensures !Stale(o', ca, serial)
  {
    if Mentioned(o', ca, serial) {
      assert Mentioned(o, ca, serial) && Revoked(o, ca, serial);
      var id: nat :| id < |o.rows| && o.rows[id].ca == ca && o.rows[id].revoked && o.rows[id].serial == serial;
      assert o'.rows[id] == o.rows[id];
    }
  }

  /** One deed that publishes no list of the CA. */
  lemma StepKeepsExact(o: Office, o': Office, d: Deed, ca: string)
    requires Safe(o) && Safe(o') && ca in o.crls && o' == Do(o, d) && !Publishes(o, d, ca)
    ensures ca in o'.crls && (ListExact(o', ca) <==> ListExact(o, ca) && !Reissues(o, d, ca))
  {
    DoWrites(o, d, ca);
    ExactMeansNoneStale(o, ca);
    ExactMeansNoneStale(o', ca);
    if !ListExact(o, ca) {
      var serial :| Stale(o, ca, serial);
      StaleStays(o, o', Overwritten(o, d), ca, serial);
    } else if Reissues(o, d, ca) {
      ReissueMakesStale(o, o', Overwritten(o, d).value, ca);
    } else {
      forall serial ensures !Stale(o', ca, serial) { NoneBecomesStale(o, o', Overwritten(o, d), ca, serial); }
    }
  }

  /** A list just published is exact. */
  lemma PublishedIsExact(o: Office, o': Office, d: Deed, ca: string)
    requires Safe(o) && Safe(o') && o' == Do(o, d) && Publishes(o, d, ca)
    ensures ca in o'.crls && ListExact(o', ca)
  {
    ExactMeansNoneStale(o', ca);
    forall serial ensures !Stale(o', ca, serial) {
      if Mentioned(o', ca, serial) {
        var e :| e in o'.crls[ca].entries && e.serial == serial;
        var o1 := if d.RevokeDeed? then o.(rows := o'.rows) else o;
        RebuildListsExactly(o1, ca, e);
        var id: nat :| Stands(o1.rows, ca, e, id);
        assert o'.rows[id].serial == serial;
      }
    }
  }

  /** The office before the deed `i` of a later stretch of a run. */
  function Then(deeds: seq<Deed>, later: seq<Deed>, i: nat): Office
    requires i <= |later|
  {
    After(deeds + later[..i])
  }

  lemma ThenNext(deeds: seq<Deed>, later: seq<Deed>, i: nat)
    requires i < |later|
    ensures Then(deeds, later, i + 1) == Do(Then(deeds, later, i), later[i])
  {
    var all := deeds + later[..i + 1];
    assert all[..|all| - 1] == deeds + later[..i];
  }

  /** The deed at each position of a later stretch publishes no list of the CA. */
  ghost predicate NonePublishes(deeds: seq<Deed>, later: seq<Deed>, ca: string, n: nat)
    requires n <= |later|
  {
    forall i: nat {:trigger Then(deeds, later, i)} :: i < n ==> !Publishes(Then(deeds, later, i), later[i], ca)
  }

  /** None of the first `n` deeds issues a revoked certificate of the CA anew. */
  ghost predicate NoneReissues(deeds: seq<Deed>, later: seq<Deed>, ca: string, n: nat)
    requires n <= |later|
  {
    forall i: nat {:trigger Then(deeds, later, i)} :: i < n ==> !Reissues(Then(deeds, later, i), later[i], ca)
  }

  lemma NoneReissuesNext(deeds: seq<Deed>, later: seq<Deed>, ca: string, n: nat)
    requires n < |later|
    ensures NoneReissues(deeds, later, ca, n + 1) <==>
      NoneReissues(deeds, later, ca, n) && !Reissues(Then(deeds, later, n), later[n], ca)
  {
  }

  lemma NonePublishesBefore(deeds: seq<Deed>, later: seq<Deed>, ca: string, n: nat)
    requires n < |later| && NonePublishes(deeds, later, ca, n + 1)
    ensures NonePublishes(deeds, later, ca, n) && !Publishes(Then(deeds, later, n), later[n], ca)
  {
  }

  lemma FirstIsExact(deeds: seq<Deed>, publish: Deed, later: seq<Deed>, ca: string)
    requires Publishes(After(deeds), publish, ca)
    ensures var o := Then(deeds + [publish], later, 0); ca in o.crls && ListExact(o, ca)
  {
    var start := deeds + [publish];
    assert start + later[..0] == start && start[..|start| - 1] == deeds;
    EveryRunIsSafe(deeds);
    EveryRunIsSafe(start);
    PublishedIsExact(After(deeds), After(start), publish, ca);
  }

  lemma ThenKeepsExact(deeds: seq<Deed>, later: seq<Deed>, ca: string, n: nat)
    requires n < |later| && ca in Then(deeds, later, n).crls && !Publishes(Then(deeds, later, n), later[n], ca)
    ensures var o, o' := Then(deeds, later, n), Then(deeds, later, n + 1);
      ca in o'.crls && (ListExact(o', ca) <==> ListExact(o, ca) && !Reissues(o, later[n], ca))
  {
    ThenNext(deeds, later, n);
    EveryRunIsSafe(deeds + later[..n]);
    EveryRunIsSafe(deeds + later[..n + 1]);
    StepKeepsExact(Then(deeds, later, n), Then(deeds, later, n + 1), later[n], ca);
  }

  /** From the publication of a list until the next one of its CA, the list mentions exactly the
      serials of the revoked certificates for as long as none of them is issued anew, and never
      again after that. */
  lemma {:induction false} ListedExactly(deeds: seq<Deed>, publish: Deed, later: seq<Deed>, ca: string, n: nat)
    requires Publishes(After(deeds), publish, ca) && n <= |later| && NonePublishes(deeds + [publish], later, ca, n)
    ensures var o := Then(deeds + [publish], later, n);
      ca in o.crls && (ListExact(o, ca) <==> NoneReissues(deeds + [publish], later, ca, n))
  {
    var start := deeds + [publish];
    if n == 0 {
      FirstIsExact(deeds, publish, later, ca);
    } else {
      NonePublishesBefore(start, later, ca, n - 1);
      ListedExactly(deeds, publish, later, ca, n - 1);
      ThenKeepsExact(start, later, ca, n - 1);
      NoneReissuesNext(start, later, ca, n - 1);
    }
  }

  /** After a renewal no row of the CA carries the old serial. */
  lemma RenewalReplaces(o: Office, id: nat, j: nat)
    requires Safe(o) && id < |o.rows| && TrimSpace(o.rows[id].cn) != ""
    requires var rows := Renew(o, id, true).rows; j < |rows| && rows[j].ca == o.rows[id].ca
    ensures Renew(o, id, true).rows[j].serial != o.rows[id].serial
  {
    var c := o.rows[id];
    PositiveSerials(o, id);
    TakeKeepsSerials(o, c.ca);
    FindIs(o.rows, c.ca, c.kind, c.cn);
    assert (c.ca, c.serial) in o.issued;
    assert Find(o.rows, c.ca, c.kind, c.cn) == id by {
      if Find(o.rows, c.ca, c.kind, c.cn) != id { assert SameIdentity(o.rows[Find(o.rows, c.ca, c.kind, c.cn)], c); }
    }
  }

  /** Renewing a revoked certificate keeps its old serial on the list only until the next
      rebuild, which drops it. */
  lemma RenewDropsOldSerial(o: Office, id: nat)
    requires Safe(o) && id < |o.rows| && o.rows[id].revoked && TrimSpace(o.rows[id].cn) != ""
    ensures var renewed, c := Renew(o, id, true), o.rows[id];
      Mentioned(renewed, c.ca, c.serial) && !Mentioned(Rebuild(renewed, c.ca), c.ca, c.serial)
  {
    var renewed, c := Renew(o, id, true), o.rows[id];
    PositiveSerials(o, id);
    assert OnList(o, c);
    if Mentioned(Rebuild(renewed, c.ca), c.ca, c.serial) {
      var e :| e in Rebuild(renewed, c.ca).crls[c.ca].entries && e.serial == c.serial;
      RebuildListsExactly(renewed, c.ca, e);
      var j: nat :| Stands(renewed.rows, c.ca, e, j);
      RenewalReplaces(o, id, j);
    }
  }

  /** If the serial file is lost, the next serial repeats an old one exactly if any was handed
      out under this CA before. */
  lemma LostFileExactly(o: Office, ca: string)
    requires SerialsOk(o) && ca in o.cas
    ensures var lost := o.(serialFile := o.serialFile - {ca});
      (ca, SerialAt(lost, ca)) in o.issued <==> exists n :: (ca, n) in o.issued
  {
  }
}
