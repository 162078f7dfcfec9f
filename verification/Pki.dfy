/** Certificate serials and revocation lists (internal/pki, internal/db/pki.go,
    internal/api/handlers_pki.go): issue, revoke, renew, rebuild. */
module Pki {
  import opened Wrappers
  import opened Text

  datatype Kind = Server | ClientKind

  /** A certificate row; its id is its position, as rows are never deleted. */
  datatype Cert = Cert(ca: string, kind: Kind, cn: string, serial: int, revoked: bool, revokedAt: int)

  /** An entry of a revocation list, and the list itself with its number. */
  datatype Entry = Entry(serial: int, at: int)
  datatype Crl = Crl(number: int, entries: seq<Entry>)

  /** The rows, the serial and CRL-number files, and the published list of each CA. `issued` and
      `published` list what was ever handed out and published; they only record the run. */
  datatype Office = Office(cas: set<string>, rows: seq<Cert>, serialFile: map<string, int>,
                           numberFile: map<string, int>, crls: map<string, Crl>,
                           issued: seq<(string, int)>, published: seq<(string, int)>)

  const EMPTY := Office({}, [], map[], map[], map[], [], [])

  datatype PkiError = BadRequest | NotFound | CaExists | CaMissing | SigningFailed

  // ---- serials ----

  /** The serial nextSerial returns: 2 for a lost file, and never less than 2. */
  function SerialAt(o: Office, ca: string): int {
    if ca in o.serialFile && o.serialFile[ca] >= 2 then o.serialFile[ca] else 2
  }

  function TakeSerial(o: Office, ca: string): Office {
    o.(serialFile := o.serialFile[ca := SerialAt(o, ca) + 1], issued := o.issued + [(ca, SerialAt(o, ca))])
  }

  function CreateCA(o: Office, ca: string): Office {
    if ca == "" || ca in o.cas then o
    else o.(cas := o.cas + {ca}, serialFile := o.serialFile[ca := 2])
  }

  // ---- rows ----

  /** The row of a CA, kind and common name, or the number of rows. */
  function Find(rows: seq<Cert>, ca: string, kind: Kind, cn: string): (i: nat)
    ensures i <= |rows|
    decreases |rows|
  {
    if rows == [] then 0
    else
      var n := |rows| - 1;
      var i := Find(rows[..n], ca, kind, cn);
      if i < n then i
      else if rows[n].ca == ca && rows[n].kind == kind && rows[n].cn == cn then n
      else n + 1
  }

  /** UpsertCertificate with a fresh, unrevoked record. */
  function Upsert(rows: seq<Cert>, c: Cert): seq<Cert> {
    var i := Find(rows, c.ca, c.kind, c.cn);
    if i < |rows| then rows[i := c] else rows + [c]
  }

  /** issueAndStore; a signing failure still uses up the serial. */
  function Issue(o: Office, ca: string, kind: Kind, cn: string, signs: bool): Office {
    if TrimSpace(cn) == "" || ca !in o.cas then o
    else if !signs then TakeSerial(o, ca)
    else TakeSerial(o, ca).(rows := Upsert(o.rows, Cert(ca, kind, cn, SerialAt(o, ca), false, 0)))
  }

  // ---- revocation lists ----

  predicate Before(rows: seq<Cert>, i: nat, j: nat)
    requires i < |rows| && j < |rows|
  {
    rows[i].revokedAt < rows[j].revokedAt || (rows[i].revokedAt == rows[j].revokedAt && i < j)
  }

  ghost predicate Ids(rows: seq<Cert>, ids: seq<nat>) { forall k :: 0 <= k < |ids| ==> ids[k] < |rows| }

  /** `id` put into a list ordered by revocation time and id. */
  function Insert(rows: seq<Cert>, id: nat, ids: seq<nat>): (r: seq<nat>)
    requires id < |rows| && Ids(rows, ids)
    ensures Ids(rows, r) && |r| == |ids| + 1
  {
    if ids == [] || Before(rows, id, ids[0]) then [id] + ids else [ids[0]] + Insert(rows, id, ids[1..])
  }

  /** ListRevokedCertificates: the revoked rows of a CA among the first `n`. */
  function RevokedIds(rows: seq<Cert>, ca: string, n: nat): (r: seq<nat>)
    requires n <= |rows|
    ensures Ids(rows, r)
  {
    if n == 0 then []
    else
      var rest := RevokedIds(rows, ca, n - 1);
      if rows[n - 1].ca == ca && rows[n - 1].revoked then Insert(rows, n - 1, rest) else rest
  }

  /** The entries of listed rows; rows without a positive serial are left out. */
  function Entries(rows: seq<Cert>, ids: seq<nat>): seq<Entry>
    requires Ids(rows, ids)
  {
    if ids == [] then []
    else
      var c := rows[ids[|ids| - 1]];
      Entries(rows, ids[..|ids| - 1]) + if c.serial <= 0 then [] else [Entry(c.serial, c.revokedAt)]
  }

  function NumberAt(o: Office, ca: string): int {
    if ca in o.numberFile && o.numberFile[ca] >= 1 then o.numberFile[ca] else 1
  }

  /** rebuildCRLForCA. */
  function Rebuild(o: Office, ca: string): Office {
    if ca !in o.cas then o
    else
      o.(crls := o.crls[ca := Crl(NumberAt(o, ca), Entries(o.rows, RevokedIds(o.rows, ca, |o.rows|)))],
         numberFile := o.numberFile[ca := NumberAt(o, ca) + 1],
         published := o.published + [(ca, NumberAt(o, ca))])
  }

  /** handleRevokeCert: a second revocation changes nothing. */
  function Revoke(o: Office, id: nat, now: int): Office {
    if id >= |o.rows| || o.rows[id].revoked then o
    else Rebuild(o.(rows := o.rows[id := o.rows[id].(revoked := true, revokedAt := now)]), o.rows[id].ca)
  }

  /** handleRenewCert: a new serial for the same identity, unrevoked; no list is rebuilt. */
  function Renew(o: Office, id: nat, signs: bool): Office {
    if id >= |o.rows| then o else Issue(o, o.rows[id].ca, o.rows[id].kind, o.rows[id].cn, signs)
  }

  class Authority {
    var cas: set<string>
    var rows: seq<Cert>
    var serialFile: map<string, int>
    var numberFile: map<string, int>
    var crls: map<string, Crl>
    ghost var issued: seq<(string, int)>
    ghost var published: seq<(string, int)>

    ghost function Now(): Office
      reads this
    {
      Office(cas, rows, serialFile, numberFile, crls, issued, published)
    }

    constructor ()
      ensures Now() == EMPTY
    {
      cas, rows, serialFile, numberFile, crls, issued, published := {}, [], map[], map[], map[], [], [];
    }

    method NewCA(ca: string) returns (r: Result<int, PkiError>)
      modifies this
      ensures Now() == CreateCA(old(Now()), ca)
      ensures r == if ca == "" then Err(BadRequest) else if ca in old(cas) then Err(CaExists) else Ok(1)
    {
      if ca == "" { return Err(BadRequest); }
      if ca in cas { return Err(CaExists); }
      cas := cas + {ca};
      serialFile := serialFile[ca := 2];
      return Ok(1);
    }

    method NextSerial(ca: string) returns (n: int)
      modifies this`serialFile, this`issued
      ensures Now() == TakeSerial(old(Now()), ca) && n == SerialAt(old(Now()), ca)
    {
      if ca !in serialFile {
        serialFile := serialFile[ca := 3];
        issued := issued + [(ca, 2)];
        return 2;
      }
      n := serialFile[ca];
      if n < 2 { n := 2; }
      serialFile := serialFile[ca := n + 1];
      issued := issued + [(ca, n)];
    }

    method FindCertificate(ca: string, kind: Kind, cn: string) returns (i: nat)
      ensures i == Find(rows, ca, kind, cn)
    {
      i := |rows|;
      for k := 0 to |rows|
        invariant i == if Find(rows[..k], ca, kind, cn) == k then |rows| else Find(rows[..k], ca, kind, cn)
      {
        assert rows[..k + 1][..k] == rows[..k];
        if i == |rows| && rows[k].ca == ca && rows[k].kind == kind && rows[k].cn == cn { i := k; }
      }
      assert rows[..|rows|] == rows;
    }

    method IssueAndStore(ca: string, kind: Kind, cn: string, signs: bool) returns (r: Result<nat, PkiError>)
      modifies this
      ensures Now() == Issue(old(Now()), ca, kind, cn, signs)
      ensures r == if TrimSpace(cn) == "" then Err(BadRequest) else if ca !in cas then Err(CaMissing)
        else if !signs then Err(SigningFailed) else Ok(Find(old(rows), ca, kind, cn))
    {
      if TrimSpace(cn) == "" { return Err(BadRequest); }
      if ca !in cas { return Err(CaMissing); }
      var serial := NextSerial(ca);
      if !signs { return Err(SigningFailed); }
      var c := Cert(ca, kind, cn, serial, false, 0);
      var i := FindCertificate(ca, kind, cn);
      if i < |rows| { rows := rows[i := c]; } else { rows := rows + [c]; }
      return Ok(i);
    }

    method CollectEntries(ids: seq<nat>) returns (entries: seq<Entry>)
      requires Ids(rows, ids)
      ensures entries == Entries(rows, ids)
    {
      entries := [];
      for k := 0 to |ids|
        invariant entries == Entries(rows, ids[..k])
      {
        assert ids[..k + 1][..k] == ids[..k];
        var c := rows[ids[k]];
        if c.serial > 0 { entries := entries + [Entry(c.serial, c.revokedAt)]; }
      }
      assert ids[..|ids|] == ids;
    }

    method RebuildCRL(ca: string) returns (r: Result<int, PkiError>)
      modifies this
      ensures Now() == Rebuild(old(Now()), ca)
      ensures r == if ca !in cas then Err(CaMissing) else Ok(NumberAt(old(Now()), ca))
    {
      if ca !in cas { return Err(CaMissing); }
      var entries := CollectEntries(RevokedIds(rows, ca, |rows|));
      var n := if ca in numberFile && numberFile[ca] >= 1 then numberFile[ca] else 1;
      crls := crls[ca := Crl(n, entries)];
      numberFile := numberFile[ca := n + 1];
      published := published + [(ca, n)];
      return Ok(n);
    }

    method RevokeCert(id: nat, now: int) returns (r: Result<(), PkiError>)
      modifies this
      ensures Now() == Revoke(old(Now()), id, now)
      ensures r == if id >= |old(rows)| then Err(NotFound)
        else if !old(rows)[id].revoked && old(rows)[id].ca !in cas then Err(CaMissing) else Ok(())
    {
      if id >= |rows| { return Err(NotFound); }
      var c := rows[id];
      if c.revoked { return Ok(()); }
      rows := rows[id := c.(revoked := true, revokedAt := now)];
      var built := RebuildCRL(c.ca);
      return if built.Ok? then Ok(()) else Err(CaMissing);
    }

    method RenewCert(id: nat, signs: bool) returns (r: Result<nat, PkiError>)
      modifies this
      ensures Now() == Renew(old(Now()), id, signs)
      ensures id >= |old(rows)| ==> r == Err(NotFound)
    {
      if id >= |rows| { return Err(NotFound); }
      r := IssueAndStore(rows[id].ca, rows[id].kind, rows[id].cn, signs);
    }
  }
}
