/** What the bytes the agent sends back say, in terms of the leaves of its view and the order of
    OIDs alone. */
module AgentReplies {
  import opened Bytes
  import opened Wrappers
  import opened Oids
  import opened Ber
  import opened BerValues
  import opened Pdus
  import opened Mibs
  import opened Agents
  import Lex

  // ---- what a binding of an answer says ----

  predicate IsLeaf(leaves: seq<Variable>, name: OID, b: VarBind) {
    exists v :: v in leaves && v.oid == name && b == VarBind(name, v.value)
  }

  /** The leaf of this name; without one noSuchInstance (0x81) if some leaf lies below the name, and
      noSuchObject (0x80) if none does. */
  predicate GetMeans(leaves: seq<Variable>, name: OID, b: VarBind) {
    if exists v :: v in leaves && v.oid == name then IsLeaf(leaves, name, b)
    else if exists v :: v in leaves && name <= v.oid then b == VarBind(name, Value(0x81, 0, 0, "", []))
    else b == VarBind(name, Value(0x80, 0, 0, "", []))
  }

  predicate Above(leaves: seq<Variable>, name: OID, v: Variable) { v in leaves && Lex.Less(name, v.oid) }

  predicate LeastAbove(leaves: seq<Variable>, name: OID, v: Variable) {
    Above(leaves, name, v) && forall u :: u in leaves && Lex.Less(name, u.oid) ==> !Lex.Less(u.oid, v.oid)
  }

  predicate NoneAbove(leaves: seq<Variable>, name: OID) { forall v :: v in leaves ==> !Lex.Less(name, v.oid) }

  /** The least leaf above the name; without one the name and endOfMibView (0x82). */
  predicate NextMeans(leaves: seq<Variable>, name: OID, b: VarBind) {
    if NoneAbove(leaves, name) then b == VarBind(name, Value(0x82, 0, 0, "", []))
    else exists v :: v in leaves && LeastAbove(leaves, name, v) && b == VarBind(v.oid, v.value)
  }

  // ---- GETBULK ----

  function Concat(rows: seq<seq<VarBind>>): seq<VarBind> {
    if rows == [] then [] else rows[0] + Concat(rows[1..])
  }

  function Names(bs: seq<VarBind>): (r: seq<OID>)
    ensures |r| == |bs| && forall i :: 0 <= i < |bs| ==> r[i] == bs[i].name
  {
    seq(|bs|, i requires 0 <= i < |bs| => bs[i].name)
  }

  /** The names a repetition starts from: those asked for, then those of the row before. */
  function From(names: seq<OID>, rows: seq<seq<VarBind>>, r: nat): seq<OID>
    requires r <= |rows|
  {
    if r == 0 then names else Names(rows[r - 1])
  }

  ghost predicate RowMeans(leaves: seq<Variable>, from: seq<OID>, row: seq<VarBind>) {
    |row| == |from| && forall i :: 0 <= i < |from| ==> NextMeans(leaves, from[i], row[i])
  }

  ghost predicate AllPast(leaves: seq<Variable>, from: seq<OID>) { forall i :: 0 <= i < |from| ==> NoneAbove(leaves, from[i]) }

  /** At most `most` repetitions, each of the successors of the one before, and fewer only after one
      that started at the end of the view in every name. */
  ghost predicate RowsMean(leaves: seq<Variable>, names: seq<OID>, most: nat, rows: seq<seq<VarBind>>) {
    && |rows| <= most && (|rows| < most ==> |rows| > 0)
    && forall r: nat :: r < |rows| ==> RowFits(leaves, names, most, rows, r)
  }

  ghost predicate RowFits(leaves: seq<Variable>, names: seq<OID>, most: nat, rows: seq<seq<VarBind>>, r: nat)
    requires r < |rows|
  {
    && RowMeans(leaves, From(names, rows, r), rows[r])
    && (r + 1 < |rows| || |rows| < most ==> (AllPast(leaves, From(names, rows, r)) <==> r + 1 == |rows|))
  }

  /** The answer to GETBULK: a successor for each of the first `nonRepeaters` names, then at most
      `maxRepetitions` rows for the others; both counts are brought into range, the second up to
      100. */
  ghost predicate BulkMeans(leaves: seq<Variable>, p: Pdu, bs: seq<VarBind>) {
    exists rows: seq<seq<VarBind>> :: BulkRowsMean(leaves, p, bs, rows)
  }

  ghost predicate BulkRowsMean(leaves: seq<Variable>, p: Pdu, bs: seq<VarBind>, rows: seq<seq<VarBind>>) {
    var n := |p.bindings|;
    var k := if p.nonRepeaters < 0 then 0 else if p.nonRepeaters > n then n else p.nonRepeaters;
    var most := if p.maxRepetitions < 0 then 0 else if p.maxRepetitions > 100 then 100 else p.maxRepetitions;
    && k <= |bs| && bs[k..] == Concat(rows)
    && (forall i :: 0 <= i < k ==> NextMeans(leaves, p.bindings[i].name, bs[i]))
    && (if k == n then rows == [] else RowsMean(leaves, Names(p.bindings[k..]), most, rows))
  }

  /** The answer to a request, by its type: GET, GETNEXT, GETBULK, SET (notWritable at index 1, the
      bindings echoed), or anything else (genErr, the bindings echoed). */
  ghost predicate AnswerMeans(leaves: seq<Variable>, p: Pdu, status: int64, index: int64, bs: seq<VarBind>) {
    if p.typ == 0xA0 then
      status == 0 && index == 0 && |bs| == |p.bindings| && forall i :: 0 <= i < |bs| ==> GetMeans(leaves, p.bindings[i].name, bs[i])
    else if p.typ == 0xA1 then
      status == 0 && index == 0 && |bs| == |p.bindings| && forall i :: 0 <= i < |bs| ==> NextMeans(leaves, p.bindings[i].name, bs[i])
    else if p.typ == 0xA5 then status == 0 && index == 0 && BulkMeans(leaves, p, bs)
    else if p.typ == 0xA3 then status == 17 && index == (if p.bindings == [] then 0 else 1) && bs == p.bindings
    else status == 5 && index == 0 && bs == p.bindings
  }

  // ---- single bindings ----

  /** A sorted list with the same members as the leaves. */
  ghost predicate Arranges(vars: seq<Variable>, leaves: seq<Variable>) {
    Sorted(vars) && forall v :: v in vars <==> v in leaves
  }

  lemma SortArranges(leaves: seq<Variable>)
    ensures Arranges(SortByOid(leaves), leaves)
  {
    SortCorrect(leaves);
    SameMembers(SortByOid(leaves), leaves);
  }

  lemma {:induction false} ExactIs(vars: seq<Variable>, name: OID)
    ensures match ExactOf(vars, name) case Some(v) => v in vars && v.oid == name case None => forall v :: v in vars ==> v.oid != name
  {
    if vars != [] && vars[0].oid != name {
      ExactIs(vars[1..], name);
      assert vars == [vars[0]] + vars[1..];
    }
  }

  lemma BelowIs(vars: seq<Variable>, name: OID)
    ensures SomeBelow(vars, name) <==> exists v :: v in vars && name <= v.oid
  {
    if v :| v in vars && name <= v.oid {
      var i :| 0 <= i < |vars| && vars[i] == v;
    }
    if SomeBelow(vars, name) {
      var i :| 0 <= i < |vars| && name <= vars[i].oid;
      assert vars[i] in vars;
    }
  }

  lemma GetIs(vars: seq<Variable>, leaves: seq<Variable>, name: OID)
    requires Arranges(vars, leaves)
    ensures GetMeans(leaves, name, GetBinding(vars, name))
  {
    ExactIs(vars, name);
    BelowIs(vars, name);
  }

  lemma NextIs(vars: seq<Variable>, leaves: seq<Variable>, name: OID)
    requires Arranges(vars, leaves)
    ensures NextMeans(leaves, name, NextBinding(vars, name))
    ensures AtEnd(vars, name) <==> NoneAbove(leaves, name)
  {
    var k := FirstAbove(vars, name);
    FirstAboveIsFirst(vars, name);
    if k < |vars| {
      assert vars[k] in leaves;
      forall u | u in leaves && Lex.Less(name, u.oid) ensures !Lex.Less(u.oid, vars[k].oid) {
        var i :| 0 <= i < |vars| && vars[i] == u;
        if i == k { Lex.CompareRange(u.oid, u.oid); } else { Lex.CompareRange(vars[k].oid, u.oid); }
      }
      assert LeastAbove(leaves, name, vars[k]);
    }
  }

  // ---- GETBULK answers ----

  lemma RowIs(vars: seq<Variable>, leaves: seq<Variable>, cursors: seq<OID>)
    requires Arranges(vars, leaves)
    ensures RowMeans(leaves, cursors, Row(vars, cursors))
    ensures AllAtEnd(vars, cursors) <==> AllPast(leaves, cursors)
  {
    forall i | 0 <= i < |cursors|
      ensures NextMeans(leaves, cursors[i], Row(vars, cursors)[i]) && (AtEnd(vars, cursors[i]) <==> NoneAbove(leaves, cursors[i]))
    {
      NextIs(vars, leaves, cursors[i]);
    }
  }

  /** The rows GETBULK sends, one by one. */
  ghost function RowList(vars: seq<Variable>, cursors: seq<OID>, n: nat): seq<seq<VarBind>>
    decreases n
  {
    if n == 0 then []
    else [Row(vars, cursors)] + if AllAtEnd(vars, cursors) then [] else RowList(vars, NamesOf(Row(vars, cursors)), n - 1)
  }

  lemma ConcatFront(row: seq<VarBind>, rest: seq<seq<VarBind>>)
    ensures Concat([row] + rest) == row + Concat(rest)
  {
    assert ([row] + rest)[1..] == rest;
  }

  lemma FromTail(names: seq<OID>, row: seq<VarBind>, rest: seq<seq<VarBind>>, r: nat)
    requires r <= |rest|
    ensures From(names, [row] + rest, r + 1) == From(NamesOf(row), rest, r)
  {
    var rows := [row] + rest;
    if r > 0 { assert rows[r] == rest[r - 1]; } else { assert rows[0] == row && Names(row) == NamesOf(row); }
  }

  lemma LaterRowFits(leaves: seq<Variable>, names: seq<OID>, n: nat, row: seq<VarBind>, rest: seq<seq<VarBind>>, r: nat)
    requires n > 0 && r < |rest| && RowFits(leaves, NamesOf(row), n - 1, rest, r)
    ensures RowFits(leaves, names, n, [row] + rest, r + 1)
  {
    FromTail(names, row, rest, r);
    assert ([row] + rest)[r + 1] == rest[r];
  }

  lemma FirstRowFits(leaves: seq<Variable>, names: seq<OID>, n: nat, row: seq<VarBind>, rest: seq<seq<VarBind>>)
    requires n > 0 && RowMeans(leaves, names, row) && |rest| < n && (n > 1 ==> (AllPast(leaves, names) <==> rest == []))
    ensures RowFits(leaves, names, n, [row] + rest, 0)
  {
  }

  /** One row in front of the others. */
  lemma RowsMeanFront(leaves: seq<Variable>, names: seq<OID>, n: nat, row: seq<VarBind>, rest: seq<seq<VarBind>>)
    requires n > 0 && RowMeans(leaves, names, row)
    requires if AllPast(leaves, names) then rest == [] else RowsMean(leaves, NamesOf(row), n - 1, rest)
    ensures RowsMean(leaves, names, n, [row] + rest)
  {
    FirstRowFits(leaves, names, n, row, rest);
    forall r: nat | r < |[row] + rest| ensures RowFits(leaves, names, n, [row] + rest, r) {
      if r > 0 {
        assert RowFits(leaves, NamesOf(row), n - 1, rest, r - 1);
        LaterRowFits(leaves, names, n, row, rest, r - 1);
      }
    }
  }

  lemma NoRows(leaves: seq<Variable>, names: seq<OID>)
    ensures RowsMean(leaves, names, 0, [])
  {
  }

  /** A claim about repetitions that holds of none, and of one more in front. */
  ghost predicate Claims(vars: seq<Variable>, good: (seq<OID>, nat, seq<seq<VarBind>>) -> bool) {
    && (forall c {:trigger good(c, 0, [])} :: good(c, 0, []))
    && forall c, n: nat, rest {:trigger good(c, n, [Row(vars, c)] + rest)} ::
        n > 0 && (if AllAtEnd(vars, c) then rest == [] else good(NamesOf(Row(vars, c)), n - 1, rest)) ==> good(c, n, [Row(vars, c)] + rest)
  }

  lemma {:induction false} RowListKeeps(vars: seq<Variable>, good: (seq<OID>, nat, seq<seq<VarBind>>) -> bool, cursors: seq<OID>, n: nat)
    requires Claims(vars, good)
    ensures good(cursors, n, RowList(vars, cursors, n))
    decreases n
  {
    if n > 0 {
      var row := Row(vars, cursors);
      if AllAtEnd(vars, cursors) {
        assert good(cursors, n, [row] + []);
      } else {
        RowListKeeps(vars, good, NamesOf(row), n - 1);
        assert good(cursors, n, [row] + RowList(vars, NamesOf(row), n - 1));
      }
    }
  }

  /** One row in front of the others is one more repetition. */
  lemma BulkFront(vars: seq<Variable>, c: seq<OID>, n: nat, rest: seq<seq<VarBind>>)
    requires n > 0
    requires if AllAtEnd(vars, c) then rest == [] else Concat(rest) == BulkRows(vars, NamesOf(Row(vars, c)), n - 1)
    ensures Concat([Row(vars, c)] + rest) == BulkRows(vars, c, n)
  {
    var row := Row(vars, c);
    BulkStep(vars, c, n, []);
    assert [] + BulkRows(vars, c, n) == BulkRows(vars, c, n) && [] + row == row;
    ConcatFront(row, rest);
    assert row + [] == row;
  }

  lemma NoneSent(vars: seq<Variable>, c: seq<OID>)
    ensures Concat([]) == BulkRows(vars, c, 0)
  {
  }

  lemma RowListIs(vars: seq<Variable>, cursors: seq<OID>, n: nat)
    ensures Concat(RowList(vars, cursors, n)) == BulkRows(vars, cursors, n)
  {
    var good := (c, n: nat, rows) => Concat(rows) == BulkRows(vars, c, n);
    forall c ensures good(c, 0, []) { NoneSent(vars, c); }
    forall c, n: nat, rest | n > 0 && (if AllAtEnd(vars, c) then rest == [] else good(NamesOf(Row(vars, c)), n - 1, rest))
      ensures good(c, n, [Row(vars, c)] + rest)
    {
      BulkFront(vars, c, n, rest);
    }
    RowListKeeps(vars, good, cursors, n);
  }

  lemma RowListMeans(vars: seq<Variable>, leaves: seq<Variable>, cursors: seq<OID>, n: nat)
    requires Arranges(vars, leaves)
    ensures RowsMean(leaves, cursors, n, RowList(vars, cursors, n))
  {
    var good := (c, n: nat, rows) => RowsMean(leaves, c, n, rows);
    forall c ensures good(c, 0, []) { NoRows(leaves, c); }
    forall c, n: nat, rest | n > 0 && (if AllAtEnd(vars, c) then rest == [] else good(NamesOf(Row(vars, c)), n - 1, rest))
      ensures good(c, n, [Row(vars, c)] + rest)
    {
      RowIs(vars, leaves, c);
      RowsMeanFront(leaves, c, n, Row(vars, c), rest);
    }
    RowListKeeps(vars, good, cursors, n);
  }

  lemma AllNextIs(vars: seq<Variable>, leaves: seq<Variable>, req: seq<VarBind>)
    requires Arranges(vars, leaves)
    ensures forall i :: 0 <= i < |req| ==> NextMeans(leaves, req[i].name, NextAll(vars, req)[i])
  {
    forall i | 0 <= i < |req| ensures NextMeans(leaves, req[i].name, NextAll(vars, req)[i]) { NextIs(vars, leaves, req[i].name); }
  }

  lemma BulkIs(vars: seq<Variable>, leaves: seq<Variable>, p: Pdu)
    requires Arranges(vars, leaves)
    ensures BulkMeans(leaves, p, BulkAnswer(vars, p))
  {
    var k, most := Clamp(p.nonRepeaters, |p.bindings|), Clamp(p.maxRepetitions, 100);
    var reps := NamesOf(p.bindings[k..]);
    var first := NextAll(vars, p.bindings[..k]);
    AllNextIs(vars, leaves, p.bindings[..k]);
    if reps == [] {
      BulkFits(leaves, p, k, most, reps, first, []);
    } else {
      RowListIs(vars, reps, most);
      RowListMeans(vars, leaves, reps, most);
      BulkFits(leaves, p, k, most, reps, first, RowList(vars, reps, most));
    }
  }

  lemma BulkFits(leaves: seq<Variable>, p: Pdu, k: nat, most: nat, reps: seq<OID>, first: seq<VarBind>, rows: seq<seq<VarBind>>)
    requires k == Clamp(p.nonRepeaters, |p.bindings|) && most == Clamp(p.maxRepetitions, 100) && reps == NamesOf(p.bindings[k..])
    requires |first| == k && forall i :: 0 <= i < k ==> NextMeans(leaves, p.bindings[..k][i].name, first[i])
    requires if reps == [] then rows == [] else RowsMean(leaves, reps, most, rows)
    ensures BulkMeans(leaves, p, first + Concat(rows))
  {
    BulkSplit(p, k, first, Concat(rows), first + Concat(rows));
    assert reps == Names(p.bindings[k..]);
    assert BulkRowsMean(leaves, p, first + Concat(rows), rows);
  }

  lemma BulkSplit(p: Pdu, k: nat, first: seq<VarBind>, rest: seq<VarBind>, bs: seq<VarBind>)
    requires |first| == k <= |p.bindings| && bs == first + rest
    ensures bs[k..] == rest && forall i :: 0 <= i < k ==> bs[i] == first[i] && p.bindings[..k][i] == p.bindings[i]
  {
  }

  lemma AnswerIs(vars: seq<Variable>, leaves: seq<Variable>, p: Pdu)
    requires Arranges(vars, leaves)
    ensures var a := Answer(vars, p); AnswerMeans(leaves, p, a.errorStatus, a.errorIndex, a.bindings)
  {
    if p.typ == PDU_GET {
      forall i | 0 <= i < |p.bindings| ensures GetMeans(leaves, p.bindings[i].name, GetAll(vars, p.bindings)[i]) { GetIs(vars, leaves, p.bindings[i].name); }
    } else if p.typ == PDU_GET_NEXT {
      AllNextIs(vars, leaves, p.bindings);
    } else if p.typ == PDU_GET_BULK {
      BulkIs(vars, leaves, p);
    }
  }

  // ---- whole replies ----

  /** The response PDU with this status and these bindings. */
  function Response(id: int32, status: int64, index: int64, bs: seq<VarBind>): Pdu { Pdu(0xA2, id, status, index, 0, 0, false, bs) }

  /** The bytes sent back for a request: they decode to a response of the request's version,
      community and id that says what the request asks for, or, where that took more than 64000
      bytes, to one with status tooBig (1) and nothing else. */
  ghost predicate ReplyMeans(leaves: seq<Variable>, msg: Message, resp: bytes, status: int64, index: int64, bs: seq<VarBind>) {
    && AnswerMeans(leaves, msg.pdu, status, index, bs)
    && var full := MessageBytes(Message(msg.version, msg.community, Response(msg.pdu.requestId, status, index, bs)));
       DecodeMessage(resp) == Ok(Message(msg.version, msg.community,
         if |full| > 64000 then Response(msg.pdu.requestId, 1, 0, []) else Response(msg.pdu.requestId, status, index, SentBindings(bs))))
  }

  /** For every accepted request that fits a datagram, the reply says what was asked for, in terms
      of the leaves of the view alone. */
  lemma ReplyIs(base: OID, cache: Snapshot, req: bytes) returns (status: int64, index: int64, bs: seq<VarBind>)
    requires Bounded(cache) && |req| <= 65535 && DecodeMessage(req).Ok?
    ensures var leaves, msg := Leaves(EffectiveBase(base), cache), DecodeMessage(req).value;
      ReplyMeans(leaves, msg, MessageBytes(Reply(SortByOid(leaves), msg)), status, index, bs)
  {
    var leaves, msg := Leaves(EffectiveBase(base), cache), DecodeMessage(req).value;
    var vars := SortByOid(leaves);
    var a := Answer(vars, msg.pdu);
    status, index, bs := a.errorStatus, a.errorIndex, a.bindings;
    SortArranges(leaves);
    AnswerIs(vars, leaves, msg.pdu);
    ReplyDecodes(vars, req);
    ReplyParts(vars, msg, status, index, bs);
  }

  lemma SentResponse(version: int64, community: Octets, id: int32, status: int64, index: int64, bs: seq<VarBind>)
    ensures SentMessage(Message(version, community, Response(id, status, index, bs)))
      == Message(version, community, Response(id, status, index, SentBindings(bs)))
  {
  }

  lemma ReplyParts(vars: seq<Variable>, msg: Message, status: int64, index: int64, bs: seq<VarBind>)
    requires var a := Answer(vars, msg.pdu); status == a.errorStatus && index == a.errorIndex && bs == a.bindings
    ensures var full := MessageBytes(Message(msg.version, msg.community, Response(msg.pdu.requestId, status, index, bs)));
      SentMessage(Reply(vars, msg)) == Message(msg.version, msg.community,
        if |full| > 64000 then Response(msg.pdu.requestId, 1, 0, []) else Response(msg.pdu.requestId, status, index, SentBindings(bs)))
  {
    var id := msg.pdu.requestId;
    AnswerParts(vars, msg.pdu, status, index, bs);
    SentResponse(msg.version, msg.community, id, status, index, bs);
    SentResponse(msg.version, msg.community, id, 1, 0, []);
    assert SentBindings([]) == [];
  }

  lemma AnswerParts(vars: seq<Variable>, p: Pdu, status: int64, index: int64, bs: seq<VarBind>)
    requires var a := Answer(vars, p); status == a.errorStatus && index == a.errorIndex && bs == a.bindings
    ensures Answer(vars, p) == Response(p.requestId, status, index, bs)
  {
  }
}
