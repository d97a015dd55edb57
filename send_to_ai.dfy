/** Classification of grants and storage of the derived data (grant_search/ingest/send_to_ai.py).
    The model call is an input: it maps the chat messages to an analysis, or to None where the
    call raises. The futures are consumed in submission order, so the loop is sequential. */
module SendToAi {
  import opened Wrappers
  import opened Utf8
  import opened GrantModels
  import opened AiCommon

  const SystemPrompt := "\nProcess the grant description below to answer the questions in the model.\n"

  /** GrantAnalysis, the response model. `summary` has no column in GrantDerivedData. */
  datatype Analysis = Analysis(deiStatus: DeiStatus, deiWomen: bool, deiRace: bool, outrageous: bool,
                               hardScience: bool, carbon: bool, summary: string)

  /** The text given to the model: bytes are decoded as UTF-8, a str is used as is. None where
      decoding raises. */
  function GrantText(raw: RawText): (r: Option<string>)
    ensures raw.Text? ==> r == Some(raw.text)
    ensures raw.Bytes? ==> r == Utf8.Decode(raw.bytes)
  {
    match raw
    case Bytes(b) => Utf8.Decode(b)
    case Text(t) => Some(t)
  }

  /** What ingestion stores (the encoded file or record) is read back unchanged. */
  lemma StoredTextReadBack(s: string)
    ensures GrantText(Bytes(Utf8.Encode(s))) == Some(s)
  {
    Utf8.DecodeEncode(s);
  }

  /** process_single_grant: the grant with its analysis, or None where decoding or the call
      raises (the exception is logged). */
  function ProcessSingleGrant(g: Grant, classify: seq<Message> -> Option<Analysis>)
    : (r: Option<(Grant, Analysis)>)
    ensures r.Some? <==> GrantText(g.rawText).Some? && classify(FormatForLlm(SystemPrompt, GrantText(g.rawText).value)).Some?
    ensures r.Some? ==> r.value.0 == g && Some(r.value.1) == classify(FormatForLlm(SystemPrompt, GrantText(g.rawText).value))
  {
    match GrantText(g.rawText)
    case None => None
    case Some(text) =>
      match classify(FormatForLlm(SystemPrompt, text))
      case None => None
      case Some(a) => Some((g, a))
  }

  /** The derived rows of one grant. */
  function RowsFor(ds: seq<Derived>, grantId: nat): (r: seq<Derived>)
    ensures |r| <= |ds|
    ensures forall i :: 0 <= i < |r| ==> r[i].grantId == grantId
  {
    if ds == [] then []
    else (if ds[0].grantId == grantId then [ds[0]] else []) + RowsFor(ds[1..], grantId)
  }

  /** The table holds at most one derived row per grant id. */
  ghost predicate AtMostOnePerGrant(ds: seq<Derived>) {
    forall gid :: |RowsFor(ds, gid)| <= 1
  }

  /** The row's columns are the analysis' answers. */
  predicate Records(d: Derived, a: Analysis) {
    d.deiStatus == a.deiStatus && d.deiWomen == a.deiWomen && d.deiRace == a.deiRace
    && d.outrageous == a.outrageous && d.hardScience == a.hardScience && d.carbon == a.carbon
  }

  /** `.filter(GrantDerivedData.grant_id == id).first()` deleted, when there is one. */
  function DropFirstFor(ds: seq<Derived>, grantId: nat): (r: seq<Derived>)
    ensures FirstWhere(ds, (d: Derived) => d.grantId == grantId).None? ==> r == ds
    ensures FirstWhere(ds, (d: Derived) => d.grantId == grantId).Some? ==> |r| == |ds| - 1
  {
    match FirstWhere(ds, (d: Derived) => d.grantId == grantId)
    case None => ds
    case Some(i) => ds[..i] + ds[i + 1..]
  }

  function RowOf(id: nat, grantId: nat, a: Analysis): Derived {
    Derived(id, grantId, a.deiStatus, a.deiWomen, a.deiRace, a.outrageous, a.hardScience, a.carbon)
  }

  /** One future of process_grants as written: the old row is deleted and flushed, then
      GrantDerivedData(**analysis.model_dump()) raises TypeError on `summary`; the exception is
      logged and the commit at the end of the iteration keeps the deletion. */
  function StepAsWritten(ds: seq<Derived>, r: Option<(Grant, Analysis)>): seq<Derived> {
    if r.None? then ds else DropFirstFor(ds, r.value.0.id)
  }

  /** One future with the row built from the analysis' columns only: replace the grant's row. */
  function StepIntended(ds: seq<Derived>, next: nat, r: Option<(Grant, Analysis)>): (seq<Derived>, nat) {
    if r.None? then (ds, next)
    else (DropFirstFor(ds, r.value.0.id) + [RowOf(next, r.value.0.id, r.value.1)], next + 1)
  }

  function Results(grants: seq<Grant>, classify: seq<Message> -> Option<Analysis>): (r: seq<Option<(Grant, Analysis)>>)
    ensures |r| == |grants| && forall k :: 0 <= k < |grants| ==> r[k] == ProcessSingleGrant(grants[k], classify)
  {
    seq(|grants|, k requires 0 <= k < |grants| => ProcessSingleGrant(grants[k], classify))
  }

  function AsWrittenEffect(ds: seq<Derived>, rs: seq<Option<(Grant, Analysis)>>): seq<Derived> {
    if rs == [] then ds else StepAsWritten(AsWrittenEffect(ds, rs[..|rs| - 1]), rs[|rs| - 1])
  }

  function IntendedEffect(ds: seq<Derived>, next: nat, rs: seq<Option<(Grant, Analysis)>>): (seq<Derived>, nat) {
    if rs == [] then (ds, next)
    else
      var prev := IntendedEffect(ds, next, rs[..|rs| - 1]);
      StepIntended(prev.0, prev.1, rs[|rs| - 1])
  }

  /** process_grants as written. */
  method ProcessGrants(db: GrantDb, grants: seq<Grant>, classify: seq<Message> -> Option<Analysis>)
    modifies db`derived
    ensures db.derived == AsWrittenEffect(old(db.derived), Results(grants, classify))
  {
    ghost var rs := Results(grants, classify);
    for i := 0 to |grants|
      invariant db.derived == AsWrittenEffect(old(db.derived), rs[..i])
    {
      assert rs[..i + 1][..i] == rs[..i];
      var result := ProcessSingleGrant(grants[i], classify);
      if result.Some? {
        var (grant, analysis) := result.value;
        var existing := FirstWhere(db.derived, (d: Derived) => d.grantId == grant.id);
        if existing.Some? {
          db.derived := db.derived[..existing.value] + db.derived[existing.value + 1..];
        }
        // GrantDerivedData(grant_id=..., **analysis.model_dump()) raises here.
      }
    }
    assert rs[..|grants|] == rs;
  }

  /** process_grants with the row built from the analysis' columns. `renewed` are the loop
      indices where the session is committed and replaced. */
  method ProcessGrantsIntended(db: GrantDb, grants: seq<Grant>, classify: seq<Message> -> Option<Analysis>)
    returns (renewed: seq<nat>)
    modifies db`derived, db`nextId
    ensures (db.derived, db.nextId) == IntendedEffect(old(db.derived), old(db.nextId), Results(grants, classify))
    ensures forall i :: i in renewed <==> 0 <= i < |grants| && i % 20 == 0 && ProcessSingleGrant(grants[i], classify).Some?
  {
    ghost var rs := Results(grants, classify);
    renewed := [];
    for i := 0 to |grants|
      invariant (db.derived, db.nextId) == IntendedEffect(old(db.derived), old(db.nextId), rs[..i])
      invariant forall j :: j in renewed <==> 0 <= j < i && j % 20 == 0 && rs[j].Some?
    {
      assert rs[..i + 1][..i] == rs[..i];
      var result := ProcessSingleGrant(grants[i], classify);
      assert result == rs[i];
      StoreIntended(db, result);
      if result.Some? && i % 20 == 0 {
        renewed := renewed + [i];
      }
    }
    assert rs[..|grants|] == rs;
  }

  /** One result of the intended loop: a classified grant's old derived row is deleted and the
      new row added under the next id. */
  method StoreIntended(db: GrantDb, result: Option<(Grant, Analysis)>)
    modifies db`derived, db`nextId
    ensures (db.derived, db.nextId) == StepIntended(old(db.derived), old(db.nextId), result)
  {
    if result.Some? {
      var grant := result.value.0;
      var analysis := result.value.1;
      var existing := FirstWhere(db.derived, (d: Derived) => d.grantId == grant.id);
      if existing.Some? {
        db.derived := db.derived[..existing.value] + db.derived[existing.value + 1..];
      }
      assert db.derived == DropFirstFor(old(db.derived), grant.id);
      db.derived := db.derived + [RowOf(db.nextId, grant.id, analysis)];
      db.nextId := db.nextId + 1;
    }
  }

  // ---------------------------------------------------------------- properties

  lemma {:induction false} RowsForConcat(a: seq<Derived>, b: seq<Derived>, gid: nat)
    ensures RowsFor(a + b, gid) == RowsFor(a, gid) + RowsFor(b, gid)
  {
    if a != [] {
      assert (a + b)[1..] == a[1..] + b;
      RowsForConcat(a[1..], b, gid);
    } else {
      assert a + b == b;
    }
  }

  lemma RowsForAround(pre: seq<Derived>, x: Derived, post: seq<Derived>, y: nat)
    ensures RowsFor(pre + [x] + post, y) == RowsFor(pre, y) + (if x.grantId == y then [x] else []) + RowsFor(post, y)
    ensures RowsFor(pre + post, y) == RowsFor(pre, y) + RowsFor(post, y)
  {
    RowsForConcat(pre + [x], post, y);
    RowsForConcat(pre, [x], y);
    RowsForConcat(pre, post, y);
    assert [x][1..] == [];
  }

  lemma {:induction false} RowsForNone(ds: seq<Derived>, gid: nat)
    requires forall j :: 0 <= j < |ds| ==> ds[j].grantId != gid
    ensures RowsFor(ds, gid) == []
  {
    if ds != [] {
      RowsForNone(ds[1..], gid);
    }
  }

  /** Removing the grant's first row leaves other grants' rows alone and, where it had one row,
      leaves it none. */
  lemma DropFirstRows(ds: seq<Derived>, gid: nat, other: nat)
    ensures other != gid ==> RowsFor(DropFirstFor(ds, gid), other) == RowsFor(ds, other)
    ensures |RowsFor(ds, gid)| <= 1 ==> RowsFor(DropFirstFor(ds, gid), gid) == []
  {
    match FirstWhere(ds, (d: Derived) => d.grantId == gid)
    case None =>
      RowsForNone(ds, gid);
    case Some(i) =>
      var pre, x, post := ds[..i], ds[i], ds[i + 1..];
      assert ds == pre + [x] + post;
      assert DropFirstFor(ds, gid) == pre + post;
      RowsForAround(pre, x, post, other);
      RowsForAround(pre, x, post, gid);
  }

  /** One intended step: the classified grant ends with exactly the new row, other grants keep
      theirs, and at most one row per grant is kept. */
  lemma StepIntendedRows(ds: seq<Derived>, next: nat, r: Option<(Grant, Analysis)>, gid: nat)
    requires AtMostOnePerGrant(ds)
    ensures AtMostOnePerGrant(StepIntended(ds, next, r).0)
    ensures r.Some? && gid == r.value.0.id ==> RowsFor(StepIntended(ds, next, r).0, gid) == [RowOf(next, gid, r.value.1)]
    ensures (r.None? || gid != r.value.0.id) ==> RowsFor(StepIntended(ds, next, r).0, gid) == RowsFor(ds, gid)
  {
    if r.Some? {
      var g := r.value.0.id;
      var row := RowOf(next, g, r.value.1);
      var ds' := StepIntended(ds, next, r).0;
      forall x: nat ensures RowsFor(ds', x) == (if x == g then [row] else RowsFor(ds, x)) {
        DropFirstRows(ds, g, x);
        RowsForConcat(DropFirstFor(ds, g), [row], x);
      }
      assert AtMostOnePerGrant(ds') by {
        forall x: nat ensures |RowsFor(ds', x)| <= 1 {
          assert RowsFor(ds', x) == (if x == g then [row] else RowsFor(ds, x));
        }
      }
    }
  }

  /** rs[k] is a successful classification that no later result classifies again. */
  ghost predicate LatestFor(rs: seq<Option<(Grant, Analysis)>>, k: int) {
    0 <= k < |rs| && rs[k].Some?
    && forall j :: k < j < |rs| && rs[j].Some? ==> rs[j].value.0.id != rs[k].value.0.id
  }

  /** Every grant's latest classification in rs is that grant's single row. */
  ghost predicate RecordsLatest(ds: seq<Derived>, rs: seq<Option<(Grant, Analysis)>>) {
    forall k :: LatestFor(rs, k) ==>
      |RowsFor(ds, rs[k].value.0.id)| == 1 && Records(RowsFor(ds, rs[k].value.0.id)[0], rs[k].value.1)
  }

  /** No result in rs classifies the grant gid. */
  predicate NeverClassified(rs: seq<Option<(Grant, Analysis)>>, gid: nat) {
    forall k :: 0 <= k < |rs| && rs[k].Some? ==> rs[k].value.0.id != gid
  }

  /** After one more step, the latest classifications are still recorded. */
  lemma LatestAfterStep(prev: seq<Derived>, next: nat, front: seq<Option<(Grant, Analysis)>>,
                        last: Option<(Grant, Analysis)>, k: nat)
    requires AtMostOnePerGrant(prev) && RecordsLatest(prev, front)
    requires LatestFor(front + [last], k)
    ensures var gid := (front + [last])[k].value.0.id;
            var fin := StepIntended(prev, next, last).0;
            |RowsFor(fin, gid)| == 1 && Records(RowsFor(fin, gid)[0], (front + [last])[k].value.1)
  {
    var rs := front + [last];
    var gid := rs[k].value.0.id;
    StepIntendedRows(prev, next, last, gid);
    if k < |front| {
      assert rs[k] == front[k];
      assert rs[|front|] == last;
      forall j | k < j < |front| && front[j].Some? ensures front[j].value.0.id != front[k].value.0.id {
        assert front[j] == rs[j];
      }
      assert LatestFor(front, k);
    }
  }

  /** A grant neither the step nor the earlier steps classify keeps its original rows. */
  lemma UntouchedAfterStep(ds: seq<Derived>, prev: seq<Derived>, next: nat, front: seq<Option<(Grant, Analysis)>>,
                           last: Option<(Grant, Analysis)>, gid: nat)
    requires AtMostOnePerGrant(prev)
    requires NeverClassified(front, gid) ==> RowsFor(prev, gid) == RowsFor(ds, gid)
    requires NeverClassified(front + [last], gid)
    ensures RowsFor(StepIntended(prev, next, last).0, gid) == RowsFor(ds, gid)
  {
    var rs := front + [last];
    assert rs[|front|] == last;
    StepIntendedRows(prev, next, last, gid);
    forall k | 0 <= k < |front| && front[k].Some? ensures front[k].value.0.id != gid {
      assert front[k] == rs[k];
    }
  }

  /** process_grants with the intended row: at most one row per grant is kept; a grant whose
      last successful classification is at k ends with one row holding that analysis; grants
      never classified keep their rows. */
  lemma {:induction false} IntendedUpsert(ds: seq<Derived>, next: nat, rs: seq<Option<(Grant, Analysis)>>)
    requires AtMostOnePerGrant(ds)
    ensures AtMostOnePerGrant(IntendedEffect(ds, next, rs).0)
    ensures RecordsLatest(IntendedEffect(ds, next, rs).0, rs)
    ensures forall gid: nat :: NeverClassified(rs, gid) ==> RowsFor(IntendedEffect(ds, next, rs).0, gid) == RowsFor(ds, gid)
  {
    if rs != [] {
      var front := rs[..|rs| - 1];
      var last := rs[|rs| - 1];
      FrontLast(rs);
      IntendedUpsert(ds, next, front);
      var prev := IntendedEffect(ds, next, front);
      StepIntendedRows(prev.0, prev.1, last, 0);
      forall k | LatestFor(rs, k)
        ensures |RowsFor(IntendedEffect(ds, next, rs).0, rs[k].value.0.id)| == 1
                && Records(RowsFor(IntendedEffect(ds, next, rs).0, rs[k].value.0.id)[0], rs[k].value.1)
      {
        LatestAfterStep(prev.0, prev.1, front, last, k);
      }
      forall gid: nat | NeverClassified(rs, gid)
        ensures RowsFor(IntendedEffect(ds, next, rs).0, gid) == RowsFor(ds, gid)
      {
        UntouchedAfterStep(ds, prev.0, prev.1, front, last, gid);
      }
    }
  }

  /** As written, a successful classification deletes the grant's row and stores nothing, so
      every grant classified in the run ends without derived data. */
  lemma {:induction false} AsWrittenDropsDerived(ds: seq<Derived>, rs: seq<Option<(Grant, Analysis)>>)
    requires AtMostOnePerGrant(ds)
    ensures AtMostOnePerGrant(AsWrittenEffect(ds, rs))
    ensures forall k :: 0 <= k < |rs| && rs[k].Some? ==> RowsFor(AsWrittenEffect(ds, rs), rs[k].value.0.id) == []
    ensures forall gid: nat :: |RowsFor(AsWrittenEffect(ds, rs), gid)| <= |RowsFor(ds, gid)|
  {
    if rs != [] {
      var front := rs[..|rs| - 1];
      var last := rs[|rs| - 1];
      AsWrittenDropsDerived(ds, front);
      var prev := AsWrittenEffect(ds, front);
      var fin := AsWrittenEffect(ds, rs);
      forall gid: nat ensures (last.Some? && gid == last.value.0.id ==> RowsFor(fin, gid) == [])
                          && ((last.None? || gid != last.value.0.id) ==> RowsFor(fin, gid) == RowsFor(prev, gid)) {
        if last.Some? {
          DropFirstRows(prev, last.value.0.id, gid);
        }
      }
      forall k | 0 <= k < |rs| && rs[k].Some? ensures RowsFor(fin, rs[k].value.0.id) == [] {
        if k < |front| {
          assert front[k] == rs[k];
          var gid := rs[k].value.0.id;
          if last.Some? && gid != last.value.0.id {
            assert RowsFor(fin, gid) == RowsFor(prev, gid);
          }
        }
      }
      assert AtMostOnePerGrant(fin) by {
        forall gid: nat ensures |RowsFor(fin, gid)| <= 1 {
          assert |RowsFor(prev, gid)| <= 1;
        }
      }
    }
  }

  /** An instance: a grant with one row, classified once, is left with no row at all. */
  lemma AsWrittenLosesRow(g: Grant, a: Analysis)
    ensures AsWrittenEffect([RowOf(1, g.id, a)], [Some((g, a))]) == []
  {
    var ds := [RowOf(1, g.id, a)];
    assert [Some((g, a))][..0] == [];
    assert FirstWhere(ds, (d: Derived) => d.grantId == g.id) == Some(0);
  }

  /** The intended step on the same input keeps one row holding the analysis. */
  lemma IntendedKeepsRow(g: Grant, a: Analysis, next: nat)
    ensures IntendedEffect([RowOf(1, g.id, a)], next, [Some((g, a))]).0 == [RowOf(next, g.id, a)]
  {
    var ds := [RowOf(1, g.id, a)];
    assert [Some((g, a))][..0] == [];
    assert FirstWhere(ds, (d: Derived) => d.grantId == g.id) == Some(0);
  }
}
