/** The search-job lifecycle (grant_search/ai/query_processor.py). A job is reused when a
    completed job with the same text exists and is created otherwise; running it accumulates the
    streamed results with checkpoint commits and marks it complete once the stream ends. */
module QueryProcessor {
  import opened Wrappers
  import opened GrantModels
  import opened GrantQuery

  /** The first completed job with this text, as `.filter(query_text == text, complete == True).first()`. */
  function Reusable(qs: seq<SearchQuery>, text: string): (r: Option<nat>)
    ensures r.Some? ==> r.value < |qs| && qs[r.value].queryText == text && qs[r.value].complete
    ensures r.None? <==> forall k :: 0 <= k < |qs| ==> !(qs[k].queryText == text && qs[k].complete)
  {
    FirstWhere(qs, (q: SearchQuery) => q.queryText == text && q.complete)
  }

  function NewQuery(id: nat, text: string, now: Time, userId: nat): SearchQuery {
    SearchQuery(id, text, text, now, false, None, None, [], None, userId)
  }

  /** create_query: the id of a completed job with the same text, or of a new incomplete job
      whose query and query text are the text. Starting the background run is RunQuery. */
  method CreateQuery(db: GrantDb, text: string, userId: nat, now: Time) returns (id: nat, created: bool)
    requires db.Valid()
    modifies db`queries
    ensures db.Valid()
    ensures created <==> Reusable(old(db.queries), text).None?
    ensures !created ==> id == Reusable(old(db.queries), text).value && db.queries == old(db.queries)
    ensures created ==> id == |old(db.queries)| && db.queries == old(db.queries) + [NewQuery(id, text, now, userId)]
  {
    var found := Reusable(db.queries, text);
    if found.Some? {
      return db.queries[found.value].id, false;
    }
    id := |db.queries|;
    db.queries := db.queries + [NewQuery(id, text, now, userId)];
    created := true;
  }

  /** A job that is not complete is never reused, whatever its text. */
  lemma IncompleteNotReused(qs: seq<SearchQuery>, text: string, k: nat)
    requires k < |qs| && !qs[k].complete
    ensures Reusable(qs, text) != Some(k)
  { }

  /** The record is committed after result i when i is 5 or ends a hundred. */
  predicate IsCheckpoint(i: nat) { i % 100 == 99 || i == 5 }

  /** The indices, in order, at which a run over n results commits. */
  function Checkpoints(n: nat): (r: seq<nat>)
    ensures forall k :: 0 <= k < |r| ==> r[k] < n
  {
    if n == 0 then [] else Checkpoints(n - 1) + (if IsCheckpoint(n - 1) then [n - 1] else [])
  }

  lemma {:induction false} CheckpointsExactly(n: nat, i: nat)
    ensures i in Checkpoints(n) <==> i < n && (i == 5 || i % 100 == 99)
  {
    if n > 0 {
      CheckpointsExactly(n - 1, i);
    }
  }

  lemma {:induction false} CheckpointsIncrease(n: nat)
    ensures forall a, b :: 0 <= a < b < |Checkpoints(n)| ==> Checkpoints(n)[a] < Checkpoints(n)[b]
  {
    if n > 0 {
      CheckpointsIncrease(n - 1);
    }
  }

  function Ids(rs: seq<(Grant, string)>): (r: seq<nat>)
    ensures |r| == |rs| && forall k :: 0 <= k < |rs| ==> r[k] == rs[k].0.id
  {
    seq(|rs|, k requires 0 <= k < |rs| => rs[k].0.id)
  }

  function Reasons(rs: seq<(Grant, string)>): (r: seq<string>)
    ensures |r| == |rs| && forall k :: 0 <= k < |rs| ==> r[k] == rs[k].1
  {
    seq(|rs|, k requires 0 <= k < |rs| => rs[k].1)
  }

  /** The job after the given results were appended to `grants` and `reasons`; with no result
      the lists are never assigned. */
  function Accumulated(q: SearchQuery, rs: seq<(Grant, string)>): SearchQuery {
    if rs == [] then q else q.(grants := Ids(rs), reasons := Some(Reasons(rs)))
  }

  /** `grants` and `reasons` grow together: reasons[k] is the reason given for grants[k]. */
  lemma AccumulatedLockstep(q: SearchQuery, rs: seq<(Grant, string)>)
    requires Lockstep(q) && rs != []
    ensures var a := Accumulated(q, rs);
      && Lockstep(a) && a.reasons.Some?
      && |a.grants| == |rs|
      && forall k :: 0 <= k < |rs| ==> a.grants[k] == rs[k].0.id && a.reasons.value[k] == rs[k].1
  { }

  /** Two writes to the same job leave only the second. */
  lemma RewrittenTwice(qs: seq<SearchQuery>, qid: nat, a: SearchQuery, b: SearchQuery)
    requires qid < |qs|
    ensures qs[qid := a][qid := b] == qs[qid := b]
  { }

  /** _run_query: the search's results are appended in stream order, the record is committed at
      every checkpoint and, once the stream is exhausted, marked complete. When the search raises
      the error is only logged and the job is never marked complete. `checkpoints` are the loop
      indices that committed and `committed[k]` the grant ids then stored. */
  method RunQuery(db: GrantDb, qid: nat, o: Oracles)
    returns (failed: bool, results: seq<(Grant, string)>,
             ghost checkpoints: seq<nat>, ghost committed: seq<seq<nat>>)
    requires db.Valid() && qid < |db.queries|
    modifies db`queries
    ensures db.Valid()
    ensures failed <==> ParsedSearch(old(db.queries[qid]), o).None?
    ensures failed ==> db.queries == old(db.queries)[qid := WithStatus(old(db.queries[qid]), ParsingQuery)]
    ensures !failed ==>
      var sf := ParsedSearch(old(db.queries[qid]), o).value;
      var sel := SelectionOf(sf.linear, old(db.grants), old(db.dataSources), old(db.derived), old(db.agencies), o);
      && results == Yielded(sf, sel, old(db.dataSources), old(db.agencies), o)
      && db.queries == old(db.queries)[qid := Accumulated(Waiting(old(db.queries[qid]), sel), results).(complete := true)]
      && checkpoints == Checkpoints(|results|)
      && |committed| == |checkpoints|
      && forall k :: 0 <= k < |committed| ==> committed[k] == Ids(results[..checkpoints[k] + 1])
  {
    ghost var trace;
    results, failed, trace := QueryByText(db, qid, o);
    checkpoints, committed := [], [];
    if !failed {
      ghost var q0 := old(db.queries[qid]);
      ghost var sel := SelectionOf(ParsedSearch(q0, o).value.linear, old(db.grants), old(db.dataSources), old(db.derived), old(db.agencies), o);
      ghost var waiting := db.queries;
      checkpoints, committed := Accumulate(db, qid, results);
      RewrittenTwice(old(db.queries), qid, Waiting(q0, sel), db.queries[qid]);
    }
  }

  /** The loop of _run_query over the results, then the completing commit. */
  method Accumulate(db: GrantDb, qid: nat, results: seq<(Grant, string)>)
    returns (ghost checkpoints: seq<nat>, ghost committed: seq<seq<nat>>)
    requires db.Valid() && qid < |db.queries|
    modifies db`queries
    ensures db.Valid()
    ensures db.queries == old(db.queries)[qid := Accumulated(old(db.queries[qid]), results).(complete := true)]
    ensures checkpoints == Checkpoints(|results|)
    ensures |committed| == |checkpoints|
    ensures forall k :: 0 <= k < |committed| ==> committed[k] == Ids(results[..checkpoints[k] + 1])
  {
    checkpoints, committed := [], [];
    var base := db.queries;
    var q := db.queries[qid];
    var grants: seq<nat> := [];
    var reasons: seq<string> := [];
    ghost var last := 0;
    for i := 0 to |results|
      invariant grants == Ids(results[..i]) && reasons == Reasons(results[..i])
      invariant checkpoints == Checkpoints(i)
      invariant |committed| == |checkpoints|
      invariant forall k :: 0 <= k < |committed| ==> committed[k] == Ids(results[..checkpoints[k] + 1])
      invariant last <= i && db.queries == base[qid := Accumulated(q, results[..last])]
      invariant db.Valid()
    {
      grants := grants + [results[i].0.id];
      reasons := reasons + [results[i].1];
      assert Ids(results[..i + 1]) == grants && Reasons(results[..i + 1]) == reasons;
      if IsCheckpoint(i) {
        AccumulatedLockstep(q, results[..i + 1]);
        db.queries := base[qid := q.(grants := grants, reasons := Some(reasons))];
        last := i + 1;
        checkpoints := checkpoints + [i];
        committed := committed + [grants];
      }
    }
    assert results[..|results|] == results;
    if results != [] { AccumulatedLockstep(q, results); }
    db.queries := base[qid := Accumulated(q, results).(complete := true)];
  }
}
