/** The search-job, favourite and upload endpoints of the web API (grant_search/web/web_api.py).
    A request's JSON fields are optional values, `None` when the key is missing; a reply's
    constructor is its HTTP status. Job ids are positions in the job table. */
module WebApi {
  import opened Wrappers
  import opened Strings
  import opened GrantModels
  import opened GrantQuery
  import QueryProcessor
  import Ingest

  datatype ApiError =
    | MissingParameter(name: string)
    | MissingRequestData
    | MissingRequiredFields
    | NoSuchQuery(id: int)
    | NotAuthenticated
    | AlreadyFavorited

  datatype Reply<T> = Ok(body: T) | Status400(error: ApiError) | Status401(error: ApiError) | Status500

  /** A job not complete 75 seconds after its timestamp is reported as timed out. */
  const QueryTimeoutMs := 75000

  function Zip<A, B>(a: seq<A>, b: seq<B>): (r: seq<(A, B)>)
    ensures |r| == Min(|a|, |b|) && forall k :: 0 <= k < |r| ==> r[k] == (a[k], b[k])
  {
    seq(Min(|a|, |b|), k requires 0 <= k < Min(|a|, |b|) => (a[k], b[k]))
  }

  /** How many leading items Python's `xs[start:]` drops; a negative start counts from the end. */
  function Dropped(n: nat, start: int): (d: nat)
    ensures d <= n
  {
    if start >= 0 then Min(start, n) else Max(0, n + start)
  }

  function SliceFrom<T>(s: seq<T>, start: int): seq<T> {
    s[Dropped(|s|, start)..]
  }

  /** The (grant id, reason) pairs of a job: none while `reasons` is None or empty, otherwise
      grants and reasons zipped. */
  function ResultPairs(q: SearchQuery): seq<(nat, string)> {
    if q.reasons.None? || |q.reasons.value| == 0 then [] else Zip(q.grants, q.reasons.value)
  }

  /** The reported status: "success" for a complete job, the stored one otherwise. */
  datatype ShownStatus = Succeeded | Stored(status: Option<Status>)

  /** The job as json_for_query reports it; each result is a grant id with its reason. */
  datatype QueryJson = QueryJson(status: ShownStatus, sampleFraction: Option<real>, queryText: string,
                                 results: seq<(nat, string)>)

  function ShownStatusOf(q: SearchQuery): ShownStatus {
    if q.complete then Succeeded else Stored(q.status)
  }

  /** json_for_query with each grant rendered by its id and reason. */
  function JsonForQuery(q: SearchQuery, startIndex: int): (j: QueryJson)
    ensures j.status == Succeeded <==> q.complete
    ensures !q.complete ==> j.status == Stored(q.status)
    ensures j.queryText == q.queryText && j.sampleFraction == q.samplingFraction
  {
    QueryJson(ShownStatusOf(q), q.samplingFraction, q.queryText, SliceFrom(ResultPairs(q), startIndex))
  }

  /** The results are the zipped pairs from position `start` on: for a start that is not
      negative there are max(0, min(|grants|, |reasons|) - start) of them. */
  lemma JsonResults(q: SearchQuery, startIndex: int)
    requires startIndex >= 0
    ensures var rs := JsonForQuery(q, startIndex).results;
      && (q.reasons.None? || |q.reasons.value| == 0 ==> rs == [])
      && (q.reasons.Some? && |q.reasons.value| > 0 ==>
            && |rs| == Max(0, Min(|q.grants|, |q.reasons.value|) - startIndex)
            && forall k :: 0 <= k < |rs| ==> rs[k] == (q.grants[startIndex + k], q.reasons.value[startIndex + k]))
  {
    var pairs := ResultPairs(q);
    if q.reasons.Some? && |q.reasons.value| > 0 {
      var rs := JsonForQuery(q, startIndex).results;
      assert rs == pairs[Dropped(|pairs|, startIndex)..];
      forall k | 0 <= k < |rs|
        ensures rs[k] == (q.grants[startIndex + k], q.reasons.value[startIndex + k])
      {
        assert rs[k] == pairs[startIndex + k];
      }
    }
  }

  /** json_for_grant as written reads `grant.derived_data.summary`: derived_data is the list of
      the grant's derived rows and has no such attribute, so rendering any grant raises. */
  datatype RenderError = NoSummaryAttribute

  function JsonForQueryAsWritten(q: SearchQuery, startIndex: int): (r: Result<QueryJson, RenderError>)
    ensures r.Success? <==> SliceFrom(ResultPairs(q), startIndex) == []
  {
    var rs := SliceFrom(ResultPairs(q), startIndex);
    if rs != [] then Failure(NoSummaryAttribute)
    else Success(QueryJson(ShownStatusOf(q), q.samplingFraction, q.queryText, []))
  }

  /** As written, a poll of a job that has results past the start index fails; the corrected
      rendering returns them. */
  lemma ListingRaises(q: SearchQuery)
    requires q.reasons.Some? && |q.reasons.value| > 0 && |q.grants| > 0
    ensures JsonForQueryAsWritten(q, 0) == Failure(NoSummaryAttribute)
    ensures |JsonForQuery(q, 0).results| > 0
  {
    assert ResultPairs(q)[0] == (q.grants[0], q.reasons.value[0]);
  }

  predicate IsStale(q: SearchQuery, now: Time) {
    !q.complete && q.timestamp < now - QueryTimeoutMs
  }

  /** The poll after a stale job was marked timed_out. */
  function Polled(q: SearchQuery, now: Time): SearchQuery {
    if IsStale(q, now) then WithStatus(q, TimedOut) else q
  }

  /** get_grants_query_status: 400 without a job id or for an unknown one; a stale incomplete job
      is marked timed_out and committed; the job is reported from `startIndex` (default 0) on. */
  method GrantsQueryStatus(db: GrantDb, queryId: Option<int>, startIndex: Option<int>, now: Time)
    returns (r: Reply<QueryJson>)
    requires db.Valid()
    modifies db`queries
    ensures db.Valid()
    ensures queryId.None? ==> r == Status400(MissingParameter("queryId")) && db.queries == old(db.queries)
    ensures queryId.Some? && !(0 <= queryId.value < |old(db.queries)|) ==>
      r == Status400(NoSuchQuery(queryId.value)) && db.queries == old(db.queries)
    ensures queryId.Some? && 0 <= queryId.value < |old(db.queries)| ==>
      var id := queryId.value;
      && db.queries == old(db.queries)[id := Polled(old(db.queries[id]), now)]
      && r == Ok(JsonForQuery(db.queries[id], startIndex.GetOr(0)))
  {
    if queryId.None? {
      return Status400(MissingParameter("queryId"));
    }
    var id := queryId.value;
    if !(0 <= id < |db.queries|) {
      return Status400(NoSuchQuery(id));
    }
    var q := db.queries[id];
    if IsStale(q, now) {
      db.queries := db.queries[id := WithStatus(q, TimedOut)];
    }
    r := Ok(JsonForQuery(db.queries[id], startIndex.GetOr(0)));
  }

  /** What a poll reports: success for a complete job, timed_out for a stale one, the stored
      status otherwise. */
  lemma PollStatus(q: SearchQuery, now: Time, startIndex: int)
    ensures q.complete ==> JsonForQuery(Polled(q, now), startIndex).status == Succeeded
    ensures IsStale(q, now) ==> JsonForQuery(Polled(q, now), startIndex).status == Stored(Some(TimedOut))
    ensures !q.complete && !IsStale(q, now) ==> JsonForQuery(Polled(q, now), startIndex).status == Stored(q.status)
    ensures Polled(q, now).grants == q.grants && Polled(q, now).reasons == q.reasons
  { }

  /** get_grants_by_text: 400 without `text`; otherwise the job id create_query returns. A
      completed query with the same text is reused before `user.id` is read, so only a request
      without a signed-in user that needs a new query raises. */
  method GrantsByText(db: GrantDb, text: Option<string>, user: Option<User>, now: Time)
    returns (r: Reply<nat>)
    requires db.Valid()
    modifies db`queries
    ensures db.Valid()
    ensures text.None? ==> r == Status400(MissingParameter("text")) && db.queries == old(db.queries)
    ensures text.Some? && QueryProcessor.Reusable(old(db.queries), text.value).Some? ==>
      r == Ok(QueryProcessor.Reusable(old(db.queries), text.value).value) && db.queries == old(db.queries)
    ensures text.Some? && QueryProcessor.Reusable(old(db.queries), text.value).None? && user.None? ==>
      r == Status500 && db.queries == old(db.queries)
    ensures text.Some? && user.Some? ==>
      var found := QueryProcessor.Reusable(old(db.queries), text.value);
      (found.None? ==>
            r == Ok(|old(db.queries)|)
            && db.queries == old(db.queries) + [QueryProcessor.NewQuery(|old(db.queries)|, text.value, now, user.value.id)])
  {
    if text.None? {
      return Status400(MissingParameter("text"));
    }
    if user.None? {
      var found := QueryProcessor.Reusable(db.queries, text.value);
      if found.Some? {
        return Ok(found.value);
      }
      return Status500;
    }
    var id, created := QueryProcessor.CreateQuery(db, text.value, user.value.id, now);
    r := Ok(id);
  }

  /** The first favourite of this user for this grant. */
  function ExistingFavorite(favs: seq<Favorite>, userId: nat, grantId: nat): (r: Option<nat>)
    ensures r.None? <==> forall k :: 0 <= k < |favs| ==> (favs[k].userId, favs[k].grantId) != (userId, grantId)
  {
    FirstWhere(favs, (f: Favorite) => f.userId == userId && f.grantId == grantId)
  }

  /** Adding a pair that is not there keeps every (user, grant) pair unique. */
  lemma FavoriteAppendUnique(favs: seq<Favorite>, f: Favorite)
    requires FavoritesUnique(favs)
    requires forall k :: 0 <= k < |favs| ==> (favs[k].userId, favs[k].grantId) != (f.userId, f.grantId)
    ensures FavoritesUnique(favs + [f])
  {
    var s := favs + [f];
    forall i, j | 0 <= i < j < |s| ensures (s[i].userId, s[i].grantId) != (s[j].userId, s[j].grantId) {
      if j < |favs| {
        assert s[i] == favs[i] && s[j] == favs[j];
      } else {
        assert s[i] == favs[i] && s[j] == f;
      }
    }
  }

  /** Some grant has this id: the foreign key favorited_grants.grant_id can refer to it. */
  predicate GrantExists(grants: seq<Grant>, id: nat) {
    exists k :: 0 <= k < |grants| && grants[k].id == id
  }

  /** favorite_grant: 400 without `grantId` or for a pair already favourited (nothing changes),
      401 without a user. Otherwise the favourite is added and committed: the commit fails the
      foreign key when no grant has the id (a 500, the session rolled back), and exactly one
      favourite is added when one does. */
  method FavoriteGrant(db: GrantDb, grantId: Option<nat>, user: Option<User>) returns (r: Reply<()>)
    requires db.Valid()
    modifies db`favorites, db`nextId
    ensures db.Valid()
    ensures grantId.None? ==> r == Status400(MissingParameter("grantId"))
    ensures grantId.Some? && user.None? ==> r == Status401(NotAuthenticated)
    ensures grantId.Some? && user.Some? && ExistingFavorite(old(db.favorites), user.value.id, grantId.value).Some? ==>
      r == Status400(AlreadyFavorited)
    ensures (grantId.Some? && user.Some? && ExistingFavorite(old(db.favorites), user.value.id, grantId.value).None?
             && !GrantExists(db.grants, grantId.value)) ==> r == Status500
    ensures r.Ok? <==>
      grantId.Some? && user.Some? && ExistingFavorite(old(db.favorites), user.value.id, grantId.value).None?
      && GrantExists(db.grants, grantId.value)
    ensures !r.Ok? ==> db.favorites == old(db.favorites) && db.nextId == old(db.nextId)
    ensures r.Ok? ==>
      && db.favorites == old(db.favorites) + [Favorite(old(db.nextId), user.value.id, grantId.value)]
      && db.nextId == old(db.nextId) + 1
  {
    if grantId.None? {
      return Status400(MissingParameter("grantId"));
    }
    if user.None? {
      return Status401(NotAuthenticated);
    }
    if ExistingFavorite(db.favorites, user.value.id, grantId.value).Some? {
      return Status400(AlreadyFavorited);
    }
    if !exists k :: 0 <= k < |db.grants| && db.grants[k].id == grantId.value {
      return Status500;
    }
    var f := Favorite(db.nextId, user.value.id, grantId.value);
    FavoriteAppendUnique(db.favorites, f);
    db.favorites := db.favorites + [f];
    db.nextId := db.nextId + 1;
    r := Ok(());
  }

  /** The JSON body of upload_datasource; `None` stands for a missing or empty body. */
  datatype UploadBody = UploadBody(name: Option<string>, agency: Option<string>, sourceUrl: Option<string>)

  /** upload_datasource: the body and its `name` and `agency` are required; an Ingester that
      refuses its arguments raises (500); otherwise the ingester whose run starts in the
      background. */
  function UploadDatasource(body: Option<UploadBody>): (r: Reply<Ingest.Config>)
    ensures body.None? ==> r == Status400(MissingRequestData)
    ensures body.Some? && !(TruthyStr(body.value.name) && TruthyStr(body.value.agency)) ==>
      r == Status400(MissingRequiredFields)
    ensures r.Ok? <==>
      && body.Some? && TruthyStr(body.value.name) && TruthyStr(body.value.agency)
      && Ingest.NewIngester(body.value.name.value, body.value.sourceUrl, body.value.agency.value).Success?
    ensures r.Ok? ==> r.body.sourceName == body.value.name.value && r.body.agency == body.value.agency.value
  {
    if body.None? then Status400(MissingRequestData)
    else if !(TruthyStr(body.value.name) && TruthyStr(body.value.agency)) then Status400(MissingRequiredFields)
    else match Ingest.NewIngester(body.value.name.value, body.value.sourceUrl, body.value.agency.value)
      case Failure(_) => Status500
      case Success(cfg) => Ok(cfg)
  }
}
