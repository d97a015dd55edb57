/** The grant search tables (grant_search/db/models.py) as records, and the database as an
    object whose fields are the tables. Times are integers in milliseconds. */
module GrantModels {
  import opened Wrappers
  import opened Strings
  import opened Utf8

  type Time = int

  datatype Agency = Agency(id: nat, name: string)

  /** A DataSource row; `agency_id` is a nullable column, None when NULL. */
  datatype DataSource = DataSource(id: nat, name: string, timestamp: Time, origin: Option<string>, agencyId: Option<nat>)

  datatype Grantee = Grantee(id: nat, name: string)

  /** The deferred `raw_text` column: bytes once stored; a str only before a flush. */
  datatype RawText = Bytes(bytes: seq<byte>) | Text(text: string)

  /** A Grant row. `award_id`, `title` and `description` are nullable columns: None is NULL. */
  datatype Grant = Grant(
    id: nat, awardId: Option<string>, startDate: Time, endDate: Time, amount: real,
    title: Option<string>, description: Option<string>, dataSourceId: nat, granteeIds: seq<nat>, rawText: RawText)

  datatype DeiStatus = NoDei | MentionsDei | PartialDei | PrimarilyDei

  /** One GrantDerivedData row: the classifier's analysis of one grant. */
  datatype Derived = Derived(
    id: nat, grantId: nat, deiStatus: DeiStatus, deiWomen: bool, deiRace: bool,
    outrageous: bool, hardScience: bool, carbon: bool)

  datatype Embedding = Embedding(id: nat, grantId: nat)

  /** The job states stored in GrantSearchQuery.status. */
  datatype Status = ParsingQuery | ReadingGrants | SendingToAi | WaitingForAi | TimedOut

  /** A GrantSearchQuery row: one search-by-text job. `grants` holds grant ids. */
  datatype SearchQuery = SearchQuery(
    id: nat, query: string, queryText: string, timestamp: Time, complete: bool,
    status: Option<Status>, samplingFraction: Option<real>, grants: seq<nat>,
    reasons: Option<seq<string>>, userId: nat)

  datatype User = User(id: nat, username: string, email: string)

  datatype Favorite = Favorite(id: nat, userId: nat, grantId: nat)

  /** The unique constraint on (user_id, grant_id) of FavoritedGrant. */
  ghost predicate FavoritesUnique(favs: seq<Favorite>) {
    forall i, j :: 0 <= i < j < |favs| ==>
      (favs[i].userId, favs[i].grantId) != (favs[j].userId, favs[j].grantId)
  }

  /** The store. Job ids are positions in `queries`; other ids come from `nextId`. */
  class GrantDb {
    var agencies: seq<Agency>
    var dataSources: seq<DataSource>
    var grantees: seq<Grantee>
    var grants: seq<Grant>
    var derived: seq<Derived>
    var embeddings: seq<Embedding>
    var queries: seq<SearchQuery>
    var users: seq<User>
    var favorites: seq<Favorite>
    var nextId: nat

    ghost predicate Valid()
      reads this
    {
      && FavoritesUnique(favorites)
      && (forall k :: 0 <= k < |queries| ==> queries[k].id == k)
      && (forall k :: 0 <= k < |queries| ==> Lockstep(queries[k]))
    }

    constructor ()
      ensures Valid()
      ensures agencies == [] && dataSources == [] && grantees == [] && grants == []
      ensures derived == [] && embeddings == [] && queries == [] && users == [] && favorites == []
    {
      agencies, dataSources, grantees, grants := [], [], [], [];
      derived, embeddings, queries, users, favorites := [], [], [], [], [];
      nextId := 1;
    }
  }

  /** `grants` and `reasons` of a job grow together: reasons[k] explains grants[k]. */
  predicate Lockstep(q: SearchQuery) {
    q.reasons.Some? ==> |q.reasons.value| == |q.grants|
  }

  const NsfPrefix := "https://www.nsf.gov/awardsearch/showAward?AWD_ID="
  const NsfSuffix := "&HistoricalAwards=false"
  const NihPrefix := "https://reporter.nih.gov/project-details/"

  /** Grant.get_award_url, given the name of the grant's agency. */
  function AwardUrl(agencyName: string, awardId: string): (r: Option<string>)
    ensures agencyName == "NSF" ==> r == Some(NsfPrefix + awardId + NsfSuffix)
    ensures agencyName == "NIH" ==> r == Some(NihPrefix + awardId)
    ensures agencyName != "NSF" && agencyName != "NIH" ==> r == None
  {
    if agencyName == "NSF" then Some(NsfPrefix + awardId + NsfSuffix)
    else if agencyName == "NIH" then Some(NihPrefix + awardId)
    else None
  }

  /** The award id can be read back from the URL: no two awards of one agency share a URL. */
  function AwardIdOfUrl(agencyName: string, url: string): Option<string> {
    if agencyName == "NSF" && |url| >= |NsfPrefix| + |NsfSuffix|
      && StartsWith(url, NsfPrefix) && EndsWith(url, NsfSuffix)
    then Some(url[|NsfPrefix|..|url| - |NsfSuffix|])
    else if agencyName == "NIH" && StartsWith(url, NihPrefix) then Some(url[|NihPrefix|..])
    else None
  }

  lemma AwardUrlRoundTrip(agencyName: string, awardId: string)
    ensures AwardUrl(agencyName, awardId).Some? ==>
      AwardIdOfUrl(agencyName, AwardUrl(agencyName, awardId).value) == Some(awardId)
  {
    if agencyName == "NSF" {
      var u := NsfPrefix + awardId + NsfSuffix;
      assert u[..|NsfPrefix|] == NsfPrefix;
      assert u[|u| - |NsfSuffix|..] == NsfSuffix;
      assert u[|NsfPrefix|..|u| - |NsfSuffix|] == awardId;
    } else if agencyName == "NIH" {
      var u := NihPrefix + awardId;
      assert u[..|NihPrefix|] == NihPrefix;
      assert u[|NihPrefix|..] == awardId;
    }
  }

  lemma AwardUrlInjective(agencyName: string, a: string, b: string)
    requires AwardUrl(agencyName, a).Some? && AwardUrl(agencyName, a) == AwardUrl(agencyName, b)
    ensures a == b
  {
    AwardUrlRoundTrip(agencyName, a);
    AwardUrlRoundTrip(agencyName, b);
  }

  function GrantsWithout(gs: seq<Grant>, id: nat): (r: seq<Grant>)
    ensures forall g :: g in r <==> g in gs && g.id != id
  {
    if gs == [] then []
    else (if gs[0].id == id then [] else [gs[0]]) + GrantsWithout(gs[1..], id)
  }

  function DerivedWithout(ds: seq<Derived>, grantId: nat): (r: seq<Derived>)
    ensures forall d :: d in r <==> d in ds && d.grantId != grantId
  {
    if ds == [] then []
    else (if ds[0].grantId == grantId then [] else [ds[0]]) + DerivedWithout(ds[1..], grantId)
  }

  function EmbeddingsWithout(es: seq<Embedding>, grantId: nat): (r: seq<Embedding>)
    ensures forall e :: e in r <==> e in es && e.grantId != grantId
  {
    if es == [] then []
    else (if es[0].grantId == grantId then [] else [es[0]]) + EmbeddingsWithout(es[1..], grantId)
  }

  /** A grant still named by a favourite or by a search job's results. Deleting it cannot be
      flushed: the `favorited_by` backref would set FavoritedGrant.grant_id, which is not
      nullable, to NULL, and Grant has no relationship to `grant_search_query_grants`, so those
      rows stay and break their foreign key. Either way the flush raises IntegrityError. */
  predicate Referenced(favs: seq<Favorite>, qs: seq<SearchQuery>, id: nat) {
    || (exists k :: 0 <= k < |favs| && favs[k].grantId == id)
    || (exists k :: 0 <= k < |qs| && id in qs[k].grants)
  }

  /** session.delete(grant) and its flush: the `all, delete-orphan` cascades remove the
      grant's derived data and embeddings with it, and a referenced grant makes the flush fail,
      leaving every table as it was. */
  method DeleteGrant(db: GrantDb, id: nat) returns (ok: bool)
    modifies db`grants, db`derived, db`embeddings
    ensures ok <==> !Referenced(db.favorites, db.queries, id)
    ensures !ok ==> db.grants == old(db.grants) && db.derived == old(db.derived) && db.embeddings == old(db.embeddings)
    ensures ok ==> db.grants == GrantsWithout(old(db.grants), id)
    ensures ok ==> db.derived == DerivedWithout(old(db.derived), id)
    ensures ok ==> db.embeddings == EmbeddingsWithout(old(db.embeddings), id)
    ensures ok ==> (forall d :: d in db.derived ==> d.grantId != id) && (forall e :: e in db.embeddings ==> e.grantId != id)
  {
    if Referenced(db.favorites, db.queries, id) {
      return false;
    }
    db.grants := GrantsWithout(db.grants, id);
    db.derived := DerivedWithout(db.derived, id);
    db.embeddings := EmbeddingsWithout(db.embeddings, id);
    ok := true;
  }
}
