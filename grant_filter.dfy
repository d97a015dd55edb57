/** Grant filtering as composition of SQL clauses (grant_search/filter_grants.py). A query is
    the list of clauses added so far; running it keeps the rows that satisfy every clause. */
module GrantFilter {
  import opened Wrappers
  import opened Strings
  import opened GrantModels

  /** A grant joined with the agency id of its data source and its derived data, if any. */
  datatype Row = Row(grant: Grant, agencyId: Option<nat>, derived: Option<Derived>)

  datatype Flag = DeiWomen | DeiRace | Outrageous | HardScience | Carbon

  /** One `query.filter(...)` or `query.join(...)` step. `InDataSources` is the clause
      `Grant.data_source_id in datasources`, whose value depends on the ORM and stays abstract. */
  datatype Clause =
    | StartOnOrBefore(t: Time)
    | StartOnOrAfter(t: Time)
    | AgencyIs(agencyId: nat)
    | InDataSources(keep: Grant -> bool)
    | AmountAtLeast(min: real)
    | AmountAtMost(max: real)
    | JoinDerived
    | StatusIn(statuses: seq<DeiStatus>)
    | FlagIs(flag: Flag, value: bool)

  /** Building a query fails when a bound is compared with None: the ORM raises for `>= None`. */
  datatype QueryError = ComparedWithNone

  function FlagOf(d: Derived, f: Flag): bool {
    match f
    case DeiWomen => d.deiWomen
    case DeiRace => d.deiRace
    case Outrageous => d.outrageous
    case HardScience => d.hardScience
    case Carbon => d.carbon
  }

  predicate Holds(c: Clause, r: Row) {
    match c
    case StartOnOrBefore(t) => r.grant.startDate <= t
    case StartOnOrAfter(t) => r.grant.startDate >= t
    case AgencyIs(a) => r.agencyId == Some(a)
    case InDataSources(keep) => keep(r.grant)
    case AmountAtLeast(m) => r.grant.amount >= m
    case AmountAtMost(m) => r.grant.amount <= m
    case JoinDerived => r.derived.Some?
    case StatusIn(ss) => r.derived.Some? && r.derived.value.deiStatus in ss
    case FlagIs(f, v) => r.derived.Some? && FlagOf(r.derived.value, f) == v
  }

  predicate Keeps(qs: seq<Clause>, r: Row) {
    forall i :: 0 <= i < |qs| ==> Holds(qs[i], r)
  }

  /** Clauses composed one after the other keep a row exactly when each part keeps it. */
  lemma KeepsConcat(a: seq<Clause>, b: seq<Clause>, r: Row)
    ensures Keeps(a + b, r) <==> Keeps(a, r) && Keeps(b, r)
  {
    if Keeps(a, r) && Keeps(b, r) {
      forall i | 0 <= i < |a + b| ensures Holds((a + b)[i], r) {
        if i >= |a| { assert (a + b)[i] == b[i - |a|]; }
      }
    }
    if Keeps(a + b, r) {
      forall i | 0 <= i < |a| ensures Holds(a[i], r) { assert (a + b)[i] == a[i]; }
      forall i | 0 <= i < |b| ensures Holds(b[i], r) { assert (a + b)[|a| + i] == b[i]; }
    }
  }

  /** Running a query: the rows every clause keeps, in table order. */
  function Where(rows: seq<Row>, qs: seq<Clause>): (r: seq<Row>)
    ensures |r| <= |rows|
    ensures forall x :: x in r <==> x in rows && Keeps(qs, x)
  {
    if rows == [] then []
    else (if Keeps(qs, rows[0]) then [rows[0]] else []) + Where(rows[1..], qs)
  }

  function Grants(rows: seq<Row>): (gs: seq<Grant>)
    ensures |gs| == |rows| && forall k :: 0 <= k < |rows| ==> gs[k] == rows[k].grant
  {
    seq(|rows|, k requires 0 <= k < |rows| => rows[k].grant)
  }

  /** The query with no clauses is `session.query(Grant)`: every row. */
  lemma WhereNoClauses(rows: seq<Row>)
    ensures Where(rows, []) == rows
  {
    if rows != [] {
      WhereNoClauses(rows[1..]);
      assert rows == [rows[0]] + rows[1..];
    }
  }

  /** Adding a clause filters the previous result: no step can add a row. */
  lemma {:induction false} WhereAppend(rows: seq<Row>, qs: seq<Clause>, c: Clause)
    ensures Where(rows, qs + [c]) == Where(Where(rows, qs), [c])
  {
    if rows != [] {
      WhereAppend(rows[1..], qs, c);
      var r := rows[0];
      assert Keeps(qs + [c], r) <==> Keeps(qs, r) && Holds(c, r) by {
        if Keeps(qs, r) && Holds(c, r) {
          forall i | 0 <= i < |qs + [c]| ensures Holds((qs + [c])[i], r) {
            if i < |qs| { assert (qs + [c])[i] == qs[i]; }
          }
        }
        if Keeps(qs + [c], r) {
          forall i | 0 <= i < |qs| ensures Holds(qs[i], r) {
            assert (qs + [c])[i] == qs[i];
          }
          assert (qs + [c])[|qs|] == c;
        }
      }
      assert Keeps([c], r) <==> Holds(c, r) by {
        assert [c][0] == c;
      }
      if Keeps(qs, r) {
        assert Where(rows, qs) == [r] + Where(rows[1..], qs);
      } else {
        assert Where(rows, qs) == Where(rows[1..], qs);
      }
    }
  }

  /** Agency.name.ilike(name).first(): the first agency whose name is ILIKE the
      given name, taken as a pattern. */
  function ResolveAgency(agencies: seq<Agency>, name: string): (r: Option<nat>)
    ensures r.Some? <==> exists k :: 0 <= k < |agencies| && ILike(agencies[k].name, name)
    ensures r.Some? ==>
      exists k :: (0 <= k < |agencies| && ILike(agencies[k].name, name)
        && agencies[k].id == r.value
        && forall j :: 0 <= j < k ==> !ILike(agencies[j].name, name))
  {
    if agencies == [] then None
    else if ILike(agencies[0].name, name) then Some(agencies[0].id)
    else
      var rest := ResolveAgency(agencies[1..], name);
      assert forall k :: 1 <= k < |agencies| ==> agencies[k] == agencies[1..][k - 1];
      if rest.Some? then
        var k' :| 0 <= k' < |agencies[1..]| && ILike(agencies[1..][k'].name, name)
          && agencies[1..][k'].id == rest.value
          && forall j :: 0 <= j < k' ==> !ILike(agencies[1..][j].name, name);
        assert agencies[k' + 1] == agencies[1..][k'];
        rest
      else rest
  }

  /** A name without wildcards resolves to the first agency with that name, ignoring case. */
  lemma LiteralAgencyName(agencies: seq<Agency>, name: string, k: nat)
    requires NoWildcards(name) && k < |agencies|
    ensures ILike(agencies[k].name, name) <==> Lower(agencies[k].name) == Lower(name)
  {
    LiteralLike(Lower(agencies[k].name), Lower(name));
  }

  /** filter_grants_query, as written: the lower date bound is guarded by `start_date_before`. */
  function FilterGrantsQuery(before: Option<Time>, after: Option<Time>, agencyId: Option<nat>,
                             dataSourceIds: Option<seq<nat>>, inSources: Grant -> bool)
    : Result<seq<Clause>, QueryError>
  {
    if before.Some? && after.None? then Failure(ComparedWithNone)
    else
      var dates := if before.Some? then [StartOnOrBefore(before.value), StartOnOrAfter(after.value)] else [];
      var agency := if agencyId.Some? && agencyId.value != 0 then [AgencyIs(agencyId.value)] else [];
      var sources := if dataSourceIds.Some? && |dataSourceIds.value| > 0 then [InDataSources(inSources)] else [];
      Success(dates + agency + sources)
  }

  /** filter_grants_query with each date bound guarded by its own argument. */
  function FilterGrantsQueryIntended(before: Option<Time>, after: Option<Time>, agencyId: Option<nat>,
                                     dataSourceIds: Option<seq<nat>>, inSources: Grant -> bool)
    : seq<Clause>
  {
    (if before.Some? then [StartOnOrBefore(before.value)] else [])
    + (if after.Some? then [StartOnOrAfter(after.value)] else [])
    + (if agencyId.Some? && agencyId.value != 0 then [AgencyIs(agencyId.value)] else [])
    + (if dataSourceIds.Some? && |dataSourceIds.value| > 0 then [InDataSources(inSources)] else [])
  }

  /** The meaning of the intended query, stated on the arguments directly. */
  predicate MatchesIntended(before: Option<Time>, after: Option<Time>, agencyId: Option<nat>,
                            dataSourceIds: Option<seq<nat>>, inSources: Grant -> bool, r: Row) {
    && (before.Some? ==> r.grant.startDate <= before.value)
    && (after.Some? ==> r.grant.startDate >= after.value)
    && (agencyId.Some? && agencyId.value != 0 ==> r.agencyId == agencyId)
    && (dataSourceIds.Some? && |dataSourceIds.value| > 0 ==> inSources(r.grant))
  }

  lemma IntendedQueryMeaning(before: Option<Time>, after: Option<Time>, agencyId: Option<nat>,
                             dataSourceIds: Option<seq<nat>>, inSources: Grant -> bool, rows: seq<Row>, r: Row)
    ensures r in Where(rows, FilterGrantsQueryIntended(before, after, agencyId, dataSourceIds, inSources))
      <==> r in rows && MatchesIntended(before, after, agencyId, dataSourceIds, inSources, r)
  {
    var qs := FilterGrantsQueryIntended(before, after, agencyId, dataSourceIds, inSources);
    if MatchesIntended(before, after, agencyId, dataSourceIds, inSources, r) {
      forall i | 0 <= i < |qs| ensures Holds(qs[i], r) { }
    }
    if Keeps(qs, r) {
      if before.Some? { assert qs[0] == StartOnOrBefore(before.value); }
      if after.Some? {
        var k := if before.Some? then 1 else 0;
        assert qs[k] == StartOnOrAfter(after.value);
      }
      if agencyId.Some? && agencyId.value != 0 {
        var k := (if before.Some? then 1 else 0) + (if after.Some? then 1 else 0);
        assert qs[k] == AgencyIs(agencyId.value);
      }
      if dataSourceIds.Some? && |dataSourceIds.value| > 0 {
        assert Holds(qs[|qs| - 1], r);
      }
    }
  }

  /** With no arguments the query is `session.query(Grant)`: every grant. */
  lemma NoArgumentsKeepsAll(inSources: Grant -> bool, rows: seq<Row>)
    ensures FilterGrantsQuery(None, None, None, None, inSources).Success?
    ensures FilterGrantsQuery(None, None, None, None, inSources).value == []
    ensures Where(rows, FilterGrantsQuery(None, None, None, None, inSources).value) == rows
  {
    assert FilterGrantsQuery(None, None, None, None, inSources).value == [] + [] + [];
    WhereNoClauses(rows);
  }

  /** As written, `start_date_after` alone has no effect. */
  lemma AfterAloneIgnored(after: Option<Time>, agencyId: Option<nat>, dataSourceIds: Option<seq<nat>>,
                          inSources: Grant -> bool)
    ensures FilterGrantsQuery(None, after, agencyId, dataSourceIds, inSources).Success?
    ensures FilterGrantsQuery(None, after, agencyId, dataSourceIds, inSources).value
         == FilterGrantsQuery(None, None, agencyId, dataSourceIds, inSources).value
  { }

  /** As written, `start_date_before` without `start_date_after` makes the ORM compare with None. */
  lemma BeforeAloneRaises(before: Time, agencyId: Option<nat>, dataSourceIds: Option<seq<nat>>,
                          inSources: Grant -> bool)
    ensures FilterGrantsQuery(Some(before), None, agencyId, dataSourceIds, inSources) == Failure(ComparedWithNone)
  { }

  /** When the query builds, every kept row respects the bounds it was given. */
  lemma {:induction false} AsWrittenBounds(before: Option<Time>, after: Option<Time>, agencyId: Option<nat>,
                                           dataSourceIds: Option<seq<nat>>, inSources: Grant -> bool,
                                           rows: seq<Row>, r: Row)
    requires FilterGrantsQuery(before, after, agencyId, dataSourceIds, inSources).Success?
    requires r in Where(rows, FilterGrantsQuery(before, after, agencyId, dataSourceIds, inSources).value)
    ensures r in rows
    ensures before.Some? ==> after.Some? && after.value <= r.grant.startDate <= before.value
    ensures agencyId.Some? && agencyId.value != 0 ==> r.agencyId == agencyId
  {
    var qs := FilterGrantsQuery(before, after, agencyId, dataSourceIds, inSources).value;
    assert Keeps(qs, r);
    if before.Some? {
      assert Holds(qs[0], r) && Holds(qs[1], r);
    }
    if agencyId.Some? && agencyId.value != 0 {
      var k := if before.Some? then 2 else 0;
      assert qs[k] == AgencyIs(agencyId.value);
      assert Holds(qs[k], r);
    }
  }

  /** filter_grants_from_ai: names are resolved to ids, then the (corrected) query runs; the
      rows come back in table order. `likeIds` are the ids of the data sources whose name is
      LIKE `datasource`. */
  function FilterGrantsFromAi(rows: seq<Row>, agencies: seq<Agency>, before: Option<Time>, after: Option<Time>,
                              agency: Option<string>, datasource: Option<string>, likeIds: seq<nat>,
                              inSources: Grant -> bool): (r: seq<Grant>)
    ensures |r| <= |rows|
  {
    Grants(Where(rows, FilterGrantsQueryIntended(before, after, AgencyIdFor(agencies, agency),
                                                 SourceIdsFor(datasource, likeIds), inSources)))
  }

  /** The agency id a non-empty agency name resolves to. */
  function AgencyIdFor(agencies: seq<Agency>, agency: Option<string>): Option<nat> {
    if TruthyStr(agency) then ResolveAgency(agencies, agency.value) else None
  }

  /** The data-source ids a non-empty data-source pattern stands for. */
  function SourceIdsFor(datasource: Option<string>, likeIds: seq<nat>): Option<seq<nat>> {
    if TruthyStr(datasource) then Some(likeIds) else None
  }

  /** The grants listed are exactly those of rows meeting every criterion given, once the names
      are resolved. */
  lemma FilterGrantsFromAiMeaning(rows: seq<Row>, agencies: seq<Agency>, before: Option<Time>, after: Option<Time>,
                                  agency: Option<string>, datasource: Option<string>, likeIds: seq<nat>,
                                  inSources: Grant -> bool, g: Grant)
    ensures g in FilterGrantsFromAi(rows, agencies, before, after, agency, datasource, likeIds, inSources) <==>
      exists row :: row in rows && row.grant == g
        && MatchesIntended(before, after, AgencyIdFor(agencies, agency), SourceIdsFor(datasource, likeIds), inSources, row)
  {
    var agencyId, dataSourceIds := AgencyIdFor(agencies, agency), SourceIdsFor(datasource, likeIds);
    var kept := Where(rows, FilterGrantsQueryIntended(before, after, agencyId, dataSourceIds, inSources));
    if g in FilterGrantsFromAi(rows, agencies, before, after, agency, datasource, likeIds, inSources) {
      var k :| 0 <= k < |kept| && Grants(kept)[k] == g;
      IntendedQueryMeaning(before, after, agencyId, dataSourceIds, inSources, rows, kept[k]);
    }
    if exists row :: row in rows && row.grant == g && MatchesIntended(before, after, agencyId, dataSourceIds, inSources, row) {
      var row :| row in rows && row.grant == g && MatchesIntended(before, after, agencyId, dataSourceIds, inSources, row);
      IntendedQueryMeaning(before, after, agencyId, dataSourceIds, inSources, rows, row);
      var k :| 0 <= k < |kept| && kept[k] == row;
      assert Grants(kept)[k] == g;
    }
  }

  /** An agency name that matches no agency narrows nothing: it is as if none were given. */
  lemma UnknownAgencyIgnored(rows: seq<Row>, agencies: seq<Agency>, before: Option<Time>, after: Option<Time>,
                             name: string, datasource: Option<string>, likeIds: seq<nat>, inSources: Grant -> bool)
    requires forall k :: 0 <= k < |agencies| ==> !ILike(agencies[k].name, name)
    ensures FilterGrantsFromAi(rows, agencies, before, after, Some(name), datasource, likeIds, inSources)
         == FilterGrantsFromAi(rows, agencies, before, after, None, datasource, likeIds, inSources)
  { }

  /** A resolved agency keeps only grants whose data source belongs to it. */
  lemma ResolvedAgencyNarrows(rows: seq<Row>, agencies: seq<Agency>, before: Option<Time>, after: Option<Time>,
                              name: string, datasource: Option<string>, likeIds: seq<nat>, inSources: Grant -> bool,
                              g: Grant)
    requires name != []
    requires ResolveAgency(agencies, name).Some?
    requires ResolveAgency(agencies, name).value != 0
    requires g in FilterGrantsFromAi(rows, agencies, before, after, Some(name), datasource, likeIds, inSources)
    ensures exists r :: r in rows && r.grant == g && r.agencyId == ResolveAgency(agencies, name)
  {
    var dataSourceIds := if TruthyStr(datasource) then Some(likeIds) else None;
    var agencyId := ResolveAgency(agencies, name);
    var kept := Where(rows, FilterGrantsQueryIntended(before, after, agencyId, dataSourceIds, inSources));
    var k :| 0 <= k < |kept| && Grants(kept)[k] == g;
    IntendedQueryMeaning(before, after, agencyId, dataSourceIds, inSources, rows, kept[k]);
  }
}
