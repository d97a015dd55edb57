/** Searching grants by a natural-language description (grant_search/ai/filter_string_to_function.py).
    The language model is an oracle on the messages it is sent. A candidate query is a list of
    GrantFilter clauses; the selected grants are then asked one yes/no question each. */
module GrantQuery {
  import opened Wrappers
  import opened Strings
  import opened Sorting
  import opened GrantModels
  import opened GrantFilter
  import opened AiCommon
  import Ingest

  const GrantLimit: nat := 1200

  /** LinearSearchFunction: every field is optional. */
  datatype Lsf = Lsf(
    startDateAfter: Option<Time>, startDateBefore: Option<Time>,
    agency: Option<string>, dataSource: Option<string>,
    deiStatus: Option<seq<DeiStatus>>,
    deiWomen: Option<bool>, deiRace: Option<bool>, outrageous: Option<bool>,
    hardScience: Option<bool>, carbon: Option<bool>,
    amountMin: Option<real>, amountMax: Option<real>)

  /** SearchFunction: the linear part and the yes/no question asked about every candidate. */
  datatype SearchFunction = SearchFunction(linear: Lsf, grantQuestion: Option<string>)

  /** Python truth of an optional float: None and 0.0 are false. */
  predicate TruthyReal(x: Option<real>) { x.Some? && x.value != 0.0 }

  /** Some derived-data field is constrained (`is not None`), so GrantDerivedData is joined. */
  predicate JoinsDerived(lsf: Lsf) {
    || lsf.deiStatus.Some? || lsf.deiWomen.Some? || lsf.deiRace.Some?
    || lsf.outrageous.Some? || lsf.hardScience.Some? || lsf.carbon.Some?
  }

  function FlagClause(f: Flag, v: Option<bool>): seq<Clause> {
    if v.Some? then [FlagIs(f, v.value)] else []
  }

  function StatusClause(ss: Option<seq<DeiStatus>>): seq<Clause> {
    if ss.Some? && |ss.value| > 0 then [StatusIn(ss.value)] else []
  }

  function DerivedClauses(lsf: Lsf): seq<Clause> {
    if !JoinsDerived(lsf) then []
    else
      [JoinDerived] + StatusClause(lsf.deiStatus)
      + FlagClause(DeiWomen, lsf.deiWomen) + FlagClause(DeiRace, lsf.deiRace)
      + FlagClause(Outrageous, lsf.outrageous) + FlagClause(HardScience, lsf.hardScience)
      + FlagClause(Carbon, lsf.carbon)
  }

  /** The agency the query narrows to: the first agency whose name matches case-insensitively. */
  function AgencyFilter(lsf: Lsf, agencies: seq<Agency>): Option<nat> {
    if TruthyStr(lsf.agency) then ResolveAgency(agencies, lsf.agency.value) else None
  }

  /** The data-source clause is added for a non-empty pattern that some data source name is LIKE;
      `likeIds` are the ids of those data sources. */
  predicate NarrowsSources(lsf: Lsf, likeIds: seq<nat>) {
    TruthyStr(lsf.dataSource) && |likeIds| > 0
  }

  function SourceAndAgency(lsf: Lsf, agencies: seq<Agency>, likeIds: seq<nat>, inSources: Grant -> bool): seq<Clause> {
    (if NarrowsSources(lsf, likeIds) then [InDataSources(inSources)] else [])
    + (var a := AgencyFilter(lsf, agencies); if a.Some? then [AgencyIs(a.value)] else [])
  }

  function AmountClauses(lsf: Lsf): seq<Clause> {
    (if TruthyReal(lsf.amountMin) then [AmountAtLeast(lsf.amountMin.value)] else [])
    + (if TruthyReal(lsf.amountMax) then [AmountAtMost(lsf.amountMax.value)] else [])
  }

  /** _filter_grants_from_linear as written: the lower date bound is guarded by
      `start_date_before`, so `start_date_after` alone is dropped and `start_date_before` alone
      makes the ORM compare a column with None, which raises. */
  function LinearQuery(lsf: Lsf, agencies: seq<Agency>, likeIds: seq<nat>, inSources: Grant -> bool)
    : (r: Result<seq<Clause>, QueryError>)
    ensures r.Failure? <==> lsf.startDateBefore.Some? && lsf.startDateAfter.None?
  {
    if lsf.startDateBefore.Some? && lsf.startDateAfter.None? then Failure(ComparedWithNone)
    else
      Success(SourceAndAgency(lsf, agencies, likeIds, inSources)
        + (if lsf.startDateBefore.Some? then [StartOnOrBefore(lsf.startDateBefore.value)] else [])
        + (if lsf.startDateBefore.Some? then [StartOnOrAfter(lsf.startDateAfter.value)] else [])
        + AmountClauses(lsf) + DerivedClauses(lsf))
  }

  /** _filter_grants_from_linear with each date bound guarded by its own field. */
  function LinearQueryIntended(lsf: Lsf, agencies: seq<Agency>, likeIds: seq<nat>, inSources: Grant -> bool)
    : seq<Clause>
  {
    SourceAndAgency(lsf, agencies, likeIds, inSources)
    + (if lsf.startDateBefore.Some? then [StartOnOrBefore(lsf.startDateBefore.value)] else [])
    + (if lsf.startDateAfter.Some? then [StartOnOrAfter(lsf.startDateAfter.value)] else [])
    + AmountClauses(lsf) + DerivedClauses(lsf)
  }

  predicate FlagMatches(v: Option<bool>, f: Flag, r: Row) {
    v.Some? ==> r.derived.Some? && FlagOf(r.derived.value, f) == v.value
  }

  /** What a search function asks of a joined row, field by field. */
  predicate LinearMatches(lsf: Lsf, agencies: seq<Agency>, likeIds: seq<nat>, inSources: Grant -> bool, r: Row) {
    BaseMatches(lsf, agencies, likeIds, inSources, r) && DerivedMatches(lsf, r)
  }

  /** What a search function asks of a row's grant and data source. */
  predicate BaseMatches(lsf: Lsf, agencies: seq<Agency>, likeIds: seq<nat>, inSources: Grant -> bool, r: Row) {
    && (NarrowsSources(lsf, likeIds) ==> inSources(r.grant))
    && (AgencyFilter(lsf, agencies).Some? ==> r.agencyId == AgencyFilter(lsf, agencies))
    && (lsf.startDateBefore.Some? ==> r.grant.startDate <= lsf.startDateBefore.value)
    && (lsf.startDateAfter.Some? ==> r.grant.startDate >= lsf.startDateAfter.value)
    && (TruthyReal(lsf.amountMin) ==> r.grant.amount >= lsf.amountMin.value)
    && (TruthyReal(lsf.amountMax) ==> r.grant.amount <= lsf.amountMax.value)
  }

  /** What a search function asks of a row's derived data. */
  predicate DerivedMatches(lsf: Lsf, r: Row) {
    && (JoinsDerived(lsf) ==> r.derived.Some?)
    && (lsf.deiStatus.Some? && |lsf.deiStatus.value| > 0 ==>
          r.derived.Some? && r.derived.value.deiStatus in lsf.deiStatus.value)
    && FlagMatches(lsf.deiWomen, DeiWomen, r) && FlagMatches(lsf.deiRace, DeiRace, r)
    && FlagMatches(lsf.outrageous, Outrageous, r) && FlagMatches(lsf.hardScience, HardScience, r)
    && FlagMatches(lsf.carbon, Carbon, r)
  }

  lemma KeepsOne(c: Clause, r: Row)
    ensures Keeps([c], r) <==> Holds(c, r)
  {
    assert [c][0] == c;
  }

  lemma KeepsFlag(f: Flag, v: Option<bool>, r: Row)
    ensures Keeps(FlagClause(f, v), r) <==> FlagMatches(v, f, r)
  {
    if v.Some? { KeepsOne(FlagIs(f, v.value), r); }
  }

  lemma KeepsDerived(lsf: Lsf, r: Row)
    ensures Keeps(DerivedClauses(lsf), r) <==> DerivedMatches(lsf, r)
  {
    if JoinsDerived(lsf) {
      var a := [JoinDerived] + StatusClause(lsf.deiStatus);
      var b := a + FlagClause(DeiWomen, lsf.deiWomen);
      var c := b + FlagClause(DeiRace, lsf.deiRace);
      var d := c + FlagClause(Outrageous, lsf.outrageous);
      var e := d + FlagClause(HardScience, lsf.hardScience);
      assert DerivedClauses(lsf) == e + FlagClause(Carbon, lsf.carbon);
      KeepsConcat(e, FlagClause(Carbon, lsf.carbon), r);
      KeepsConcat(d, FlagClause(HardScience, lsf.hardScience), r);
      KeepsConcat(c, FlagClause(Outrageous, lsf.outrageous), r);
      KeepsConcat(b, FlagClause(DeiRace, lsf.deiRace), r);
      KeepsConcat(a, FlagClause(DeiWomen, lsf.deiWomen), r);
      KeepsConcat([JoinDerived], StatusClause(lsf.deiStatus), r);
      KeepsOne(JoinDerived, r);
      if lsf.deiStatus.Some? && |lsf.deiStatus.value| > 0 { KeepsOne(StatusIn(lsf.deiStatus.value), r); }
      KeepsFlag(DeiWomen, lsf.deiWomen, r);
      KeepsFlag(DeiRace, lsf.deiRace, r);
      KeepsFlag(Outrageous, lsf.outrageous, r);
      KeepsFlag(HardScience, lsf.hardScience, r);
      KeepsFlag(Carbon, lsf.carbon, r);
    }
  }

  /** The clauses before the derived-data join. */
  function BaseClauses(lsf: Lsf, agencies: seq<Agency>, likeIds: seq<nat>, inSources: Grant -> bool): seq<Clause> {
    SourceAndAgency(lsf, agencies, likeIds, inSources)
    + (if lsf.startDateBefore.Some? then [StartOnOrBefore(lsf.startDateBefore.value)] else [])
    + (if lsf.startDateAfter.Some? then [StartOnOrAfter(lsf.startDateAfter.value)] else [])
    + AmountClauses(lsf)
  }

  lemma KeepsSourceAndAgency(lsf: Lsf, agencies: seq<Agency>, likeIds: seq<nat>, inSources: Grant -> bool, r: Row)
    ensures Keeps(SourceAndAgency(lsf, agencies, likeIds, inSources), r)
        <==> ((NarrowsSources(lsf, likeIds) ==> inSources(r.grant))
              && (AgencyFilter(lsf, agencies).Some? ==> r.agencyId == AgencyFilter(lsf, agencies)))
  {
    var s1 := if NarrowsSources(lsf, likeIds) then [InDataSources(inSources)] else [];
    var a := AgencyFilter(lsf, agencies);
    var s2 := if a.Some? then [AgencyIs(a.value)] else [];
    assert SourceAndAgency(lsf, agencies, likeIds, inSources) == s1 + s2;
    KeepsConcat(s1, s2, r);
    if NarrowsSources(lsf, likeIds) { KeepsOne(InDataSources(inSources), r); }
    if a.Some? { KeepsOne(AgencyIs(a.value), r); }
  }

  lemma KeepsAmounts(lsf: Lsf, r: Row)
    ensures Keeps(AmountClauses(lsf), r)
        <==> ((TruthyReal(lsf.amountMin) ==> r.grant.amount >= lsf.amountMin.value)
              && (TruthyReal(lsf.amountMax) ==> r.grant.amount <= lsf.amountMax.value))
  {
    var m1 := if TruthyReal(lsf.amountMin) then [AmountAtLeast(lsf.amountMin.value)] else [];
    var m2 := if TruthyReal(lsf.amountMax) then [AmountAtMost(lsf.amountMax.value)] else [];
    assert AmountClauses(lsf) == m1 + m2;
    KeepsConcat(m1, m2, r);
    if TruthyReal(lsf.amountMin) { KeepsOne(AmountAtLeast(lsf.amountMin.value), r); }
    if TruthyReal(lsf.amountMax) { KeepsOne(AmountAtMost(lsf.amountMax.value), r); }
  }

  /** A row passes the clauses before the join exactly when its grant and source match. */
  lemma KeepsBase(lsf: Lsf, agencies: seq<Agency>, likeIds: seq<nat>, inSources: Grant -> bool, r: Row)
    ensures Keeps(BaseClauses(lsf, agencies, likeIds, inSources), r)
        <==> BaseMatches(lsf, agencies, likeIds, inSources, r)
  {
    var d1 := if lsf.startDateBefore.Some? then [StartOnOrBefore(lsf.startDateBefore.value)] else [];
    var d2 := if lsf.startDateAfter.Some? then [StartOnOrAfter(lsf.startDateAfter.value)] else [];
    var p := SourceAndAgency(lsf, agencies, likeIds, inSources);
    KeepsConcat((p + d1) + d2, AmountClauses(lsf), r);
    KeepsConcat(p + d1, d2, r);
    KeepsConcat(p, d1, r);
    KeepsSourceAndAgency(lsf, agencies, likeIds, inSources, r);
    KeepsAmounts(lsf, r);
    if lsf.startDateBefore.Some? { KeepsOne(StartOnOrBefore(lsf.startDateBefore.value), r); }
    if lsf.startDateAfter.Some? { KeepsOne(StartOnOrAfter(lsf.startDateAfter.value), r); }
  }

  /** A row passes the intended query exactly when it matches every field of the search function. */
  lemma KeepsIntended(lsf: Lsf, agencies: seq<Agency>, likeIds: seq<nat>, inSources: Grant -> bool, r: Row)
    ensures Keeps(LinearQueryIntended(lsf, agencies, likeIds, inSources), r)
        <==> LinearMatches(lsf, agencies, likeIds, inSources, r)
  {
    assert LinearQueryIntended(lsf, agencies, likeIds, inSources)
        == BaseClauses(lsf, agencies, likeIds, inSources) + DerivedClauses(lsf);
    KeepsConcat(BaseClauses(lsf, agencies, likeIds, inSources), DerivedClauses(lsf), r);
    KeepsBase(lsf, agencies, likeIds, inSources, r);
    KeepsDerived(lsf, r);
  }

  /** The rows the intended query returns are the table's rows that match the search function. */
  lemma LinearIntendedMeaning(lsf: Lsf, agencies: seq<Agency>, likeIds: seq<nat>, inSources: Grant -> bool,
                              rows: seq<Row>, r: Row)
    ensures r in Where(rows, LinearQueryIntended(lsf, agencies, likeIds, inSources))
        <==> r in rows && LinearMatches(lsf, agencies, likeIds, inSources, r)
  {
    KeepsIntended(lsf, agencies, likeIds, inSources, r);
  }

  /** As written, the query is the intended one for a search function whose lower bound is
      dropped unless an upper bound is given. */
  lemma LinearAsWrittenDropsLowerBound(lsf: Lsf, agencies: seq<Agency>, likeIds: seq<nat>, inSources: Grant -> bool)
    requires LinearQuery(lsf, agencies, likeIds, inSources).Success?
    ensures LinearQuery(lsf, agencies, likeIds, inSources).value
         == LinearQueryIntended(lsf.(startDateAfter := if lsf.startDateBefore.Some? then lsf.startDateAfter else None),
                                agencies, likeIds, inSources)
  { }

  /** As written, an upper date bound without a lower one makes building the query fail. */
  lemma LinearBeforeAloneRaises(lsf: Lsf, agencies: seq<Agency>, likeIds: seq<nat>, inSources: Grant -> bool)
    requires lsf.startDateBefore.Some? && lsf.startDateAfter.None?
    ensures LinearQuery(lsf, agencies, likeIds, inSources) == Failure(ComparedWithNone)
  { }

  /** As written, a lower date bound without an upper one narrows nothing: some grant that starts
      before it is returned. */
  lemma LinearAfterAloneIgnored(after: Time, g: Grant)
    requires g.startDate < after
    ensures var lsf := Lsf(Some(after), None, None, None, None, None, None, None, None, None, None, None);
      && LinearQuery(lsf, [], [], _ => true) == Success([])
      && Row(g, None, None) in Where([Row(g, None, None)], LinearQuery(lsf, [], [], _ => true).value)
      && Row(g, None, None) !in Where([Row(g, None, None)], LinearQueryIntended(lsf, [], [], _ => true))
  {
    var lsf := Lsf(Some(after), None, None, None, None, None, None, None, None, None, None, None);
    assert SourceAndAgency(lsf, [], [], _ => true) == [];
    assert LinearQueryIntended(lsf, [], [], _ => true) == [StartOnOrAfter(after)];
    assert !Keeps([StartOnOrAfter(after)], Row(g, None, None)) by {
      KeepsOne(StartOnOrAfter(after), Row(g, None, None));
    }
  }

  // ---------------------------------------------------------------- selection

  function AmountKey(g: Grant): real { g.amount }

  /** The query's grants ordered by amount, largest first (`order_by(Grant.amount.desc())`);
      grants of equal amount stay in table order. */
  function Candidates(rows: seq<Row>, qs: seq<Clause>): (r: seq<Grant>)
    ensures SortedDesc(r, AmountKey)
    ensures multiset(r) == multiset(Grants(Where(rows, qs)))
  {
    SortDesc(Grants(Where(rows, qs)), AmountKey)
  }

  /** The share of matching grants that is sent to the model. */
  function SamplingFraction(count: nat): (f: real)
    ensures 0.0 < f <= 1.0
    ensures count > GrantLimit ==> f * (count as real) == GrantLimit as real
    ensures count <= GrantLimit ==> f == 1.0
  {
    if count > GrantLimit then
      var f := (GrantLimit as real) / (count as real);
      assert f * (count as real) == GrantLimit as real;
      f
    else 1.0
  }

  /** `sql_query.count()`, `sql_query.limit(GRANT_LIMIT).all()` and the sampling fraction. */
  datatype Selection = Selection(count: nat, grants: seq<Grant>, fraction: real)

  /** No two grants share an id. */
  predicate IdsDistinct(gs: seq<Grant>) {
    forall i, j :: 0 <= i < j < |gs| ==> gs[i].id != gs[j].id
  }

  /** `g` is the first grant of `gs` with its id. */
  predicate FirstOfId(gs: seq<Grant>, g: Grant) {
    exists i :: 0 <= i < |gs| && gs[i] == g && forall j :: 0 <= j < i ==> gs[j].id != g.id
  }

  predicate HasId(gs: seq<Grant>, id: nat) {
    exists k :: 0 <= k < |gs| && gs[k].id == id
  }

  /** `r` holds one grant per id of `gs`, the first one with that id. */
  predicate DistinctOf(gs: seq<Grant>, r: seq<Grant>) {
    && IdsDistinct(r)
    && (forall k :: 0 <= k < |r| ==> FirstOfId(gs, r[k]))
    && (forall g :: g in gs ==> HasId(r, g.id))
  }

  /** What `.all()` of a legacy query over the Grant entity returns for the rows fetched: one
      Grant per primary key, at its first row. */
  function DistinctById(gs: seq<Grant>): (r: seq<Grant>)
    ensures |r| <= |gs|
    ensures DistinctOf(gs, r)
    decreases |gs|
  {
    if gs == [] then []
    else
      var r := DistinctById(gs[..|gs| - 1]);
      var g := gs[|gs| - 1];
      if HasId(r, g.id) then
        DistinctKeep(gs, r);
        r
      else
        DistinctAdd(gs, r);
        r + [g]
  }

  /** The grants of a prefix that come first with their id there still do in the whole list. */
  lemma FirstOfIdExtend(init: seq<Grant>, g: Grant, h: Grant)
    requires FirstOfId(init, h)
    ensures FirstOfId(init + [g], h)
  {
    var i :| 0 <= i < |init| && init[i] == h && forall j :: 0 <= j < i ==> init[j].id != h.id;
    assert (init + [g])[i] == h;
    assert forall j :: 0 <= j < i ==> (init + [g])[j] == init[j];
  }

  lemma DistinctKeep(gs: seq<Grant>, r: seq<Grant>)
    requires gs != [] && DistinctOf(gs[..|gs| - 1], r) && HasId(r, gs[|gs| - 1].id)
    ensures DistinctOf(gs, r)
  {
    var init, g := gs[..|gs| - 1], gs[|gs| - 1];
    assert gs == init + [g];
    forall k | 0 <= k < |r| ensures FirstOfId(gs, r[k]) {
      FirstOfIdExtend(init, g, r[k]);
    }
  }

  lemma DistinctAdd(gs: seq<Grant>, r: seq<Grant>)
    requires gs != [] && DistinctOf(gs[..|gs| - 1], r) && !HasId(r, gs[|gs| - 1].id)
    ensures DistinctOf(gs, r + [gs[|gs| - 1]])
  {
    var init, g := gs[..|gs| - 1], gs[|gs| - 1];
    var r' := r + [g];
    assert gs == init + [g];
    assert FirstOfId(gs, g) by {
      forall j | 0 <= j < |init| ensures gs[j].id != g.id {
        assert init[j] in init;
      }
      assert gs[|init|] == g;
    }
    forall k | 0 <= k < |r'| ensures FirstOfId(gs, r'[k]) {
      if k < |r| {
        assert r'[k] == r[k];
        FirstOfIdExtend(init, g, r[k]);
      }
    }
    forall h | h in gs ensures HasId(r', h.id) {
      if h in init {
        var k :| 0 <= k < |r| && r[k].id == h.id;
        assert r'[k] == r[k];
      } else {
        assert r'[|r|] == g;
      }
    }
  }

  /** The count is that of all the joined rows; the grants are the distinct grants among the
      first 1200 rows, so a grant joined to several derived rows counts several times but is
      sent to the model once. */
  function Select(cands: seq<Grant>): (s: Selection)
    ensures s.count == |cands|
    ensures |s.grants| <= GrantLimit && |s.grants| <= s.count
    ensures DistinctOf(cands[..Min(|cands|, GrantLimit)], s.grants)
  {
    Selection(|cands|, DistinctById(cands[..Min(|cands|, GrantLimit)]), SamplingFraction(|cands|))
  }

  /** The count is the number of matching rows, and the grants sent to the model are the
      distinct grants of the first min(count, 1200) rows in descending-amount order. */
  lemma SelectedCount(rows: seq<Row>, qs: seq<Clause>)
    ensures var cands := Candidates(rows, qs); var s := Select(cands);
      && s.count == |Where(rows, qs)|
      && |s.grants| <= Min(s.count, GrantLimit)
      && s.grants == DistinctById(cands[..Min(s.count, GrantLimit)])
  {
    var cands := Candidates(rows, qs);
    var kept := Where(rows, qs);
    assert |cands| == |multiset(cands)| == |multiset(Grants(kept))| == |kept|;
  }

  /** No grant left out of the selection has a larger amount than a selected one: the selection
      is the top of the amount order, not a sample. */
  lemma SelectedAreLargest(rows: seq<Row>, qs: seq<Clause>)
    ensures var cands := Candidates(rows, qs); var s := Select(cands);
      forall i, j :: 0 <= i < |s.grants| && Min(|cands|, GrantLimit) <= j < |cands| ==> s.grants[i].amount >= cands[j].amount
  {
    var cands := Candidates(rows, qs);
    var s := Select(cands);
    var top := cands[..Min(|cands|, GrantLimit)];
    forall i, j | 0 <= i < |s.grants| && Min(|cands|, GrantLimit) <= j < |cands| ensures s.grants[i].amount >= cands[j].amount {
      assert FirstOfId(top, s.grants[i]);
      var k :| 0 <= k < |top| && top[k] == s.grants[i] && forall m :: 0 <= m < k ==> top[m].id != s.grants[i].id;
      assert cands[k] == s.grants[i];
      assert AmountKey(cands[k]) >= AmountKey(cands[j]);
    }
  }

  /** No two grants sent to the model share an id. */
  lemma SelectedDistinct(lsf: Lsf, grants: seq<Grant>, sources: seq<DataSource>, derived: seq<Derived>,
                         agencies: seq<Agency>, o: Oracles)
    ensures IdsDistinct(SelectionOf(lsf, grants, sources, derived, agencies, o).grants)
  { }

  /** A grant matched through two rows is counted twice and selected once. */
  lemma RepeatedGrantSelectedOnce(g: Grant, rows: seq<Row>, qs: seq<Clause>)
    requires |rows| == 2 && rows[0].grant == g && rows[1].grant == g
    requires Keeps(qs, rows[0]) && Keeps(qs, rows[1])
    ensures Select(Candidates(rows, qs)) == Selection(2, [g], 1.0)
  {
    assert Where(rows[1..], qs) == [rows[1]] + Where(rows[2..], qs);
    assert rows[2..] == [];
    assert Where(rows, qs) == [rows[0], rows[1]];
    var cands := Candidates(rows, qs);
    assert multiset(cands) == multiset{g, g};
    assert cands[0] in multiset(cands) && cands[1] in multiset(cands);
    assert cands == [g, g];
    assert cands[..Min(|cands|, GrantLimit)] == [g, g];
    var d := DistinctById([g, g]);
    assert [g, g][..1] == [g];
    assert DistinctById([g]) == [g] by { assert [g][..0] == []; }
  }

  /** Every selected grant is a row the query keeps. */
  lemma SelectedMatch(rows: seq<Row>, qs: seq<Clause>, g: Grant)
    requires g in Select(Candidates(rows, qs)).grants
    ensures exists r :: r in rows && r.grant == g && Keeps(qs, r)
  {
    var cands := Candidates(rows, qs);
    var kept := Where(rows, qs);
    assert g in cands;
    assert g in multiset(cands);
    assert g in multiset(Grants(kept));
    var k :| 0 <= k < |kept| && Grants(kept)[k] == g;
    assert kept[k] in kept;
  }

  // ---------------------------------------------------------------- asking about one grant

  /** Every candidate is a (grant, included, reason) triple; the classifier answers with
      `result` and `reason`. */
  datatype Verdict = Verdict(grant: Grant, included: bool, reason: string)

  const ErrorReason := "Error"

  function ShowQuestion(q: Option<string>): string { if q.Some? then q.value else "None" }

  const FilterPromptHead := "\n    You are answering this question: `"
  const FilterPromptTail := "`\n"
    + "    You will be given a grant description. Use that to answer this question with\n"
    + "    True/False in the `results` field.\n"
    + "    The response must be in JSON format.\n"
    + "    "

  function FilterPrompt(question: Option<string>): string {
    FilterPromptHead + ShowQuestion(question) + FilterPromptTail
  }

  function FilterMessages(question: Option<string>, text: string): seq<Message> {
    FormatForLlm(FilterPrompt(question), "grant_description: \n\"" + text + "\"")
  }

  /** The try block around the classifier: an exception or timeout (`None`) becomes
      (grant, False, "Error"). A grant is included only when the classifier says so. */
  function Ask(question: Option<string>, g: Grant, text: string, classify: seq<Message> -> Option<(bool, string)>)
    : (v: Verdict)
    ensures v.grant == g
    ensures v.included ==> classify(FilterMessages(question, text)) == Some((true, v.reason))
    ensures classify(FilterMessages(question, text)).None? ==> v == Verdict(g, false, ErrorReason)
    ensures classify(FilterMessages(question, text)).Some? ==>
      v.included == classify(FilterMessages(question, text)).value.0
      && v.reason == classify(FilterMessages(question, text)).value.1
  {
    var answer := classify(FilterMessages(question, text));
    if answer.None? then Verdict(g, false, ErrorReason)
    else Verdict(g, answer.value.0, answer.value.1)
  }

  /** What `grant.data_source.agency` reads: there is no data source (reading `.agency` on None
      raises), the data source has no agency (None), or the agency row. */
  datatype SourceAgency = NoDataSource | NoAgency | HasAgency(agency: Agency)

  /** filter_grants_by_query as written. Without a data source, reading its agency raises, and
      the handler's log line refers to the description that was never assigned, so the error
      leaves the function (`None`). The test `grant.data_source.agency == "NSF"` compares an
      Agency row, or None, with a str and is false for every data source, so every grant that
      has one is described by its raw text, `render` being its str(). */
  function FilterGrantsByQuery(question: Option<string>, g: Grant, owner: SourceAgency,
                               render: RawText -> string, classify: seq<Message> -> Option<(bool, string)>)
    : (r: Option<Verdict>)
    ensures r.Some? <==> !owner.NoDataSource?
  {
    if owner.NoDataSource? then None
    else Some(Ask(question, g, render(g.rawText), classify))
  }

  /** The NSF description intended instead: five fields of the stored award as JSON. `parseRaw`
      parses the stored XML and `dumps` is json.dumps of the selected fields. */
  function NsfDescription(raw: RawText, parseRaw: RawText -> Option<Ingest.XmlElement>,
                          dumps: seq<(string, Ingest.XValue)> -> string): (r: Option<string>)
    ensures r.Some? ==> parseRaw(raw).Some?
  {
    match parseRaw(raw)
    case None => None
    case Some(root) =>
      var fields := NsfFields(Ingest.Convert(root));
      if fields.Failure? then None else Some(dumps(fields.value))
  }

  function NsfFields(data: Ingest.XValue): Result<seq<(string, Ingest.XValue)>, Ingest.IngestError> {
    var award :- Ingest.Get(data, "Award");
    var id :- Ingest.Get(award, "AwardID");
    var title :- Ingest.Get(award, "AwardTitle");
    var amount :- Ingest.Get(award, "AwardAmount");
    var abstractText :- Ingest.Get(award, "AbstractNarration");
    var investigator :- Ingest.Get(award, "Investigator");
    Success([("AwardID", id), ("AwardTitle", title), ("AwardAmount", amount),
             ("AbstractNarration", abstractText), ("Investigator", investigator)])
  }

  /** The data source's agency is the NSF. */
  predicate IsNsf(owner: SourceAgency) { owner.HasAgency? && owner.agency.name == "NSF" }

  /** filter_grants_by_query with the agency compared by name. A description that cannot be built
      leaves the function like the missing data source does. */
  function FilterGrantsByQueryIntended(question: Option<string>, g: Grant, owner: SourceAgency,
                                       render: RawText -> string, nsf: RawText -> Option<string>,
                                       classify: seq<Message> -> Option<(bool, string)>)
    : (r: Option<Verdict>)
    ensures r.Some? ==> !owner.NoDataSource?
    ensures !IsNsf(owner) ==> r == FilterGrantsByQuery(question, g, owner, render, classify)
  {
    if owner.NoDataSource? then None
    else if IsNsf(owner) then
      match nsf(g.rawText)
      case None => None
      case Some(text) => Some(Ask(question, g, text, classify))
    else Some(Ask(question, g, render(g.rawText), classify))
  }

  /** As written, every grant with a data source, an NSF one or one whose data source has no
      agency, is described by its raw text. */
  lemma NsfBranchNeverTaken(question: Option<string>, g: Grant, owner: SourceAgency, render: RawText -> string,
                            classify: seq<Message> -> Option<(bool, string)>)
    requires !owner.NoDataSource?
    ensures FilterGrantsByQuery(question, g, owner, render, classify)
         == Some(Ask(question, g, render(g.rawText), classify))
  { }

  /** The corrected function describes an NSF grant by its award fields. */
  lemma NsfDescribedByAward(question: Option<string>, g: Grant, a: Agency, render: RawText -> string,
                            nsf: RawText -> Option<string>, classify: seq<Message> -> Option<(bool, string)>)
    requires a.name == "NSF" && nsf(g.rawText).Some?
    ensures FilterGrantsByQueryIntended(question, g, HasAgency(a), render, nsf, classify)
         == Some(Ask(question, g, nsf(g.rawText).value, classify))
  { }

  // ---------------------------------------------------------------- the result stream

  /** What `future.result(timeout=12)` gives: the verdict, or an exception (a timeout, or an
      error that left filter_grants_by_query). */
  datatype Outcome = Completed(v: Verdict) | Raised

  function Emitted(f: Outcome): seq<(Grant, string)> {
    if f.Completed? && f.v.included then [(f.v.grant, f.v.reason)] else []
  }

  /** The pairs query_by_text yields when the futures are read in submission order. */
  function Stream(fs: seq<Outcome>): (r: seq<(Grant, string)>)
    ensures |r| <= |fs|
  {
    if fs == [] then [] else Stream(fs[..|fs| - 1]) + Emitted(fs[|fs| - 1])
  }

  lemma {:induction false} StreamAppend(a: seq<Outcome>, b: seq<Outcome>)
    ensures Stream(a + b) == Stream(a) + Stream(b)
    decreases |b|
  {
    if b == [] {
      assert a + b == a;
    } else {
      var b' := b[..|b| - 1];
      assert (a + b)[..|a + b| - 1] == a + b';
      assert (a + b)[|a + b| - 1] == b[|b| - 1];
      StreamAppend(a, b');
    }
  }

  /** Every yielded pair comes from a completed future whose verdict included the grant. */
  lemma {:induction false} StreamSound(fs: seq<Outcome>, k: nat)
    requires k < |Stream(fs)|
    ensures exists i :: 0 <= i < |fs| && fs[i].Completed? && fs[i].v.included
                     && Stream(fs)[k] == (fs[i].v.grant, fs[i].v.reason)
  {
    var init := fs[..|fs| - 1];
    if k < |Stream(init)| {
      StreamSound(init, k);
      var i :| 0 <= i < |init| && init[i].Completed? && init[i].v.included
              && Stream(init)[k] == (init[i].v.grant, init[i].v.reason);
      assert fs[i] == init[i];
    } else {
      assert fs[|fs| - 1].Completed? && fs[|fs| - 1].v.included;
    }
  }

  /** Every included verdict is yielded, and an earlier future's pair comes earlier. */
  lemma StreamInSubmissionOrder(fs: seq<Outcome>, i: nat, j: nat)
    requires i < j < |fs|
    requires fs[i].Completed? && fs[i].v.included && fs[j].Completed? && fs[j].v.included
    ensures exists k1, k2 :: (0 <= k1 < k2 < |Stream(fs)|
      && Stream(fs)[k1] == (fs[i].v.grant, fs[i].v.reason)
      && Stream(fs)[k2] == (fs[j].v.grant, fs[j].v.reason))
  {
    assert fs == fs[..i] + [fs[i]] + fs[i + 1..j] + [fs[j]] + fs[j + 1..];
    StreamAppend(fs[..i] + [fs[i]] + fs[i + 1..j] + [fs[j]], fs[j + 1..]);
    StreamAppend(fs[..i] + [fs[i]] + fs[i + 1..j], [fs[j]]);
    StreamAppend(fs[..i] + [fs[i]], fs[i + 1..j]);
    StreamAppend(fs[..i], [fs[i]]);
    assert Stream([fs[i]]) == Emitted(fs[i]) by { assert [fs[i]][..0] == []; }
    assert Stream([fs[j]]) == Emitted(fs[j]) by { assert [fs[j]][..0] == []; }
    var k1 := |Stream(fs[..i])|;
    var k2 := |Stream(fs[..i]) + Stream([fs[i]]) + Stream(fs[i + 1..j])|;
    assert Stream(fs)[k1] == (fs[i].v.grant, fs[i].v.reason);
    assert Stream(fs)[k2] == (fs[j].v.grant, fs[j].v.reason);
  }

  /** A future that raised or whose verdict excluded the grant yields nothing. */
  lemma SkippedYieldsNothing(pre: seq<Outcome>, f: Outcome)
    requires f.Raised? || !f.v.included
    ensures Stream(pre + [f]) == Stream(pre)
  {
    assert (pre + [f])[..|pre|] == pre;
  }

  // ---------------------------------------------------------------- query_by_text

  /** The language-model and database calls the search makes, as oracles. `like(name, pattern)`
      is SQL LIKE; `inSources` is the value of the abstract data-source clause; `nsf` builds the
      NSF description; `late(i)` says that the i-th future raised (its timeout). */
  datatype Oracles = Oracles(
    parse: seq<Message> -> Option<SearchFunction>,
    like: (string, string) -> bool,
    inSources: Grant -> bool,
    render: RawText -> string,
    nsf: RawText -> Option<string>,
    classify: seq<Message> -> Option<(bool, string)>,
    late: nat -> bool)

  const SearchPrompt := "\n"
    + "You are an expert at filtering grants based on the grant description.\n"
    + "You will be given a description of the grants you want to find, \n"
    + "Fill out the results with appropriate JSON as described by the schema.\n"
  const SearchTextLabel := "User description: "

  function SearchMessages(text: string): seq<Message> {
    FormatForLlm(SearchPrompt, SearchTextLabel + text)
  }

  function SourceOf(sources: seq<DataSource>, id: nat): Option<DataSource> {
    match FirstWhere(sources, (d: DataSource) => d.id == id)
    case None => None
    case Some(i) => Some(sources[i])
  }

  /** The agency of a grant's data source. A grant whose data_source_id names no data source
      (it is NULL) has none; a data source whose agency_id is NULL, or names no agency, has no
      agency, since the relationship then loads None. */
  function AgencyOf(g: Grant, sources: seq<DataSource>, agencies: seq<Agency>): (r: SourceAgency)
    ensures r.NoDataSource? <==> SourceOf(sources, g.dataSourceId).None?
    ensures r.HasAgency? ==> r.agency in agencies && AgencyIdOf(g, sources) == Some(r.agency.id)
  {
    match SourceOf(sources, g.dataSourceId)
    case None => NoDataSource
    case Some(d) =>
      if d.agencyId.None? then NoAgency
      else match FirstWhere(agencies, (a: Agency) => a.id == d.agencyId.value)
        case None => NoAgency
        case Some(j) => HasAgency(agencies[j])
  }

  /** The derived rows of grant `id`, in table order. */
  function DerivedOf(id: nat, derived: seq<Derived>): (r: seq<Derived>)
    ensures forall x :: x in r <==> x in derived && x.grantId == id
  {
    if derived == [] then []
    else (if derived[0].grantId == id then [derived[0]] else []) + DerivedOf(id, derived[1..])
  }

  /** The rows one grant contributes: without the GrantDerivedData join, one row with no derived
      data; with the (inner) join, one row per derived row of the grant. */
  function JoinOne(g: Grant, sources: seq<DataSource>, derived: seq<Derived>, joined: bool): (r: seq<Row>)
    ensures !joined ==> |r| == 1 && r[0].grant == g && r[0].derived.None?
    ensures joined ==>
      var ds := DerivedOf(g.id, derived);
      |r| == |ds| && forall i :: 0 <= i < |r| ==> r[i].grant == g && r[i].derived == Some(ds[i])
    ensures forall i :: 0 <= i < |r| ==> r[i].agencyId == AgencyIdOf(g, sources)
  {
    var a := AgencyIdOf(g, sources);
    if !joined then [Row(g, a, None)]
    else
      var ds := DerivedOf(g.id, derived);
      seq(|ds|, i requires 0 <= i < |ds| => Row(g, a, Some(ds[i])))
  }

  function AgencyIdOf(g: Grant, sources: seq<DataSource>): Option<nat> {
    var s := SourceOf(sources, g.dataSourceId);
    if s.Some? then s.value.agencyId else None
  }

  /** The grants joined with their data source's agency and, when `joined`, with GrantDerivedData
      (see JoinedRows). */
  function JoinRows(grants: seq<Grant>, sources: seq<DataSource>, derived: seq<Derived>, joined: bool)
    : (r: seq<Row>)
    ensures !joined ==> |r| == |grants| && forall k :: 0 <= k < |r| ==> r[k].grant == grants[k] && r[k].derived.None?
  {
    if grants == [] then []
    else JoinOne(grants[0], sources, derived, joined) + JoinRows(grants[1..], sources, derived, joined)
  }

  /** Under the join a row is a grant paired with one of its own derived rows: a grant appears once
      per derived row it has and not at all when it has none. */
  lemma {:induction false} JoinedRows(grants: seq<Grant>, sources: seq<DataSource>, derived: seq<Derived>, row: Row)
    ensures row in JoinRows(grants, sources, derived, true) <==>
      row.grant in grants && row.agencyId == AgencyIdOf(row.grant, sources)
      && row.derived.Some? && row.derived.value in derived && row.derived.value.grantId == row.grant.id
  {
    if grants != [] {
      JoinedRows(grants[1..], sources, derived, row);
      var one := JoinOne(grants[0], sources, derived, true);
      var ds := DerivedOf(grants[0].id, derived);
      assert JoinRows(grants, sources, derived, true) == one + JoinRows(grants[1..], sources, derived, true);
      if row.grant == grants[0] && row.agencyId == AgencyIdOf(row.grant, sources)
         && row.derived.Some? && row.derived.value in ds {
        var i :| 0 <= i < |ds| && ds[i] == row.derived.value;
        assert one[i] == row;
      }
      assert grants == [grants[0]] + grants[1..];
    }
  }

  /** With a derived filter, the join yields a grant with two derived rows twice, which
      `count()` counts twice (see RepeatedGrantSelectedOnce for what is selected). */
  lemma JoinRepeatsGrant(g: Grant, sources: seq<DataSource>, d1: Derived, d2: Derived)
    requires d1.grantId == g.id && d2.grantId == g.id
    ensures |JoinRows([g], sources, [d1, d2], true)| == 2
    ensures JoinRows([g], sources, [d1, d2], true)[0].grant == g && JoinRows([g], sources, [d1, d2], true)[1].grant == g
  {
    assert [d1, d2][1..] == [d2];
    assert DerivedOf(g.id, [d2]) == [d2];
    assert DerivedOf(g.id, [d1, d2]) == [d1, d2];
    assert JoinRows([g][1..], sources, [d1, d2], true) == [];
  }

  /** When every grant has exactly one derived row, the join keeps one row per grant. */
  lemma {:induction false} JoinOnePerGrant(grants: seq<Grant>, sources: seq<DataSource>, derived: seq<Derived>)
    requires forall g :: g in grants ==> |DerivedOf(g.id, derived)| == 1
    ensures |JoinRows(grants, sources, derived, true)| == |grants|
    ensures forall k :: 0 <= k < |grants| ==> JoinRows(grants, sources, derived, true)[k].grant == grants[k]
  {
    if grants != [] {
      JoinOnePerGrant(grants[1..], sources, derived);
      var one := JoinOne(grants[0], sources, derived, true);
      var rest := JoinRows(grants[1..], sources, derived, true);
      assert JoinRows(grants, sources, derived, true) == one + rest;
      assert |one| == 1;
      forall k | 0 <= k < |grants|
        ensures JoinRows(grants, sources, derived, true)[k].grant == grants[k]
      {
        if k > 0 {
          assert JoinRows(grants, sources, derived, true)[k] == rest[k - 1];
          assert grants[1..][k - 1] == grants[k];
        }
      }
    }
  }

  /** Ids of the data sources whose name is LIKE the pattern. */
  function LikeIds(sources: seq<DataSource>, pattern: Option<string>, like: (string, string) -> bool): (r: seq<nat>)
    ensures |r| <= |sources|
  {
    if sources == [] || pattern.None? then []
    else
      var rest := LikeIds(sources[1..], pattern, like);
      if like(sources[0].name, pattern.value) then [sources[0].id] + rest else rest
  }

  /** The grants a search function selects from the tables. */
  function SelectionOf(lsf: Lsf, grants: seq<Grant>, sources: seq<DataSource>, derived: seq<Derived>,
                       agencies: seq<Agency>, o: Oracles): Selection
  {
    var qs := LinearQueryIntended(lsf, agencies, LikeIds(sources, lsf.dataSource, o.like), o.inSources);
    Select(Candidates(JoinRows(grants, sources, derived, JoinsDerived(lsf)), qs))
  }

  /** The futures, one per selected grant in submission order. */
  function Outcomes(selected: seq<Grant>, question: Option<string>, sources: seq<DataSource>,
                    agencies: seq<Agency>, o: Oracles): (fs: seq<Outcome>)
    ensures |fs| == |selected|
  {
    seq(|selected|, i requires 0 <= i < |selected| => OutcomeOf(i, selected[i], question, sources, agencies, o))
  }

  /** The i-th future: a timeout when it is late, otherwise the verdict or the exception of
      filter_grants_by_query. */
  function OutcomeOf(i: nat, g: Grant, question: Option<string>, sources: seq<DataSource>,
                     agencies: seq<Agency>, o: Oracles): Outcome
  {
    if o.late(i) then Raised
    else match FilterGrantsByQueryIntended(question, g, AgencyOf(g, sources, agencies), o.render, o.nsf, o.classify)
      case None => Raised
      case Some(v) => Completed(v)
  }

  function WithStatus(q: SearchQuery, s: Status): SearchQuery { q.(status := Some(s)) }

  /** The job once its grants have been submitted: waiting_for_ai, with the sampling fraction. */
  function Waiting(q: SearchQuery, sel: Selection): SearchQuery {
    WithStatus(q, WaitingForAi).(samplingFraction := Some(sel.fraction))
  }

  /** The search function the model returns for the job's text, if it returns one. */
  function ParsedSearch(q: SearchQuery, o: Oracles): Option<SearchFunction> {
    o.parse(SearchMessages(q.query))
  }

  /** The pairs the search yields for a parsed search function over the current tables. */
  function Yielded(sf: SearchFunction, sel: Selection, sources: seq<DataSource>, agencies: seq<Agency>,
                   o: Oracles): seq<(Grant, string)> {
    Stream(Outcomes(sel.grants, sf.grantQuestion, sources, agencies, o))
  }

  /** query_by_text on job `qid`, run to the end of its result stream. The status passes through
      parsing_query, reading_grants, sending_to_ai and waiting_for_ai, each committed, and
      `trace` lists the statuses written. When the search function cannot be obtained the
      generator raises (`failed`) with the job left at parsing_query. */
  method QueryByText(db: GrantDb, qid: nat, o: Oracles)
    returns (results: seq<(Grant, string)>, failed: bool, ghost trace: seq<Status>)
    requires db.Valid() && qid < |db.queries|
    modifies db`queries
    ensures db.Valid()
    ensures failed <==> ParsedSearch(old(db.queries[qid]), o).None?
    ensures failed ==> trace == [ParsingQuery] && results == []
    ensures !failed ==> trace == [ParsingQuery] + [ReadingGrants] + [SendingToAi] + [WaitingForAi]
    ensures failed ==> db.queries == old(db.queries)[qid := WithStatus(old(db.queries[qid]), ParsingQuery)]
    ensures !failed ==>
      var sf := ParsedSearch(old(db.queries[qid]), o).value;
      var sel := SelectionOf(sf.linear, old(db.grants), old(db.dataSources), old(db.derived), old(db.agencies), o);
      && db.queries == old(db.queries)[qid := Waiting(old(db.queries[qid]), sel)]
      && results == Yielded(sf, sel, old(db.dataSources), old(db.agencies), o)
  {
    var qs := db.queries;
    var q := qs[qid];
    db.queries := qs[qid := WithStatus(q, ParsingQuery)];
    trace := [ParsingQuery];
    var parsed := ParsedSearch(q, o);
    if parsed.None? {
      return [], true, trace;
    }
    var sf := parsed.value;
    db.queries := qs[qid := WithStatus(q, ReadingGrants)];
    trace := trace + [ReadingGrants];
    var sel := SelectionOf(sf.linear, db.grants, db.dataSources, db.derived, db.agencies, o);
    db.queries := qs[qid := WithStatus(q, SendingToAi).(samplingFraction := Some(sel.fraction))];
    trace := trace + [SendingToAi];
    var futures := Outcomes(sel.grants, sf.grantQuestion, db.dataSources, db.agencies, o);
    db.queries := qs[qid := Waiting(q, sel)];
    trace := trace + [WaitingForAi];
    results := ReadFutures(futures);
    failed := false;
  }

  /** The result loop: futures are read in submission order; an included verdict is yielded,
      anything else (an exclusion, an exception, a timeout) is skipped and the loop goes on. */
  method ReadFutures(futures: seq<Outcome>) returns (results: seq<(Grant, string)>)
    ensures results == Stream(futures)
  {
    results := [];
    for i := 0 to |futures|
      invariant results == Stream(futures[..i])
    {
      assert futures[..i + 1][..i] == futures[..i];
      match futures[i] {
        case Raised =>
        case Completed(v) =>
          if v.included {
            results := results + [(v.grant, v.reason)];
          }
      }
    }
    assert futures[..|futures|] == futures;
  }
}
