/** grant_search/gmail/parallel_list.py: a Gmail thread search split into month windows, run
    one window per task, and the results gathered window by window. The search of one window
    (exec_with_rate_limit over list_thread_ids_by_query, from grant_search/gmail/api.py) is a
    parameter: it maps a query and a cap to the thread ids, or to None when it raises. */
module ParallelList {
  import opened Wrappers
  import opened Strings

  /** _with_retry: one call, and a second only when the first raises. `attempt(i)` is the
      outcome of call i (None when it raises). The result holds the outcome and the number of
      calls made. */
  function WithRetry<T>(attempt: nat -> Option<T>): (r: (Option<T>, nat))
    ensures 1 <= r.1 <= 2
    ensures r.1 == 2 <==> attempt(0).None?
    ensures r.0.None? <==> attempt(0).None? && attempt(1).None?
    ensures attempt(0).Some? ==> r.0 == attempt(0)
  {
    if attempt(0).Some? then (attempt(0), 1) else (attempt(1), 2)
  }

  /** The first day of a month, written f"{year}/{month}/01". */
  datatype MonthStart = MonthStart(year: nat, month: nat)

  /** One search window: `after:<after> before:<before>`. */
  datatype Window = Window(after: MonthStart, before: MonthStart)

  const FirstYear: nat := 2003
  const LastYear: nat := 2025
  /** The cap passed to each window's search. */
  const WindowCap: nat := 10000

  function NextMonth(m: MonthStart): MonthStart {
    if m.month == 12 then MonthStart(m.year + 1, 1) else MonthStart(m.year, m.month + 1)
  }

  /** Where the window after one ending at `b` ends: the next month, or the next January once
      `b` lies in the future, because the break leaves only the month loop. `inFuture(m)` says
      whether the first of month `m` is later than the current time. */
  function Step(b: MonthStart, inFuture: MonthStart -> bool): MonthStart {
    if inFuture(b) then MonthStart(b.year + 1, 1) else NextMonth(b)
  }

  predicate InRange(m: MonthStart) { FirstYear <= m.year <= LastYear && 1 <= m.month <= 12 }

  /** The windows submitted in order, but for how they end. */
  predicate Chained(ws: seq<Window>, inFuture: MonthStart -> bool) {
    && (|ws| > 0 ==> ws[0] == Window(MonthStart(2003, 1), MonthStart(2003, 2)))
    && (forall k :: 0 <= k < |ws| ==> InRange(ws[k].before))
    && (forall k :: 0 < k < |ws| ==> ws[k].after == ws[k - 1].before)
    && (forall k :: 0 < k < |ws| ==> ws[k].before == Step(ws[k - 1].before, inFuture))
  }

  /** The submitted windows: the first starts at 2003/1/01, each starts where the previous one
      ended and ends one Step later, and the last ends in 2025, in December or in the future. */
  predicate Windows(ws: seq<Window>, inFuture: MonthStart -> bool) {
    && |ws| > 0
    && Chained(ws, inFuture)
    && ws[|ws| - 1].before.year == LastYear
    && (ws[|ws| - 1].before.month == 12 || inFuture(ws[|ws| - 1].before))
  }

  /** The nested year and month loops of list_thread_ids_by_query_in_parallel. 2003/1/01 only
      seeds `after_time`; the break once `after_time` is in the future ends the month loop. */
  method MonthWindows(inFuture: MonthStart -> bool) returns (ws: seq<Window>)
    ensures Windows(ws, inFuture)
  {
    var after: Option<MonthStart> := None;
    ws := [];
    for year := 2003 to 2026
      invariant year == 2003 ==> after.None? && ws == []
      invariant year > 2003 ==> after.Some? && ws != [] && after.value == ws[|ws| - 1].before
      invariant year > 2003 ==> after.value.year == year - 1 && Step(after.value, inFuture) == MonthStart(year, 1)
      invariant Chained(ws, inFuture)
    {
      for month := 1 to 13
        invariant year == 2003 && month == 1 ==> after.None? && ws == []
        invariant year == 2003 && month == 2 ==> after == Some(MonthStart(2003, 1)) && ws == []
        invariant year > 2003 || month > 2 ==> after.Some? && ws != [] && after.value == ws[|ws| - 1].before
        invariant month > 1 ==> after == Some(MonthStart(year, month - 1))
        invariant month > 1 && !(year == 2003 && month == 2) ==> !inFuture(after.value)
        invariant month == 1 && year > 2003 ==> after.Some? && Step(after.value, inFuture) == MonthStart(year, 1)
        invariant Chained(ws, inFuture)
      {
        var before := MonthStart(year, month);
        if after.None? {
          after := Some(before);
        } else {
          ws := ws + [Window(after.value, before)];
          after := Some(before);
          if inFuture(before) {
            break;
          }
        }
      }
    }
  }

  /** A month's position in 2003/1 .. 2025/12. */
  function Index(m: MonthStart): int { (m.year - FirstYear) * 12 + m.month - 1 }

  lemma {:induction false} PrefixAgrees(w1: seq<Window>, w2: seq<Window>, inFuture: MonthStart -> bool, k: nat)
    requires Windows(w1, inFuture) && Windows(w2, inFuture)
    requires k < |w1| && k < |w2|
    ensures w1[k] == w2[k]
  {
    if k > 0 {
      PrefixAgrees(w1, w2, inFuture, k - 1);
    }
  }

  /** The windows are determined by the clock: two runs at one time submit the same ones. */
  lemma WindowsDetermined(w1: seq<Window>, w2: seq<Window>, inFuture: MonthStart -> bool)
    requires Windows(w1, inFuture) && Windows(w2, inFuture)
    ensures w1 == w2
  {
    forall k | 0 <= k < |w1| && k < |w2|
      ensures w1[k] == w2[k]
    {
      PrefixAgrees(w1, w2, inFuture, k);
    }
    if |w1| < |w2| {
      PrefixAgrees(w1, w2, inFuture, |w1| - 1);
      NotLast(w2, inFuture, |w1| - 1);
      assert false;
    } else if |w2| < |w1| {
      PrefixAgrees(w1, w2, inFuture, |w2| - 1);
      NotLast(w1, inFuture, |w2| - 1);
      assert false;
    }
  }

  /** A window followed by another cannot end where the last one must. */
  lemma NotLast(ws: seq<Window>, inFuture: MonthStart -> bool, k: nat)
    requires Chained(ws, inFuture) && k + 1 < |ws|
    ensures ws[k].before.year < LastYear || (ws[k].before.month < 12 && !inFuture(ws[k].before))
  {
    assert InRange(ws[k + 1].before);
    assert ws[k + 1].before == Step(ws[k].before, inFuture);
  }

  /** Each window moves forward: it ends after it starts. */
  lemma WindowsAdvance(ws: seq<Window>, inFuture: MonthStart -> bool, k: nat)
    requires Windows(ws, inFuture) && k < |ws|
    ensures Index(ws[k].after) < Index(ws[k].before)
  {
    if k > 0 {
      var b := ws[k - 1].before;
      assert ws[k].after == b && InRange(b);
      assert ws[k].before == Step(b, inFuture);
    }
  }

  /** Once a window ends in the future before 2025, the next one still runs from there to the
      next January. */
  lemma JanuaryAfterFuture(ws: seq<Window>, inFuture: MonthStart -> bool, k: nat)
    requires Windows(ws, inFuture) && k < |ws|
    requires inFuture(ws[k].before) && ws[k].before.year < LastYear
    ensures k + 1 < |ws|
    ensures ws[k + 1] == Window(ws[k].before, MonthStart(ws[k].before.year + 1, 1))
  {
  }

  lemma {:induction false} ConsecutiveMonths(ws: seq<Window>, inFuture: MonthStart -> bool, k: nat)
    requires Windows(ws, inFuture) && k < |ws|
    requires forall m :: !inFuture(m)
    ensures Index(ws[k].before) == k + 1
  {
    if k > 0 {
      ConsecutiveMonths(ws, inFuture, k - 1);
    }
  }

  /** With no month in the future, every month from 2003/2 to 2025/12 ends one window: 275
      one-month windows. */
  lemma FullHistory(ws: seq<Window>, inFuture: MonthStart -> bool)
    requires Windows(ws, inFuture)
    requires forall m :: !inFuture(m)
    ensures |ws| == 275
    ensures forall k :: 0 <= k < |ws| ==> Index(ws[k].after) == k && Index(ws[k].before) == k + 1
  {
    ConsecutiveMonths(ws, inFuture, |ws| - 1);
    forall k | 0 <= k < |ws|
      ensures Index(ws[k].after) == k && Index(ws[k].before) == k + 1
    {
      ConsecutiveMonths(ws, inFuture, k);
      if k > 0 {
        ConsecutiveMonths(ws, inFuture, k - 1);
      }
    }
  }

  function DateString(m: MonthStart): string {
    DecimalString(m.year) + "/" + DecimalString(m.month) + "/01"
  }

  /** f"{query} after:{after_time} before:{before_time}". */
  function TimeQuery(query: string, w: Window): string {
    query + " after:" + DateString(w.after) + " before:" + DateString(w.before)
  }

  /** Two outcomes one after the other: both lists in order, or None when either raised. */
  function Both(x: Option<seq<string>>, y: Option<seq<string>>): Option<seq<string>> {
    if x.Some? && y.Some? then Some(x.value + y.value) else None
  }

  lemma BothAssociative(x: Option<seq<string>>, y: Option<seq<string>>, z: Option<seq<string>>)
    ensures Both(Both(x, y), z) == Both(x, Both(y, z))
  {
    if x.Some? && y.Some? && z.Some? {
      assert x.value + y.value + z.value == x.value + (y.value + z.value);
    }
  }

  /** The gathered thread ids: the windows' results in submission order; a window whose
      search raises makes the whole call raise. */
  function Gathered(query: string, ws: seq<Window>, search: (string, nat) -> Option<seq<string>>): Option<seq<string>>
    decreases |ws|
  {
    if ws == [] then Some([])
    else Both(Gathered(query, ws[..|ws| - 1], search), search(TimeQuery(query, ws[|ws| - 1]), WindowCap))
  }

  lemma GatheredOne(query: string, w: Window, search: (string, nat) -> Option<seq<string>>)
    ensures Gathered(query, [w], search) == search(TimeQuery(query, w), WindowCap)
  {
    assert [w][..0] == [];
    assert [w][0] == w;
    if search(TimeQuery(query, w), WindowCap).Some? {
      assert [] + search(TimeQuery(query, w), WindowCap).value == search(TimeQuery(query, w), WindowCap).value;
    }
  }

  /** Gathering two runs of windows gives the first run's ids, then the second's. */
  lemma {:induction false} GatheredAppend(query: string, a: seq<Window>, b: seq<Window>, search: (string, nat) -> Option<seq<string>>)
    ensures Gathered(query, a + b, search) == Both(Gathered(query, a, search), Gathered(query, b, search))
    decreases |b|
  {
    if b == [] {
      assert a + b == a;
      if Gathered(query, a, search).Some? {
        assert Gathered(query, a, search).value + [] == Gathered(query, a, search).value;
      }
    } else {
      var init, w := b[..|b| - 1], b[|b| - 1];
      assert (a + b)[..|a + b| - 1] == a + init;
      assert (a + b)[|a + b| - 1] == w;
      GatheredAppend(query, a, init, search);
      BothAssociative(Gathered(query, a, search), Gathered(query, init, search), search(TimeQuery(query, w), WindowCap));
    }
  }

  /** The loop over the futures: each window's result is awaited in submission order. */
  method GatherResults(query: string, ws: seq<Window>, search: (string, nat) -> Option<seq<string>>)
    returns (r: Option<seq<string>>)
    ensures r == Gathered(query, ws, search)
  {
    var results: seq<string> := [];
    for k := 0 to |ws|
      invariant Gathered(query, ws[..k], search) == Some(results)
    {
      assert ws[..k + 1][..k] == ws[..k];
      var ids := search(TimeQuery(query, ws[k]), WindowCap);
      if ids.None? {
        GatheredAppend(query, ws[..k + 1], ws[k + 1..], search);
        assert ws[..k + 1] + ws[k + 1..] == ws;
        return None;
      }
      results := results + ids.value;
    }
    assert ws[..|ws|] == ws;
    r := Some(results);
  }

  /** list_thread_ids_by_query_in_parallel: the windows, then their results in order. */
  method ListInParallel(query: string, inFuture: MonthStart -> bool, search: (string, nat) -> Option<seq<string>>)
    returns (r: Option<seq<string>>, windows: seq<Window>)
    ensures Windows(windows, inFuture)
    ensures r == Gathered(query, windows, search)
  {
    windows := MonthWindows(inFuture);
    r := GatherResults(query, windows, search);
  }
}
