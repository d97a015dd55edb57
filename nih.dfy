/** Paging through the NIH RePORTER search API (grant_search/ingest/nih.py). The HTTP
    responses are inputs, one per request, in order. Dates are day numbers counted from
    1 January of the requested year. */
module Nih {
  import opened Wrappers

  const ApiUrl := "https://api.reporter.nih.gov/v2/projects/search"
  const IntervalDays := 14
  const PageLimit := 500

  /** The request body: criteria window, `limit`, `offset` and, after the first page, `searchId`. */
  datatype Request = Request(fromDay: int, toDay: int, limit: nat, offset: nat, searchId: Option<string>)

  /** `results`, `meta.search_id` and `meta.total` of one response. */
  datatype Response<T> = Response(results: seq<T>, searchId: string, total: int)

  /** Number of results received in the given responses. */
  function Received<T>(rs: seq<Response<T>>): nat {
    if rs == [] then 0 else Received(rs[..|rs| - 1]) + |rs[|rs| - 1].results|
  }

  function Results<T>(rs: seq<Response<T>>): seq<T> {
    if rs == [] then [] else Results(rs[..|rs| - 1]) + rs[|rs| - 1].results
  }

  function RequestFor<T>(fromDay: int, toDay: int, rs: seq<Response<T>>, k: nat): Request
    requires k <= |rs|
  {
    Request(fromDay, toDay, PageLimit, Received(rs[..k]), if k == 0 then None else Some(rs[0].searchId))
  }

  /** The last request's response brought the offset to meta.total. */
  predicate Reached<T>(page: seq<Response<T>>, requests: seq<Request>) {
    0 < |requests| <= |page| && Received(page[..|requests|]) >= page[|requests| - 1].total
  }

  /** The requests paging makes for one window: each carries the offset and search id the
      earlier responses call for, every response but the last left the offset below the
      total, and paging stops only at the total or when the responses run out. */
  predicate Paged<T>(fromDay: int, toDay: int, page: seq<Response<T>>, requests: seq<Request>) {
    && |requests| <= |page|
    && (forall k :: 0 <= k < |requests| ==> requests[k] == RequestFor(fromDay, toDay, page, k))
    && (forall k :: 0 <= k < |requests| - 1 ==> Received(page[..k + 1]) < page[k].total)
    && (!Reached(page, requests) ==> |requests| == |page|)
  }

  /** The paging rule leaves no choice: the responses determine the requests. */
  lemma PagedUnique<T>(fromDay: int, toDay: int, page: seq<Response<T>>, r1: seq<Request>, r2: seq<Request>)
    requires Paged(fromDay, toDay, page, r1) && Paged(fromDay, toDay, page, r2)
    ensures r1 == r2
  {
  }

  /** _get_nih_grants_from: request pages until the offset reaches meta.total. `done` is false
      when the responses run out first. */
  method GetGrantsFrom<T>(fromDay: int, toDay: int, responses: seq<Response<T>>)
    returns (requests: seq<Request>, grants: seq<T>, done: bool)
    ensures Paged(fromDay, toDay, responses, requests)
    ensures done <==> Reached(responses, requests)
    ensures grants == Results(responses[..|requests|])
  {
    var startIndex: nat := 0;
    var searchId: Option<string> := None;
    requests, grants, done := [], [], false;
    var k := 0;
    while k < |responses|
      invariant 0 <= k <= |responses| && |requests| == k
      invariant startIndex == Received(responses[..k])
      invariant searchId == if k == 0 then None else Some(responses[0].searchId)
      invariant forall j :: 0 <= j < k ==> requests[j] == RequestFor(fromDay, toDay, responses, j)
      invariant BelowTotal(responses, k)
      invariant grants == Results(responses[..k])
      invariant !done
    {
      var request := Request(fromDay, toDay, PageLimit, startIndex, searchId);
      requests := requests + [request];
      var content := responses[k];
      grants := grants + content.results;
      if searchId.None? {
        searchId := Some(content.searchId);
      }
      startIndex := startIndex + |content.results|;
      ReceivedStep(responses, k);
      RequestsStep(fromDay, toDay, responses, requests, k);
      if startIndex >= content.total {
        done := true;
        PagedWhenReached(fromDay, toDay, responses, requests);
        return;
      }
      BelowStep(responses, k);
      k := k + 1;
    }
    PagedWhenRunOut(fromDay, toDay, responses, requests);
  }

  /** Every response before position k left the offset below the total. */
  ghost predicate BelowTotal<T>(responses: seq<Response<T>>, k: nat) {
    k <= |responses| && forall j :: 0 <= j < k ==> Received(responses[..j + 1]) < responses[j].total
  }

  lemma BelowStep<T>(responses: seq<Response<T>>, k: nat)
    requires k < |responses| && BelowTotal(responses, k) && Received(responses[..k + 1]) < responses[k].total
    ensures BelowTotal(responses, k + 1)
  {
  }

  /** Paging that stops at the total followed the rule. */
  lemma PagedWhenReached<T>(fromDay: int, toDay: int, responses: seq<Response<T>>, requests: seq<Request>)
    requires 0 < |requests| <= |responses| && BelowTotal(responses, |requests| - 1)
    requires forall j :: 0 <= j < |requests| ==> requests[j] == RequestFor(fromDay, toDay, responses, j)
    requires Received(responses[..|requests|]) >= responses[|requests| - 1].total
    ensures Paged(fromDay, toDay, responses, requests) && Reached(responses, requests)
  {
  }

  /** Paging that used up the responses below the total followed the rule. */
  lemma PagedWhenRunOut<T>(fromDay: int, toDay: int, responses: seq<Response<T>>, requests: seq<Request>)
    requires |requests| == |responses| && BelowTotal(responses, |requests|)
    requires forall j :: 0 <= j < |requests| ==> requests[j] == RequestFor(fromDay, toDay, responses, j)
    ensures Paged(fromDay, toDay, responses, requests) && !Reached(responses, requests)
  {
    if |requests| > 0 {
      assert Received(responses[..|requests| - 1 + 1]) < responses[|requests| - 1].total;
    }
  }

  /** Appending the k-th request keeps every request the one its predecessors' results call for. */
  lemma RequestsStep<T>(fromDay: int, toDay: int, rs: seq<Response<T>>, requests: seq<Request>, k: nat)
    requires k < |rs| && |requests| == k + 1
    requires forall j :: 0 <= j < k ==> requests[j] == RequestFor(fromDay, toDay, rs, j)
    requires requests[k] == Request(fromDay, toDay, PageLimit, Received(rs[..k]), if k == 0 then None else Some(rs[0].searchId))
    ensures forall j :: 0 <= j <= k ==> requests[j] == RequestFor(fromDay, toDay, rs, j)
  {
  }

  lemma ReceivedStep<T>(rs: seq<Response<T>>, k: nat)
    requires k < |rs|
    ensures Received(rs[..k + 1]) == Received(rs[..k]) + |rs[k].results|
    ensures Results(rs[..k + 1]) == Results(rs[..k]) + rs[k].results
  {
    assert rs[..k + 1][..k] == rs[..k];
  }

  /** An empty page below the total makes the next request repeat the same offset. */
  lemma EmptyPageRepeatsOffset<T>(fromDay: int, toDay: int, rs: seq<Response<T>>, k: nat)
    requires k + 1 <= |rs| && rs[k].results == []
    ensures RequestFor(fromDay, toDay, rs, k + 1).offset == RequestFor(fromDay, toDay, rs, k).offset
  {
    ReceivedStep(rs, k);
  }

  predicate IsLeap(year: int) {
    (year % 4 == 0 && year % 100 != 0) || year % 400 == 0
  }

  /** Day number of 31 December. */
  function LastDay(year: int): int { if IsLeap(year) then 365 else 364 }

  /** get_nih_grants_by_year: windows of 14 days from 1 January, the last one clipped to
      31 December, while the start is before 31 December. */
  method YearWindows(year: int) returns (ws: seq<(int, int)>)
    ensures |ws| == (LastDay(year) + IntervalDays - 1) / IntervalDays
    ensures forall k :: 0 <= k < |ws| ==> ws[k] == (IntervalDays * k, Min(IntervalDays * k + IntervalDays, LastDay(year)))
    ensures ws[0].0 == 0 && ws[|ws| - 1].1 == LastDay(year)
    ensures forall k :: 0 <= k < |ws| - 1 ==> ws[k].1 == ws[k + 1].0
  {
    var endDate := LastDay(year);
    var startDate := 0;
    ws := [];
    while startDate < endDate
      invariant startDate == IntervalDays * |ws| && startDate <= endDate + IntervalDays - 1
      invariant forall k :: 0 <= k < |ws| ==> ws[k] == (IntervalDays * k, Min(IntervalDays * k + IntervalDays, endDate))
      decreases endDate - startDate
    {
      var nextDate := startDate + IntervalDays;
      ws := ws + [(startDate, Min(nextDate, endDate))];
      startDate := nextDate;
    }
  }

  function NumWindows(year: int): nat { (LastDay(year) + IntervalDays - 1) / IntervalDays }

  function Flatten<T>(xs: seq<seq<T>>): seq<T> {
    if xs == [] then [] else Flatten(xs[..|xs| - 1]) + xs[|xs| - 1]
  }

  /** The results each window consumed: the first |sent[w]| responses of window w. */
  function Consumed<T>(pages: seq<seq<Response<T>>>, sent: seq<seq<Request>>): seq<seq<T>>
    requires |sent| <= |pages| && forall w :: 0 <= w < |sent| ==> |sent[w]| <= |pages[w]|
  {
    seq(|sent|, w requires 0 <= w < |sent| => Results(pages[w][..|sent[w]|]))
  }

  lemma ConsumedAppend<T>(pages: seq<seq<Response<T>>>, sent: seq<seq<Request>>, requests: seq<Request>)
    requires |sent| < |pages| && forall w :: 0 <= w < |sent| ==> |sent[w]| <= |pages[w]|
    requires |requests| <= |pages[|sent|]|
    ensures Flatten(Consumed(pages, sent + [requests]))
         == Flatten(Consumed(pages, sent)) + Results(pages[|sent|][..|requests|])
  {
    var s' := sent + [requests];
    assert forall w :: 0 <= w < |sent| ==> s'[w] == sent[w];
    assert Consumed(pages, s')[..|sent|] == Consumed(pages, sent);
  }

  /** The requests of window w are those _get_nih_grants_from makes for it. */
  predicate WindowRequests<T>(year: int, w: nat, page: seq<Response<T>>, requests: seq<Request>) {
    Paged(IntervalDays * w, Min(IntervalDays * w + IntervalDays, LastDay(year)), page, requests)
  }

  /** Each of the windows so far was paged by the rule. */
  ghost predicate WindowsPaged<T>(year: int, pages: seq<seq<Response<T>>>, sent: seq<seq<Request>>) {
    && |sent| <= |pages|
    && forall w :: 0 <= w < |sent| ==> |sent[w]| <= |pages[w]| && WindowRequests(year, w, pages[w], sent[w])
  }

  /** Every window before the last reached its total. */
  ghost predicate EarlierReached<T>(pages: seq<seq<Response<T>>>, sent: seq<seq<Request>>) {
    |sent| <= |pages| && forall w :: 0 <= w < |sent| - 1 ==> Reached(pages[w], sent[w])
  }

  /** Every window so far reached its total. */
  ghost predicate AllReached<T>(pages: seq<seq<Response<T>>>, sent: seq<seq<Request>>) {
    |sent| <= |pages| && forall w :: 0 <= w < |sent| ==> Reached(pages[w], sent[w])
  }

  lemma PagedStep<T>(year: int, pages: seq<seq<Response<T>>>, sent: seq<seq<Request>>, requests: seq<Request>)
    requires WindowsPaged(year, pages, sent) && |sent| < |pages| && AllReached(pages, sent)
    requires WindowRequests(year, |sent|, pages[|sent|], requests)
    ensures WindowsPaged(year, pages, sent + [requests])
    ensures EarlierReached(pages, sent + [requests])
    ensures Reached(pages[|sent|], requests) ==> AllReached(pages, sent + [requests])
  {
    var s' := sent + [requests];
    assert forall w :: 0 <= w < |sent| ==> s'[w] == sent[w];
  }

  /** All records of one year: the windows' pages, in window order. `pages[w]` answers the
      requests of window w; `sent[w]` are the requests made for it. Every window is paged to
      its total before the next starts; `None` when a window's responses run out first, and
      otherwise every window's results, in order. */
  method GrantsByYear<T>(year: int, pages: seq<seq<Response<T>>>)
    returns (sent: seq<seq<Request>>, grants: Option<seq<T>>)
    requires |pages| == NumWindows(year)
    ensures 0 < |sent| && WindowsPaged(year, pages, sent) && EarlierReached(pages, sent)
    ensures grants.None? <==> !Reached(pages[|sent| - 1], sent[|sent| - 1])
    ensures grants.None? ==> |sent[|sent| - 1]| == |pages[|sent| - 1]|
    ensures grants.Some? ==> |sent| == |pages| && grants.value == Flatten(Consumed(pages, sent))
  {
    var ws := YearWindows(year);
    var all: seq<T> := [];
    sent := [];
    var stopped := false;
    while |sent| < |ws| && !stopped
      invariant |sent| <= |ws| && WindowsPaged(year, pages, sent)
      invariant stopped ==> 0 < |sent| && EarlierReached(pages, sent) && !Reached(pages[|sent| - 1], sent[|sent| - 1])
                            && |sent[|sent| - 1]| == |pages[|sent| - 1]|
      invariant !stopped ==> AllReached(pages, sent)
      invariant all == Flatten(Consumed(pages, sent))
      decreases |ws| - |sent|, if stopped then 0 else 1
    {
      var w := |sent|;
      var lo, hi := ws[w].0, ws[w].1;
      assert lo == IntervalDays * w && hi == Min(IntervalDays * w + IntervalDays, LastDay(year));
      var requests, got, done := GetGrantsFrom(lo, hi, pages[w]);
      ConsumedAppend(pages, sent, requests);
      PagedStep(year, pages, sent, requests);
      sent := sent + [requests];
      all := all + got;
      stopped := !done;
    }
    if stopped {
      grants := None;
    } else {
      assert Reached(pages[|sent| - 1], sent[|sent| - 1]);
      grants := Some(all);
    }
  }
}
