/** The Gmail call policy of cleanmail: a bounded retry loop behind one shared rate-limit
    date, pagination with truncation, order-preserving message resolution, the fold over
    history records, and label lookup. Every Gmail request is an oracle: a sequence or
    function of outcomes that the caller supplies. Times are milliseconds. */
module GmailApi {
  import opened Wrappers
  import opened Strings

  /** What one invocation of a Gmail request gives: a value, or an HttpError with its status. */
  datatype CallOutcome<T> = Ok(value: T) | HttpError(status: int)

  /** What `exec_with_rate_limit` gives back: the value, None after a 400, or the re-raised error. */
  datatype ExecResult<T> = Returned(value: T) | BadRequest | Raised(status: int)

  const MaxAttempts: nat := 5
  const RateLimitStatus: int := 403
  const BadRequestStatus: int := 400
  /** `random.random()` seconds of jitter: strictly under one second. */
  const JitterBound: nat := 1000

  /** The wait after a 403 on attempt i (counting from 0): (i + 3) * 10 seconds. */
  function Backoff(i: nat): (ms: nat)
    ensures 30000 <= ms
    ensures i < MaxAttempts - 1 ==> ms <= 60000
  {
    (i + 3) * 10000
  }

  /** Result and number of invocations of the retry loop from attempt i on, where
      attempt(j) is the outcome of the j-th invocation. */
  function ExecFrom<T>(attempt: nat -> CallOutcome<T>, i: nat): (r: (ExecResult<T>, nat))
    requires i < MaxAttempts
    ensures i < r.1 <= MaxAttempts
    decreases MaxAttempts - i
  {
    match attempt(i)
    case Ok(v) => (Returned(v), i + 1)
    case HttpError(s) =>
      if s == RateLimitStatus && i < MaxAttempts - 1 then ExecFrom(attempt, i + 1)
      else if s == BadRequestStatus then (BadRequest, i + 1)
      else (Raised(s), i + 1)
  }

  /** A rate-limited attempt before the last one hands over to the next attempt. */
  lemma ExecFromRetry<T>(attempt: nat -> CallOutcome<T>, i: nat)
    requires i < MaxAttempts - 1 && attempt(i).HttpError? && attempt(i).status == RateLimitStatus
    ensures ExecFrom(attempt, i) == ExecFrom(attempt, i + 1)
  {
  }

  /** Every invocation but the last was rate limited, and the last decides: its value is
      returned, a 400 gives None, and any other error (a 403 only on the fifth attempt) is
      raised. */
  lemma {:induction false} ExecFromMeaning<T>(attempt: nat -> CallOutcome<T>, i: nat)
    requires i < MaxAttempts
    ensures var (r, n) := ExecFrom(attempt, i);
      (forall j :: i <= j < n - 1 ==> attempt(j) == HttpError(RateLimitStatus))
      && (r.Returned? <==> attempt(n - 1).Ok?)
      && (r.Returned? ==> r.value == attempt(n - 1).value)
      && (r.BadRequest? <==> attempt(n - 1) == HttpError(BadRequestStatus))
      && (r.Raised? ==> attempt(n - 1) == HttpError(r.status) && r.status != BadRequestStatus)
      && (r == Raised(RateLimitStatus) ==> n == MaxAttempts)
    decreases MaxAttempts - i
  {
    if attempt(i) == HttpError(RateLimitStatus) && i < MaxAttempts - 1 {
      ExecFromMeaning(attempt, i + 1);
    }
  }

  /** A request that is rate limited five times in a row is given up: the fifth 403 is raised. */
  lemma {:induction false} AlwaysLimited<T>(attempt: nat -> CallOutcome<T>, i: nat)
    requires i < MaxAttempts
    requires forall j :: i <= j < MaxAttempts ==> attempt(j) == HttpError(RateLimitStatus)
    ensures ExecFrom(attempt, i) == (Raised(RateLimitStatus), MaxAttempts)
    decreases MaxAttempts - i
  {
    if i < MaxAttempts - 1 {
      AlwaysLimited(attempt, i + 1);
    }
  }

  /** The call is only retried after a 403: any other first outcome ends the loop at once. */
  lemma OnlyRateLimitRetries<T>(attempt: nat -> CallOutcome<T>)
    requires attempt(0) != HttpError(RateLimitStatus)
    ensures ExecFrom(attempt, 0).1 == 1
  {
  }

  /** One invocation the retry loop made: the clock when it was made and the rate-limit
      date in force at that moment. */
  datatype Call = Call(at: int, notBefore: int)

  /** The clock discipline of the invocations one `Exec` made, starting at clock t0 under the
      rate-limit date l0 (jitter(j) and elapsed(j) are the sleep jitter before, and the
      duration of, invocation j). */
  ghost predicate Paced(cs: seq<Call>, t0: int, l0: int, jitter: nat -> nat, elapsed: nat -> nat)
    decreases |cs|
  {
    cs == [] || (Paced(cs[..|cs| - 1], t0, l0, jitter, elapsed) && PacedLast(cs, t0, l0, jitter, elapsed))
  }

  /** The last invocation of cs waited as the loop makes it wait. */
  ghost predicate PacedLast(cs: seq<Call>, t0: int, l0: int, jitter: nat -> nat, elapsed: nat -> nat)
    requires cs != []
  {
    var j := |cs| - 1;
    if j == 0 then cs[0].notBefore == l0 && cs[0].at == (if t0 < l0 then l0 + jitter(0) else t0)
    else cs[j].notBefore == cs[j - 1].at + elapsed(j - 1) + Backoff(j - 1) && cs[j].at == cs[j].notBefore + jitter(j)
  }

  /** A paced sequence stays paced when its next invocation waits as the loop makes it wait. */
  lemma PacedStep(cs: seq<Call>, c: Call, t0: int, l0: int, jitter: nat -> nat, elapsed: nat -> nat)
    requires Paced(cs, t0, l0, jitter, elapsed)
    requires PacedLast(cs + [c], t0, l0, jitter, elapsed)
    ensures Paced(cs + [c], t0, l0, jitter, elapsed)
  {
    assert (cs + [c])[..|cs|] == cs;
  }

  /** The state of the retry loop after i invocations `cs`: the clock and the rate-limit date
      are those the last invocation left, or the starting ones before the first. */
  ghost predicate Progress(cs: seq<Call>, i: nat, now: int, limit: int, t0: int, l0: int,
                           jitter: nat -> nat, elapsed: nat -> nat) {
    && |cs| == i && Paced(cs, t0, l0, jitter, elapsed)
    && (i == 0 ==> now == t0 && limit == l0)
    && (i > 0 ==> now == cs[i - 1].at + elapsed(i - 1) && limit == now + Backoff(i - 1))
  }

  /** One more invocation, made as Invoke makes it, keeps the calls paced; the clock is then
      past it, and its rate-limit date is the one in force. */
  lemma ProgressStep(cs: seq<Call>, i: nat, c: Call, took: nat, t0: int, l0: int,
                     jitter: nat -> nat, elapsed: nat -> nat)
    requires exists now, limit :: Progress(cs, i, now, limit, t0, l0, jitter, elapsed)
              && c == Call(if now < limit then limit + jitter(i) else now, limit)
    requires took == elapsed(i)
    ensures Paced(cs + [c], t0, l0, jitter, elapsed)
    ensures (cs + [c])[i] == c
    ensures Progress(cs + [c], i + 1, c.at + took, c.at + took + Backoff(i), t0, l0, jitter, elapsed)
  {
    var now, limit :| Progress(cs, i, now, limit, t0, l0, jitter, elapsed)
      && c == Call(if now < limit then limit + jitter(i) else now, limit);
    PacedStep(cs, c, t0, l0, jitter, elapsed);
  }

  /** A concatenation splits back into its parts. */
  lemma AppendParts<T>(a: seq<T>, b: seq<T>)
    ensures (a + b)[..|a|] == a && (a + b)[|a|..] == b
  {
  }

  /** The pacing of an invocation, read off a paced sequence. */
  lemma {:induction false} PacedAt(cs: seq<Call>, t0: int, l0: int, jitter: nat -> nat, elapsed: nat -> nat, j: nat)
    requires Paced(cs, t0, l0, jitter, elapsed) && j < |cs|
    ensures PacedLast(cs[..j + 1], t0, l0, jitter, elapsed)
    decreases |cs|
  {
    if j < |cs| - 1 {
      PacedAt(cs[..|cs| - 1], t0, l0, jitter, elapsed, j);
      assert cs[..|cs| - 1][..j + 1] == cs[..j + 1];
    } else {
      assert cs[..j + 1] == cs;
    }
  }

  /** No invocation is made before the rate-limit date in force; one that had to wait starts
      less than a second after it; and after a 403 the next invocation waits at least the
      backoff, and less than a second more, after the failed one returned. */
  lemma PacedRespectsLimit(cs: seq<Call>, t0: int, l0: int, jitter: nat -> nat, elapsed: nat -> nat)
    requires forall i :: jitter(i) < JitterBound
    requires Paced(cs, t0, l0, jitter, elapsed)
    ensures forall j :: 0 <= j < |cs| ==> cs[j].notBefore <= cs[j].at
    ensures forall j :: 1 <= j < |cs| ==> cs[j].at < cs[j].notBefore + JitterBound
    ensures forall j :: 1 <= j < |cs| ==>
              Backoff(j - 1) <= cs[j].at - (cs[j - 1].at + elapsed(j - 1)) < Backoff(j - 1) + JitterBound
  {
    forall j | 0 <= j < |cs|
      ensures cs[j].notBefore <= cs[j].at
      ensures j >= 1 ==> cs[j].at < cs[j].notBefore + JitterBound
      ensures j >= 1 ==> Backoff(j - 1) <= cs[j].at - (cs[j - 1].at + elapsed(j - 1)) < Backoff(j - 1) + JitterBound
    {
      PacedAt(cs, t0, l0, jitter, elapsed, j);
      var p := cs[..j + 1];
      assert p[j] == cs[j];
      if j > 0 {
        assert p[j - 1] == cs[j - 1];
        assert jitter(j) < JitterBound;
      }
    }
  }

  /** The process-wide `rate_limit_date` together with an abstract clock. `issued` records
      every invocation made through the limiter. */
  class RateLimiter {
    var rateLimitDate: int
    var now: int
    var issued: seq<Call>

    /** At import time the rate-limit date is the current time. */
    constructor (start: int)
      ensures rateLimitDate == start && now == start && issued == []
    {
      rateLimitDate := start;
      now := start;
      issued := [];
    }

    /** `exec_with_rate_limit`: up to five invocations; before each it sleeps past the
        rate-limit date (plus jitter) when that date lies ahead; a 403 on attempts 0..3 moves
        the date (i + 3) * 10 s past the current time and retries. */
    method Exec<T>(attempt: nat -> CallOutcome<T>, jitter: nat -> nat, elapsed: nat -> nat)
      returns (r: ExecResult<T>, calls: nat)
      requires forall i :: jitter(i) < JitterBound
      modifies this
      ensures (r, calls) == ExecFrom(attempt, 0)
      ensures |issued| == |old(issued)| + calls && issued[..|old(issued)|] == old(issued)
      ensures Paced(issued[|old(issued)|..], old(now), old(rateLimitDate), jitter, elapsed)
      ensures now == issued[|issued| - 1].at + elapsed(calls - 1)
      ensures rateLimitDate == if calls == 1 then old(rateLimitDate) else issued[|issued| - 1].notBefore
    {
      var i: nat := 0;
      ghost var mine: seq<Call> := [];
      while true
        invariant i < MaxAttempts
        invariant ExecFrom(attempt, 0) == ExecFrom(attempt, i)
        invariant issued == old(issued) + mine
        invariant Progress(mine, i, now, rateLimitDate, old(now), old(rateLimitDate), jitter, elapsed)
        decreases MaxAttempts - i
      {
        ghost var before := issued;
        var took := elapsed(i);
        var c := Invoke(jitter(i), took);
        ProgressStep(mine, i, c, took, old(now), old(rateLimitDate), jitter, elapsed);
        assert issued == old(issued) + (mine + [c]) by {
          assert before + [c] == old(issued) + (mine + [c]);
        }
        mine := mine + [c];
        var o := attempt(i);
        if o.HttpError? && o.status == RateLimitStatus && i < MaxAttempts - 1 {
          rateLimitDate := now + Backoff(i);
          ExecFromRetry(attempt, i);
          i := i + 1;
        } else {
          r := match o
            case Ok(v) => Returned(v)
            case HttpError(s) => if s == BadRequestStatus then BadRequest else Raised(s);
          calls := i + 1;
          AppendParts(old(issued), mine);
          return;
        }
      }
    }

    /** One invocation: sleep past the rate-limit date when it lies ahead, then the call,
        which takes `took` ms. */
    method Invoke(jitter: nat, took: nat) returns (c: Call)
      modifies this`issued, this`now
      ensures c == Call(if old(now) < rateLimitDate then rateLimitDate + jitter else old(now), rateLimitDate)
      ensures issued == old(issued) + [c]
      ensures now == c.at + took
    {
      var at := now;
      if now < rateLimitDate {
        at := rateLimitDate + jitter;
      }
      c := Call(at, rateLimitDate);
      issued := issued + [c];
      now := at + took;
    }
  }

  // ---------------------------------------------------------------------------------------
  // Pagination

  /** One page of a listing: its items and whether it carried a `nextPageToken`. */
  datatype Page<T> = Page(items: seq<T>, more: bool)

  /** The two invocations `page_all_items` may make for one page: the first, and the retry
      made only when the first raised HttpError (None: that invocation raised). */
  datatype PageCall<T> = PageCall(first: Option<Page<T>>, retry: Option<Page<T>>)

  /** The page obtained for request i, or None when both invocations raised. The listing is
      finite: requests past the given ones see an empty last page. */
  function Served<T>(calls: seq<PageCall<T>>, i: nat): (r: Option<Page<T>>)
    ensures i >= |calls| ==> r == Some(Page([], false))
    ensures i < |calls| && calls[i].first.Some? ==> r == calls[i].first
    ensures i < |calls| && calls[i].first.None? ==> r == calls[i].retry
  {
    if i >= |calls| then Some(Page([], false))
    else if calls[i].first.Some? then calls[i].first
    else calls[i].retry
  }

  /** The items of the first k pages, concatenated (a page that raised contributes nothing). */
  function ServedItems<T>(calls: seq<PageCall<T>>, k: nat): seq<T> {
    if k == 0 then []
    else ServedItems(calls, k - 1) + Served(calls, k - 1).GetOr(Page([], false)).items
  }

  /** The loop of `page_all_items` from request i with `items` gathered so far: it continues
      while fewer than max_items are held and the last page carried a token. */
  function Fetch<T>(calls: seq<PageCall<T>>, max: Option<nat>, i: nat, items: seq<T>): Option<seq<T>>
    decreases |calls| - i
  {
    if max.Some? && |items| >= max.value then Some(items)
    else match Served(calls, i)
      case None => None
      case Some(p) =>
        if !p.more then Some(items + p.items)
        else Fetch(calls, max, i + 1, items + p.items)
  }

  /** `items[0:max_items]` when max_items is truthy; 0 and None keep everything. */
  function Truncate<T>(items: seq<T>, max: Option<nat>): (r: seq<T>)
    ensures max.Some? && max.value > 0 ==> r == items[..Min(max.value, |items|)]
    ensures max.None? || max.value == 0 ==> r == items
  {
    if max.Some? && max.value > 0 && |items| > max.value then items[..max.value] else items
  }

  /** `page_all_items`: None when some page raised on both invocations. */
  function PageAllItems<T>(calls: seq<PageCall<T>>, max: Option<nat>): Option<seq<T>> {
    match Fetch(calls, max, 0, [])
    case None => None
    case Some(items) => Some(Truncate(items, max))
  }

  /** Never more than max_items items are returned, and max_items 0 makes no request. */
  lemma PageAllBounded<T>(calls: seq<PageCall<T>>, max: Option<nat>)
    ensures max.Some? && PageAllItems(calls, max).Some? ==> |PageAllItems(calls, max).value| <= max.value
    ensures max == Some(0) ==> PageAllItems(calls, max) == Some([])
  {
  }

  /** Requests i..k continue (each page arrived, carried a token, and the items before it
      were under the limit) until request k, which arrives or raises: `Fetch` from i ends
      exactly as request k decides. */
  lemma {:induction false} FetchFrom<T>(calls: seq<PageCall<T>>, max: Option<nat>, i: nat, k: nat)
    requires i <= k
    requires forall j :: i <= j < k ==> Served(calls, j).Some? && Served(calls, j).value.more
    requires forall j :: i <= j <= k ==> max.None? || |ServedItems(calls, j)| < max.value
    ensures Served(calls, k).None? ==> Fetch(calls, max, i, ServedItems(calls, i)) == None
    ensures Served(calls, k).Some? && (!Served(calls, k).value.more
                                       || (max.Some? && |ServedItems(calls, k + 1)| >= max.value))
            ==> Fetch(calls, max, i, ServedItems(calls, i)) == Some(ServedItems(calls, k + 1))
    decreases k - i
  {
    if i < k {
      FetchFrom(calls, max, i + 1, k);
      assert ServedItems(calls, i + 1) == ServedItems(calls, i) + Served(calls, i).value.items;
    } else if Served(calls, k).Some? && Served(calls, k).value.more {
      var next := ServedItems(calls, k) + Served(calls, k).value.items;
      assert ServedItems(calls, k + 1) == next;
    }
  }

  /** What `page_all_items` returns, page by page: if requests before k all continued, then
      a request k that raised twice makes the whole listing raise; one that ends the listing
      or reaches max_items gives the concatenated items, cut to max_items. */
  lemma PageAllStops<T>(calls: seq<PageCall<T>>, max: Option<nat>, k: nat)
    requires forall j :: 0 <= j < k ==> Served(calls, j).Some? && Served(calls, j).value.more
    requires forall j :: 0 <= j <= k ==> max.None? || |ServedItems(calls, j)| < max.value
    ensures Served(calls, k).None? ==> PageAllItems(calls, max) == None
    ensures Served(calls, k).Some? && !Served(calls, k).value.more
            ==> PageAllItems(calls, max) == Some(Truncate(ServedItems(calls, k + 1), max))
    ensures Served(calls, k).Some? && max.Some? && |ServedItems(calls, k + 1)| >= max.value
            ==> (PageAllItems(calls, max) == Some(ServedItems(calls, k + 1)[..max.value])
                 && |PageAllItems(calls, max).value| == max.value)
  {
    FetchFrom(calls, max, 0, k);
  }

  /** `page_all_items` as the loop it is. */
  method PageAll<T>(calls: seq<PageCall<T>>, max: Option<nat>) returns (r: Option<seq<T>>)
    ensures r == PageAllItems(calls, max)
  {
    var items: seq<T> := [];
    var i: nat := 0;
    while max.None? || |items| < max.value
      invariant i <= |calls|
      invariant Fetch(calls, max, i, items) == Fetch(calls, max, 0, [])
      decreases |calls| - i
    {
      var call := if i < |calls| then calls[i] else PageCall(Some(Page([], false)), None);
      var page: Page<T>;
      if call.first.Some? {
        page := call.first.value;
      } else if call.retry.Some? {
        page := call.retry.value;
      } else {
        return None;
      }
      items := items + page.items;
      if !page.more {
        assert Fetch(calls, max, 0, []) == Some(items);
        break;
      }
      i := i + 1;
    }
    r := Some(Truncate(items, max));
  }

  // ---------------------------------------------------------------------------------------
  // Message resolution

  /** What fetching one message gives: the message, nothing, or a raised HttpError. */
  datatype Fetched<M> = Message(msg: M) | NoMessage | FetchFailed(status: int)

  /** `dict(results)`: the fetched messages by id; the first failure in input order is raised. */
  function FetchAll<M>(ids: seq<string>, fetch: string -> Fetched<M>): (r: Result<map<string, M>, int>)
    ensures r.Success? ==> forall id :: id in r.value <==> id in ids && fetch(id).Message?
    ensures r.Success? ==> forall id :: id in r.value ==> r.value[id] == fetch(id).msg
    ensures r.Failure? ==> exists j :: 0 <= j < |ids| && fetch(ids[j]) == FetchFailed(r.error)
  {
    if ids == [] then Success(map[])
    else
      var last := ids[|ids| - 1];
      match FetchAll(ids[..|ids| - 1], fetch)
      case Failure(e) => Failure(e)
      case Success(m) =>
        match fetch(last)
        case FetchFailed(s) => Failure(s)
        case NoMessage => Success(m)
        case Message(msg) => Success(m[last := msg])
  }

  function Keys<M>(entries: seq<(string, M)>): seq<string> {
    seq(|entries|, i requires 0 <= i < |entries| => entries[i].0)
  }

  /** Index of the first occurrence of x in s. */
  function IndexOf(s: seq<string>, x: string): (r: nat)
    requires x in s
    ensures r < |s| && s[r] == x && x !in s[..r]
  {
    if s[0] == x then 0 else assert s == [s[0]] + s[1..]; 1 + IndexOf(s[1..], x)
  }

  /** The second loop of `list_messages_by_message_id`: entries inserted in input order into
      a dict, so a repeated id keeps its first position. */
  function InOrder<M>(ids: seq<string>, byId: map<string, M>): seq<(string, M)> {
    if ids == [] then []
    else
      var rest := InOrder(ids[..|ids| - 1], byId);
      var id := ids[|ids| - 1];
      if id in byId && id !in Keys(rest) then rest + [(id, byId[id])] else rest
  }

  /** The ordered dict holds each resolved id once, with its message. */
  lemma {:induction false} InOrderKeys<M>(ids: seq<string>, byId: map<string, M>)
    ensures forall i, j :: 0 <= i < j < |InOrder(ids, byId)| ==> InOrder(ids, byId)[i].0 != InOrder(ids, byId)[j].0
    ensures forall id :: id in Keys(InOrder(ids, byId)) <==> id in ids && id in byId
    ensures forall e :: e in InOrder(ids, byId) ==> e.0 in ids && e.0 in byId && e.1 == byId[e.0]
  {
    if ids != [] {
      var pre := ids[..|ids| - 1];
      var id := ids[|ids| - 1];
      var rest := InOrder(pre, byId);
      InOrderKeys(pre, byId);
      assert ids == pre + [id];
      if id in byId && id !in Keys(rest) {
        var r := rest + [(id, byId[id])];
        assert Keys(r) == Keys(rest) + [id];
        forall i | 0 <= i < |rest| ensures rest[i].0 != id {
          assert Keys(rest)[i] == rest[i].0;
        }
      } else {
        assert id in byId ==> id in Keys(rest);
      }
    }
  }

  /** Every key of es occurs in s, and the keys come in the order of their first occurrence. */
  ghost predicate OrderedBy<M>(s: seq<string>, es: seq<(string, M)>) {
    (forall i :: 0 <= i < |es| ==> es[i].0 in s)
    && forall i, j :: 0 <= i < j < |es| ==> IndexOf(s, es[i].0) < IndexOf(s, es[j].0)
  }

  /** The entries are ordered by the first appearance of their ids in the input. */
  lemma {:induction false} InOrderOrdered<M>(ids: seq<string>, byId: map<string, M>)
    ensures OrderedBy(ids, InOrder(ids, byId))
  {
    if ids != [] {
      var pre := ids[..|ids| - 1];
      var id := ids[|ids| - 1];
      var rest := InOrder(pre, byId);
      InOrderOrdered(pre, byId);
      assert ids == pre + [id];
      OrderedExtend(pre, id, rest);
      if id in byId && id !in Keys(rest) {
        InOrderKeys(pre, byId);
        OrderedAppendNew(pre, id, rest, byId[id]);
      }
    }
  }

  lemma OrderedExtend<M>(pre: seq<string>, id: string, es: seq<(string, M)>)
    requires OrderedBy(pre, es)
    ensures OrderedBy(pre + [id], es)
  {
    forall i | 0 <= i < |es| ensures IndexOf(pre + [id], es[i].0) == IndexOf(pre, es[i].0) {
      IndexPrefix(pre, id, es[i].0);
    }
  }

  lemma OrderedAppendNew<M>(pre: seq<string>, id: string, es: seq<(string, M)>, v: M)
    requires OrderedBy(pre + [id], es) && OrderedBy(pre, es) && id !in pre
    ensures OrderedBy(pre + [id], es + [(id, v)])
  {
    var ids := pre + [id];
    assert IndexOf(ids, id) == |pre| by {
      assert ids[|pre|] == id && ids[..|pre|] == pre;
      IndexUnique(ids, id, |pre|);
    }
    forall i | 0 <= i < |es| ensures IndexOf(ids, es[i].0) < |pre| {
      IndexPrefix(pre, id, es[i].0);
    }
  }

  lemma IndexPrefix(pre: seq<string>, last: string, x: string)
    requires x in pre
    ensures IndexOf(pre + [last], x) == IndexOf(pre, x)
  {
    var k := IndexOf(pre, x);
    assert (pre + [last])[k] == x;
    assert (pre + [last])[..k] == pre[..k];
    IndexUnique(pre + [last], x, k);
  }

  lemma IndexUnique(s: seq<string>, x: string, k: nat)
    requires k < |s| && s[k] == x && x !in s[..k]
    ensures IndexOf(s, x) == k
  {
  }

  /** `list_messages_by_message_id`: {} for no ids; otherwise the first max_items ids are
      fetched and the resolved ones kept in input order. */
  function ById<M>(ids: seq<string>, max: nat, fetch: string -> Fetched<M>): Result<seq<(string, M)>, int> {
    if ids == [] then Success([])
    else
      var firsts := ids[..Min(max, |ids|)];
      match FetchAll(firsts, fetch)
      case Failure(e) => Failure(e)
      case Success(byId) => Success(InOrder(firsts, byId))
  }

  /** list_messages_by_message_id as written. get_message_by_id_on_thread passes the keyword
      `ormat`, which is no parameter of `messages.get`: the API client raises TypeError while
      building the request, before any HTTP call, and the pool re-raises it when the results
      are read. None stands for that TypeError; only a call that fetches nothing gets through. */
  function ByIdAsWritten<M>(ids: seq<string>, max: nat): (r: Option<seq<(string, M)>>)
    ensures r.Some? <==> Min(max, |ids|) == 0
    ensures r.Some? ==> r.value == []
  {
    if ids == [] || Min(max, |ids|) == 0 then Some([]) else None
  }

  /** Whenever the corrected call resolves a message, the call as written raises instead. */
  lemma AsWrittenLosesResolved<M>(ids: seq<string>, max: nat, fetch: string -> Fetched<M>)
    requires ById(ids, max, fetch).Success? && ById(ids, max, fetch).value != []
    ensures ByIdAsWritten<M>(ids, max).None?
  {
  }

  /** The keys of the result are exactly the fetched ids among the first max_items inputs,
      each once, ordered by first appearance, each with its own message. */
  lemma ByIdMeaning<M>(ids: seq<string>, max: nat, fetch: string -> Fetched<M>)
    requires ById(ids, max, fetch).Success?
    ensures var es := ById(ids, max, fetch).value;
      (forall id :: id in Keys(es) <==> id in ids[..Min(max, |ids|)] && fetch(id).Message?)
      && (forall e :: e in es ==> e.0 in ids[..Min(max, |ids|)] && fetch(e.0) == Message(e.1))
      && (forall i, j :: 0 <= i < j < |es| ==> es[i].0 != es[j].0)
      && OrderedBy(ids[..Min(max, |ids|)], es)
  {
    if ids != [] {
      var firsts := ids[..Min(max, |ids|)];
      InOrderKeys(firsts, FetchAll(firsts, fetch).value);
      InOrderOrdered(firsts, FetchAll(firsts, fetch).value);
    }
  }

  /** The first loop: `dict(results)` over the fetched messages. */
  method FetchMessages<M>(ids: seq<string>, fetch: string -> Fetched<M>) returns (r: Result<map<string, M>, int>)
    ensures r == FetchAll(ids, fetch)
  {
    var byId: map<string, M> := map[];
    for k := 0 to |ids|
      invariant FetchAll(ids[..k], fetch) == Success(byId)
    {
      assert ids[..k + 1][..k] == ids[..k];
      match fetch(ids[k])
      case FetchFailed(s) =>
        FailureStays(ids, k + 1, fetch);
        return Failure(s);
      case NoMessage =>
      case Message(m) =>
        byId := byId[ids[k] := m];
    }
    assert ids[..|ids|] == ids;
    r := Success(byId);
  }

  /** Once a prefix fails, the whole fetch fails with the same status. */
  lemma {:induction false} FailureStays<M>(ids: seq<string>, k: nat, fetch: string -> Fetched<M>)
    requires k <= |ids| && FetchAll(ids[..k], fetch).Failure?
    ensures FetchAll(ids, fetch) == FetchAll(ids[..k], fetch)
    decreases |ids| - k
  {
    if k < |ids| {
      assert ids[..k + 1][..k] == ids[..k];
      FailureStays(ids, k + 1, fetch);
    } else {
      assert ids[..k] == ids;
    }
  }

  method ListMessagesById<M>(ids: seq<string>, max: nat, fetch: string -> Fetched<M>)
    returns (r: Result<seq<(string, M)>, int>)
    ensures r == ById(ids, max, fetch)
  {
    if ids == [] {
      return Success([]);
    }
    var firsts := ids[..Min(max, |ids|)];
    var found := FetchMessages(firsts, fetch);
    if found.Failure? {
      return Failure(found.error);
    }
    var byId := found.value;
    var resolved: seq<(string, M)> := [];
    for k := 0 to |firsts|
      invariant resolved == InOrder(firsts[..k], byId)
    {
      assert firsts[..k + 1][..k] == firsts[..k];
      var id := firsts[k];
      if id in byId && id !in Keys(resolved) {
        resolved := resolved + [(id, byId[id])];
      }
    }
    assert firsts[..|firsts|] == firsts;
    r := Success(resolved);
  }

  // ---------------------------------------------------------------------------------------
  // Threads by id

  /** One more `get_thread_by_id` outcome: a thread is kept, a 400 (None) is dropped, a raised
      error stays the result once it has happened. */
  function Gather<M>(acc: Result<seq<M>, int>, o: ExecResult<M>): Result<seq<M>, int> {
    if acc.Failure? then acc
    else match o
      case Returned(v) => Success(acc.value + [v])
      case BadRequest => acc
      case Raised(s) => Failure(s)
  }

  /** The threads of `list_messages_by_gthread_id` in input order; the first raised error in
      input order is what iterating the results raises. */
  function ThreadsFetched<M>(ids: seq<string>, attempts: string -> nat -> CallOutcome<M>): (r: Result<seq<M>, int>)
    ensures r.Success? ==> |r.value| <= |ids|
    ensures r.Success? ==> forall j :: 0 <= j < |ids| ==> !ExecFrom(attempts(ids[j]), 0).0.Raised?
    ensures r.Success? ==> forall m :: m in r.value ==> exists j :: 0 <= j < |ids| && ExecFrom(attempts(ids[j]), 0).0 == Returned(m)
    ensures r.Failure? ==> exists j :: 0 <= j < |ids| && ExecFrom(attempts(ids[j]), 0).0 == Raised(r.error)
                             && forall i :: 0 <= i < j ==> !ExecFrom(attempts(ids[i]), 0).0.Raised?
  {
    if ids == [] then Success([])
    else
      var pre := ids[..|ids| - 1];
      var last := |ids| - 1;
      var acc := ThreadsFetched(pre, attempts);
      assert forall j :: 0 <= j < |pre| ==> pre[j] == ids[j];
      Gather(acc, ExecFrom(attempts(ids[last]), 0).0)
  }

  /** With no error at all, a thread is kept exactly when its call returned. */
  lemma {:induction false} ThreadsFetchedKeepsReturned<M>(ids: seq<string>, attempts: string -> nat -> CallOutcome<M>)
    requires forall j :: 0 <= j < |ids| ==> !ExecFrom(attempts(ids[j]), 0).0.Raised?
    ensures ThreadsFetched(ids, attempts).Success?
    ensures |ThreadsFetched(ids, attempts).value| == |ids| - CountBadRequests(ids, attempts)
  {
    if ids != [] {
      var pre := ids[..|ids| - 1];
      assert forall j :: 0 <= j < |pre| ==> pre[j] == ids[j];
      ThreadsFetchedKeepsReturned(pre, attempts);
    }
  }

  /** How many of the calls were answered with a 400. */
  function CountBadRequests<M>(ids: seq<string>, attempts: string -> nat -> CallOutcome<M>): (n: nat)
    ensures n <= |ids|
  {
    if ids == [] then 0
    else CountBadRequests(ids[..|ids| - 1], attempts)
         + (if ExecFrom(attempts(ids[|ids| - 1]), 0).0.BadRequest? then 1 else 0)
  }

  /** `list_messages_by_gthread_id`: nothing for no ids; otherwise every one of the first
      max_items ids goes through the rate limiter (all calls are submitted before any result
      is read), with the jitter and call durations of its own position. */
  method ListMessagesByGthreadId<M>(limiter: RateLimiter, ids: seq<string>, max: nat,
                                    attempts: string -> nat -> CallOutcome<M>,
                                    jitter: nat -> nat -> nat, elapsed: nat -> nat -> nat)
    returns (r: Result<seq<M>, int>)
    requires forall k, i :: jitter(k)(i) < JitterBound
    modifies limiter
    ensures r == ThreadsFetched(ids[..Min(max, |ids|)], attempts)
  {
    var firsts := ids[..Min(max, |ids|)];
    r := Success([]);
    for k := 0 to |firsts|
      invariant r == ThreadsFetched(firsts[..k], attempts)
    {
      assert firsts[..k + 1][..k] == firsts[..k];
      var o, _ := limiter.Exec(attempts(firsts[k]), jitter(k), elapsed(k));
      r := Gather(r, o);
    }
    assert firsts[..|firsts|] == firsts;
  }

  // ---------------------------------------------------------------------------------------
  // History

  /** A message added to the mailbox, with its labels. */
  datatype Added = Added(messageId: string, labelIds: seq<string>)

  /** Labels taken off a message. */
  datatype LabelsRemoved = LabelsRemoved(messageId: string, labelIds: seq<string>)

  /** One history record: its id and its added, deleted and relabelled messages. */
  datatype HistoryRecord = HistoryRecord(id: string, added: seq<Added>, deleted: seq<string>,
                                         labelsRemoved: seq<LabelsRemoved>)

  /** The latest history id as the loop computes it: `id > latest` on str, so ids are
      compared character by character. */
  function LatestAsWritten(start: string, recs: seq<HistoryRecord>): (r: string)
    ensures r == start || exists j :: 0 <= j < |recs| && r == recs[j].id
  {
    if recs == [] then start
    else
      var l := LatestAsWritten(start, recs[..|recs| - 1]);
      if StrLess(l, recs[|recs| - 1].id) then recs[|recs| - 1].id else l
  }

  /** Gmail history ids are decimal numbers written as strings: "1000" sorts before "999",
      so a record with id 1000 after start 999 is not reported as the latest. */
  lemma StringOrderMissesNewer()
    ensures var recs := [HistoryRecord("1000", [], [], [])];
      LatestAsWritten("999", recs) == "999" && LatestId("999", recs) == "1000"
  {
    var recs := [HistoryRecord("1000", [], [], [])];
    assert recs[..0] == [];
    assert !StrLess("999", "1000");
    assert DecimalValue("999") == 999 by {
      assert "999"[..2] == "99" && "99"[..1] == "9" && "9"[..0] == "";
    }
    assert DecimalValue("1000") == 1000 by {
      assert "1000"[..3] == "100" && "100"[..2] == "10" && "10"[..1] == "1" && "1"[..0] == "";
    }
  }

  /** A history id: one or more decimal digits. */
  predicate HistoryId(s: string) { |s| > 0 && AllDigits(s) }

  predicate NumericIds(recs: seq<HistoryRecord>) {
    forall j :: 0 <= j < |recs| ==> HistoryId(recs[j].id)
  }

  /** The latest history id compared as numbers, as meant: the first id of largest value. */
  function LatestId(start: string, recs: seq<HistoryRecord>): (r: string)
    requires HistoryId(start) && NumericIds(recs)
    ensures HistoryId(r)
    ensures r == start || exists j :: 0 <= j < |recs| && r == recs[j].id
  {
    if recs == [] then start
    else
      var l := LatestId(start, recs[..|recs| - 1]);
      if DecimalValue(l) < DecimalValue(recs[|recs| - 1].id) then recs[|recs| - 1].id else l
  }

  /** The corrected latest id is the maximum of the start id and all record ids. */
  lemma {:induction false} LatestIdIsMax(start: string, recs: seq<HistoryRecord>)
    requires HistoryId(start) && NumericIds(recs)
    ensures DecimalValue(start) <= DecimalValue(LatestId(start, recs))
    ensures forall j :: 0 <= j < |recs| ==> DecimalValue(recs[j].id) <= DecimalValue(LatestId(start, recs))
  {
    if recs != [] {
      var pre, last := recs[..|recs| - 1], recs[|recs| - 1];
      assert NumericIds(pre) by {
        forall j | 0 <= j < |pre| ensures HistoryId(pre[j].id) { assert pre[j] == recs[j]; }
      }
      LatestIdIsMax(start, pre);
      var l := LatestId(start, pre);
      var vl, vlast := DecimalValue(l), DecimalValue(last.id);
      var vr := DecimalValue(LatestId(start, recs));
      assert vr == if vl < vlast then vlast else vl;
      forall j | 0 <= j < |recs| ensures DecimalValue(recs[j].id) <= vr {
        if j < |pre| {
          assert recs[j] == pre[j];
          assert DecimalValue(pre[j].id) <= vl;
        } else {
          assert recs[j] == last;
        }
      }
    }
  }

  /** Ids of added messages that do not carry SENT. */
  function Unsent(adds: seq<Added>): seq<string> {
    if adds == [] then []
    else Unsent(adds[..|adds| - 1])
         + (if "SENT" in adds[|adds| - 1].labelIds then [] else [adds[|adds| - 1].messageId])
  }

  /** Ids of messages whose INBOX label was removed. */
  function LeftInbox(rs: seq<LabelsRemoved>): seq<string> {
    if rs == [] then []
    else LeftInbox(rs[..|rs| - 1])
         + (if "INBOX" in rs[|rs| - 1].labelIds then [rs[|rs| - 1].messageId] else [])
  }

  /** New messages over all records, in order. */
  function NewMessages(recs: seq<HistoryRecord>): seq<string> {
    if recs == [] then [] else NewMessages(recs[..|recs| - 1]) + Unsent(recs[|recs| - 1].added)
  }

  /** Removed messages over all records: per record its deleted ids, then those that left INBOX. */
  function RemovedMessages(recs: seq<HistoryRecord>): seq<string> {
    if recs == [] then []
    else RemovedMessages(recs[..|recs| - 1]) + recs[|recs| - 1].deleted + LeftInbox(recs[|recs| - 1].labelsRemoved)
  }

  /** A new message never carries SENT, and every one comes from some record. */
  lemma {:induction false} NewMessagesUnsent(recs: seq<HistoryRecord>)
    ensures forall m :: m in NewMessages(recs) ==>
              exists j, a :: 0 <= j < |recs| && a in recs[j].added && a.messageId == m && "SENT" !in a.labelIds
  {
    if recs != [] {
      var pre := recs[..|recs| - 1];
      NewMessagesUnsent(pre);
      UnsentMeaning(recs[|recs| - 1].added);
      assert NewMessages(recs) == NewMessages(pre) + Unsent(recs[|recs| - 1].added);
      forall m | m in NewMessages(recs)
        ensures exists j, a :: 0 <= j < |recs| && a in recs[j].added && a.messageId == m && "SENT" !in a.labelIds
      {
        if m in NewMessages(pre) {
          var j, a :| 0 <= j < |pre| && a in pre[j].added && a.messageId == m && "SENT" !in a.labelIds;
          assert recs[j] == pre[j];
        } else {
          assert m in Unsent(recs[|recs| - 1].added);
        }
      }
    }
  }

  lemma {:induction false} UnsentMeaning(adds: seq<Added>)
    ensures forall m :: m in Unsent(adds) <==> exists a :: a in adds && a.messageId == m && "SENT" !in a.labelIds
  {
    if adds != [] {
      var pre := adds[..|adds| - 1];
      UnsentMeaning(pre);
      assert adds == pre + [adds[|adds| - 1]];
    }
  }

  /** A message added with SENT among its labels in every record is never reported as new. */
  lemma SentNeverNew(recs: seq<HistoryRecord>, m: string)
    requires forall j, a :: 0 <= j < |recs| && a in recs[j].added && a.messageId == m ==> "SENT" in a.labelIds
    ensures m !in NewMessages(recs)
  {
    NewMessagesUnsent(recs);
  }

  /** The messages one record removes: its deleted ids and those whose INBOX label went. */
  lemma LeftInboxMeaning(rs: seq<LabelsRemoved>)
    ensures forall m :: m in LeftInbox(rs) <==> exists x :: x in rs && x.messageId == m && "INBOX" in x.labelIds
  {
    if rs != [] {
      var pre := rs[..|rs| - 1];
      LeftInboxMeaning(pre);
      assert rs == pre + [rs[|rs| - 1]];
    }
  }

  /** Why a fetch of history changes failed. */
  datatype HistoryError = ListingRaised | MalformedHistoryId | MessageRaised(status: int)

  /** The three results of `list_messages_since_history_id`. */
  datatype HistoryChanges<M> = HistoryChanges(latest: string, messages: seq<(string, M)>, removed: seq<string>)

  /** The fold of `list_messages_since_history_id`, with history ids compared as numbers. */
  function SinceHistory<M>(start: string, pages: seq<PageCall<HistoryRecord>>, fetch: string -> Fetched<M>)
    : Result<HistoryChanges<M>, HistoryError>
  {
    match PageAllItems(pages, None)
    case None => Failure(ListingRaised)
    case Some(recs) =>
      if !HistoryId(start) || !NumericIds(recs) then Failure(MalformedHistoryId)
      else
        var added := NewMessages(recs);
        match ById(added, |added|, fetch)
        case Failure(s) => Failure(MessageRaised(s))
        case Success(resolved) => Success(HistoryChanges(LatestId(start, recs), resolved, RemovedMessages(recs)))
  }

  /** The per-record loop over history records. */
  method FoldHistory(start: string, recs: seq<HistoryRecord>)
    returns (r: Option<(string, seq<string>, seq<string>)>)
    ensures r.None? <==> !HistoryId(start) || !NumericIds(recs)
    ensures r.Some? ==> r.value == (LatestId(start, recs), NewMessages(recs), RemovedMessages(recs))
  {
    if !HistoryId(start) {
      return None;
    }
    var latest := start;
    var messages: seq<string> := [];
    var removed: seq<string> := [];
    for k := 0 to |recs|
      invariant NumericIds(recs[..k])
      invariant latest == LatestId(start, recs[..k])
      invariant messages == NewMessages(recs[..k]) && removed == RemovedMessages(recs[..k])
    {
      var e := recs[k];
      if !HistoryId(e.id) {
        assert !NumericIds(recs) by { assert recs[k] == e; }
        return None;
      }
      NumericStep(recs, k);
      if DecimalValue(latest) < DecimalValue(e.id) {
        latest := e.id;
      }
      messages := CollectUnsent(messages, e.added);
      removed := CollectRemoved(removed, e);
    }
    assert recs[..|recs|] == recs;
    r := Some((latest, messages, removed));
  }

  /** One more record with a numeric id: the folds over the longer prefix take one step. */
  lemma NumericStep(recs: seq<HistoryRecord>, k: nat)
    requires k < |recs| && NumericIds(recs[..k]) && HistoryId(recs[k].id)
    ensures NumericIds(recs[..k + 1])
    ensures recs[..k + 1][..k] == recs[..k] && recs[..k + 1][k] == recs[k]
  {
    assert recs[..k + 1][..k] == recs[..k];
  }

  /** The loop over one record's added messages. */
  method CollectUnsent(messages: seq<string>, adds: seq<Added>) returns (r: seq<string>)
    ensures r == messages + Unsent(adds)
  {
    r := messages;
    for a := 0 to |adds|
      invariant r == messages + Unsent(adds[..a])
    {
      assert adds[..a + 1][..a] == adds[..a];
      if "SENT" !in adds[a].labelIds {
        r := r + [adds[a].messageId];
      }
    }
    assert adds[..|adds|] == adds;
  }

  /** The loops over one record's deleted and relabelled messages. */
  method CollectRemoved(removed: seq<string>, e: HistoryRecord) returns (r: seq<string>)
    ensures r == removed + e.deleted + LeftInbox(e.labelsRemoved)
  {
    r := removed;
    for d := 0 to |e.deleted|
      invariant r == removed + e.deleted[..d]
    {
      assert e.deleted[..d + 1] == e.deleted[..d] + [e.deleted[d]];
      r := r + [e.deleted[d]];
    }
    assert e.deleted[..|e.deleted|] == e.deleted;
    for x := 0 to |e.labelsRemoved|
      invariant r == removed + e.deleted + LeftInbox(e.labelsRemoved[..x])
    {
      assert e.labelsRemoved[..x + 1][..x] == e.labelsRemoved[..x];
      if "INBOX" in e.labelsRemoved[x].labelIds {
        r := r + [e.labelsRemoved[x].messageId];
      }
    }
    assert e.labelsRemoved[..|e.labelsRemoved|] == e.labelsRemoved;
  }

  /** `list_messages_since_history_id`: the listing of history records (no item limit), the
      fold, then every new message resolved. */
  method ListMessagesSinceHistoryId<M>(start: string, pages: seq<PageCall<HistoryRecord>>, fetch: string -> Fetched<M>)
    returns (r: Result<HistoryChanges<M>, HistoryError>)
    ensures r == SinceHistory(start, pages, fetch)
  {
    var changes := PageAll(pages, None);
    if changes.None? {
      return Failure(ListingRaised);
    }
    var folded := FoldHistory(start, changes.value);
    if folded.None? {
      return Failure(MalformedHistoryId);
    }
    var (latest, added, removed) := folded.value;
    var resolved := ListMessagesById(added, |added|, fetch);
    if resolved.Failure? {
      return Failure(MessageRaised(resolved.error));
    }
    r := Success(HistoryChanges(latest, resolved.value, removed));
  }

  // ---------------------------------------------------------------------------------------
  // Labels

  /** A Gmail label: its id and display name. */
  datatype Label = Label(id: string, name: string)

  predicate Named(name: string, l: Label) { l.name == name }

  /** The test `label["name"] == label_name`. */
  function ByName(name: string): Label -> bool {
    l => Named(name, l)
  }

  /** `get_or_create_label_id` on the label list: the id of the first label with that name,
      or a new label (with the id the server assigns) appended when none has it. */
  function LabelLookup(labels: seq<Label>, name: string, freshId: string): (seq<Label>, string) {
    match FirstWhere(labels, ByName(name))
    case Some(k) => (labels, labels[k].id)
    case None => (labels + [Label(freshId, name)], freshId)
  }

  /** The id returned belongs to the first label carrying the name in the resulting list;
      a label is created exactly when none carried the name before. */
  lemma LabelLookupFinds(labels: seq<Label>, name: string, freshId: string)
    ensures var (after, id) := LabelLookup(labels, name, freshId);
      (exists k :: 0 <= k < |after| && after[k] == Label(id, name)
        && forall j :: 0 <= j < k ==> after[j].name != name)
      && (after == labels <==> exists j :: 0 <= j < |labels| && labels[j].name == name)
      && (after != labels ==> after == labels + [Label(freshId, name)])
  {
    var f := FirstWhere(labels, ByName(name));
    if f.None? {
      var after := labels + [Label(freshId, name)];
      assert after[|labels|] == Label(freshId, name);
      assert |after| != |labels|;
    } else {
      var k := f.value;
      assert ByName(name)(labels[k]);
      assert labels[k] == Label(labels[k].id, name);
      forall j | 0 <= j < k ensures labels[j].name != name {
        assert !ByName(name)(labels[j]);
      }
      assert LabelLookup(labels, name, freshId) == (labels, labels[k].id);
      assert 0 <= k < |labels| && labels[k] == Label(labels[k].id, name)
        && forall j :: 0 <= j < k ==> labels[j].name != name;
    }
  }

  /** A second lookup of the same name finds the label the first returned and creates nothing. */
  lemma LabelLookupIdempotent(labels: seq<Label>, name: string, freshId: string, otherId: string)
    ensures var (after, id) := LabelLookup(labels, name, freshId);
      LabelLookup(after, name, otherId) == (after, id)
  {
    var (after, id) := LabelLookup(labels, name, freshId);
    var f := FirstWhere(labels, ByName(name));
    if f.None? {
      var g := FirstWhere(after, ByName(name));
      assert ByName(name)(after[|labels|]);
      assert g == Some(|labels|) by {
        assert forall j :: 0 <= j < |labels| ==> after[j] == labels[j];
      }
    }
  }

  /** The labels added to each thread, once `labelId` is added to `threadId`. */
  function WithLabel(m: map<string, set<string>>, threadId: string, labelId: string): (r: map<string, set<string>>)
    ensures r.Keys == m.Keys + {threadId}
    ensures labelId in r[threadId]
    ensures forall t :: t in m ==> m[t] <= r[t]
    ensures forall t :: t in m && t != threadId ==> r[t] == m[t]
  {
    m[threadId := (if threadId in m then m[threadId] else {}) + {labelId}]
  }

  /** The labels of the account and the labels added to each thread. */
  class Mailbox {
    var labels: seq<Label>
    var threadLabels: map<string, set<string>>

    constructor (labels0: seq<Label>)
      ensures labels == labels0 && threadLabels == map[]
    {
      labels := labels0;
      threadLabels := map[];
    }

    /** `get_or_create_label_id`: the loop over the listed labels, then `_create_label`. */
    method GetOrCreateLabelId(name: string, freshId: string) returns (id: string)
      modifies this`labels
      ensures (labels, id) == LabelLookup(old(labels), name, freshId)
    {
      var listed := labels;
      for k := 0 to |listed|
        invariant forall j :: 0 <= j < k ==> listed[j].name != name
      {
        if listed[k].name == name {
          return listed[k].id;
        }
      }
      labels := listed + [Label(freshId, name)];
      id := freshId;
    }

    /** `add_label`: the thread gains the label. */
    method AddLabel(threadId: string, labelId: string) returns (ok: bool)
      modifies this`threadLabels
      ensures ok
      ensures threadLabels == WithLabel(old(threadLabels), threadId, labelId)
    {
      var current := if threadId in threadLabels then threadLabels[threadId] else {};
      threadLabels := threadLabels[threadId := current + {labelId}];
      ok := true;
    }
  }
}
