/** Cleaning: a thread is deleted by adding the cleanmail label to it through the rate
    limiter and marking the row; a sender is cleaned by deleting its old, unanswered threads,
    oldest first; a user is cleaned sender by sender under a guard that refuses a second run
    within two hours. `now` is the current time in milliseconds; the outcome of each label call
    is a parameter indexed by the thread's row. */
module CleanUser {
  import opened Wrappers
  import opened Sorting
  import opened MailModels
  import Stats
  import GmailApi

  /** 90 days, the age a thread must reach before it is deleted. */
  const NinetyDays: int := 90 * 24 * 60 * 60 * 1000

  /** 7200 s, how long a cleaning run keeps another one out. */
  const CleaningWindow: int := 7200 * 1000

  // ---------------------------------------------------------------------------------------
  // One thread

  datatype DeleteResult = AlreadyDeleted | Marked | DeleteRaised(status: int)

  /** `delete_thread`: a thread already deleted is left alone with no call; otherwise the
      label is added through `exec_with_rate_limit` and the row marked deleted, also when the
      call was a bad request (the limiter then returns None); a raised error leaves the row as
      it was. */
  method DeleteThread(db: MailDb, mailbox: GmailApi.Mailbox, limiter: GmailApi.RateLimiter, j: nat,
                      labelId: string, attempt: nat -> GmailApi.CallOutcome<bool>,
                      jitter: nat -> nat, elapsed: nat -> nat)
    returns (res: DeleteResult)
    requires j < |db.threads|
    requires forall i :: jitter(i) < GmailApi.JitterBound
    modifies db`threads, mailbox`threadLabels, limiter
    ensures old(db.threads[j].deleted) == Some(true) ==>
              res == AlreadyDeleted && db.threads == old(db.threads)
              && mailbox.threadLabels == old(mailbox.threadLabels) && unchanged(limiter)
    ensures old(db.threads[j].deleted) != Some(true) ==>
              match GmailApi.ExecFrom(attempt, 0).0
              case Returned(_) =>
                res == Marked && db.threads == old(db.threads)[j := old(db.threads[j]).(deleted := Some(true))]
                && mailbox.threadLabels == GmailApi.WithLabel(old(mailbox.threadLabels), old(db.threads[j].threadId), labelId)
              case BadRequest =>
                res == Marked && db.threads == old(db.threads)[j := old(db.threads[j]).(deleted := Some(true))]
                && mailbox.threadLabels == old(mailbox.threadLabels)
              case Raised(s) =>
                res == DeleteRaised(s) && db.threads == old(db.threads)
                && mailbox.threadLabels == old(mailbox.threadLabels)
    ensures MarkedAt(old(db.threads), db.threads, j)
    ensures !res.DeleteRaised? ==> db.threads[j].deleted == Some(true)
  {
    if db.threads[j].deleted == Some(true) {
      return AlreadyDeleted;
    }
    var r, _ := limiter.Exec(attempt, jitter, elapsed);
    match r
    case Raised(s) =>
      return DeleteRaised(s);
    case Returned(_) =>
      var _ := mailbox.AddLabel(db.threads[j].threadId, labelId);
      db.threads := db.threads[j := db.threads[j].(deleted := Some(true))];
      res := Marked;
    case BadRequest =>
      db.threads := db.threads[j := db.threads[j].(deleted := Some(true))];
      res := Marked;
  }

  /** `after` is `before` with at most row j marked deleted. */
  ghost predicate MarkedAt(before: seq<Thread>, after: seq<Thread>, j: nat) {
    && |after| == |before|
    && forall i :: 0 <= i < |after| ==>
         after[i] == before[i] || (i == j && after[i] == before[i].(deleted := Some(true)))
  }

  // ---------------------------------------------------------------------------------------
  // One sender

  /** A thread `clean_sender` deletes: this user's and this sender's, last message before
      now − 90 days, never replied to, not deleted. */
  predicate Eligible(t: Thread, userId: nat, senderId: nat, now: int) {
    && t.userId == userId && t.senderId == senderId
    && t.mostRecentDate.Some? && t.mostRecentDate.value < now - NinetyDays
    && !t.hasReplied && t.deleted != Some(true)
  }

  /** The rows below n that are eligible, in table order. */
  function EligibleRows(threads: seq<Thread>, n: nat, userId: nat, senderId: nat, now: int): (r: seq<nat>)
    requires n <= |threads|
    ensures forall j :: j in r ==> j < n
    ensures forall j :: 0 <= j < n ==> (j in r <==> Eligible(threads[j], userId, senderId, now))
  {
    if n == 0 then []
    else
      EligibleRows(threads, n - 1, userId, senderId, now)
      + (if Eligible(threads[n - 1], userId, senderId, now) then [n - 1] else [])
  }

  /** `ORDER BY most_recent_date`, as a descending order on the negated date. */
  function OldestFirst(threads: seq<Thread>): nat -> real {
    (j: nat) => if j < |threads| && threads[j].mostRecentDate.Some? then -(threads[j].mostRecentDate.value as real) else 0.0
  }

  /** The rows `clean_sender` selects, oldest first. */
  function Selection(threads: seq<Thread>, userId: nat, senderId: nat, now: int): seq<nat> {
    SortDesc(EligibleRows(threads, |threads|, userId, senderId, now), OldestFirst(threads))
  }

  /** `sel` holds exactly the eligible rows. */
  ghost predicate EligibleExactly(threads: seq<Thread>, sel: seq<nat>, userId: nat, senderId: nat, now: int) {
    && (forall j :: j in sel ==> j < |threads|)
    && (forall j :: 0 <= j < |threads| ==> (j in sel <==> Eligible(threads[j], userId, senderId, now)))
  }

  /** `sel` lists dated rows, oldest first. */
  ghost predicate OldestFirstOrder(threads: seq<Thread>, sel: seq<nat>) {
    forall p, q :: 0 <= p < q < |sel| ==> InOrderAt(threads, sel, p, q)
  }

  /** Positions `p` and `q` of `sel` name dated rows, the one at `p` no newer. */
  ghost predicate InOrderAt(threads: seq<Thread>, sel: seq<nat>, p: int, q: int) {
    && 0 <= p < |sel| && 0 <= q < |sel|
    && sel[p] < |threads| && sel[q] < |threads|
    && threads[sel[p]].mostRecentDate.Some? && threads[sel[q]].mostRecentDate.Some?
    && threads[sel[p]].mostRecentDate.value <= threads[sel[q]].mostRecentDate.value
  }

  /** The selection holds exactly the eligible rows, ordered by date, oldest first. */
  lemma SelectionMeaning(threads: seq<Thread>, userId: nat, senderId: nat, now: int)
    ensures EligibleExactly(threads, Selection(threads, userId, senderId, now), userId, senderId, now)
    ensures OldestFirstOrder(threads, Selection(threads, userId, senderId, now))
  {
    SelectionRows(threads, userId, senderId, now);
    SelectionOrdered(threads, userId, senderId, now);
  }

  /** Sorting keeps the eligible rows, no more and no fewer. */
  lemma SelectionRows(threads: seq<Thread>, userId: nat, senderId: nat, now: int)
    ensures EligibleExactly(threads, Selection(threads, userId, senderId, now), userId, senderId, now)
  {
    var rows := EligibleRows(threads, |threads|, userId, senderId, now);
    var sel := Selection(threads, userId, senderId, now);
    forall j ensures j in sel <==> j in rows {
      assert j in sel <==> j in multiset(sel);
      assert j in rows <==> j in multiset(rows);
    }
  }

  /** The selected rows come oldest first. */
  lemma SelectionOrdered(threads: seq<Thread>, userId: nat, senderId: nat, now: int)
    ensures OldestFirstOrder(threads, Selection(threads, userId, senderId, now))
  {
    SelectionRows(threads, userId, senderId, now);
    OrderedFromSorted(threads, Selection(threads, userId, senderId, now), userId, senderId, now);
  }

  /** Eligible rows sorted by the negated date are in date order. */
  lemma OrderedFromSorted(threads: seq<Thread>, sel: seq<nat>, userId: nat, senderId: nat, now: int)
    requires EligibleExactly(threads, sel, userId, senderId, now) && SortedDesc(sel, OldestFirst(threads))
    ensures OldestFirstOrder(threads, sel)
  {
    forall p, q | 0 <= p < q < |sel| ensures InOrderAt(threads, sel, p, q) {
      PairInOrder(threads, sel, userId, senderId, now, p, q);
    }
  }

  lemma PairInOrder(threads: seq<Thread>, sel: seq<nat>, userId: nat, senderId: nat, now: int, p: nat, q: nat)
    requires EligibleExactly(threads, sel, userId, senderId, now) && SortedDesc(sel, OldestFirst(threads))
    requires p < q < |sel|
    ensures InOrderAt(threads, sel, p, q)
  {
    assert sel[p] in sel && sel[q] in sel;
    assert Eligible(threads[sel[p]], userId, senderId, now) && Eligible(threads[sel[q]], userId, senderId, now);
    KeyOrder(threads, sel[p], sel[q]);
  }

  /** Two dated rows in descending key order are in ascending date order. */
  lemma KeyOrder(threads: seq<Thread>, a: nat, b: nat)
    requires a < |threads| && b < |threads|
    requires threads[a].mostRecentDate.Some? && threads[b].mostRecentDate.Some?
    ensures OldestFirst(threads)(a) >= OldestFirst(threads)(b)
        <==> threads[a].mostRecentDate.value <= threads[b].mostRecentDate.value
  { }

  datatype CleanOutcome = UserMissing | SenderMissing | NotOwner | NoLabel
                        | ApiRaised(status: int) | NoAddressToLog | Cleaned

  predicate Refused(o: CleanOutcome) {
    o.UserMissing? || o.SenderMissing? || o.NotOwner? || o.NoLabel?
  }

  /** Every row differs from before at most by being marked deleted, and only if it is
      among `rows`. */
  ghost predicate OnlyMarked(before: seq<Thread>, after: seq<Thread>, rows: seq<nat>) {
    && |after| == |before|
    && forall j :: 0 <= j < |after| ==>
         after[j] == before[j] || (after[j] == before[j].(deleted := Some(true)) && j in rows)
  }

  /** `clean_sender` gets past its checks: the user and the sender exist, the sender is the
      user's, and the user has a label id. */
  predicate SenderAdmitted(users: seq<GoogleUser>, senders: seq<Sender>, userId: nat, senderId: nat) {
    var user := FirstWhere(users, IdIs(userId));
    var sender := FirstWhere(senders, Stats.SenderIdIs(senderId));
    && user.Some? && sender.Some? && senders[sender.value].userId == userId
    && users[user.value].labelId.Some?
  }

  /** The user's label id, when the user exists and has one. */
  function LabelOf(users: seq<GoogleUser>, userId: nat): string {
    match FirstWhere(users, IdIs(userId))
    case Some(k) => if users[k].labelId.Some? then users[k].labelId.value else ""
    case None => ""
  }

  /** `clean_sender`: nothing is deleted for a missing user or sender or for another user's
      sender; a user without a label id fails its assertion; otherwise the selected threads are
      deleted in order, and `last_cleaned` is set once all of them are. A raised API error,
      or the log line after every hundredth thread of a sender without addresses, ends the
      run early. Exceptions are caught and logged. */
  method CleanSender(db: MailDb, mailbox: GmailApi.Mailbox, limiter: GmailApi.RateLimiter,
                     userId: nat, senderId: nat, now: int,
                     attempts: nat -> nat -> GmailApi.CallOutcome<bool>,
                     jitter: nat -> nat -> nat, elapsed: nat -> nat -> nat)
    returns (res: CleanOutcome)
    requires forall j, i :: jitter(j)(i) < GmailApi.JitterBound
    modifies db`threads, db`senders, mailbox`threadLabels, limiter
    ensures var user := FirstWhere(db.users, IdIs(userId));
      var sender := FirstWhere(old(db.senders), Stats.SenderIdIs(senderId));
      && (res.UserMissing? <==> user.None?)
      && (res.SenderMissing? <==> user.Some? && sender.None?)
      && (res.NotOwner? <==> user.Some? && sender.Some? && old(db.senders)[sender.value].userId != userId)
      && (res.NoLabel? <==> user.Some? && sender.Some? && old(db.senders)[sender.value].userId == userId
                            && db.users[user.value].labelId.None?)
      && (res.Cleaned? ==> sender.Some? && db.senders == old(db.senders)[sender.value := old(db.senders)[sender.value].(lastCleaned := Some(now))])
    ensures !res.Cleaned? ==> db.senders == old(db.senders)
    ensures Refused(res) ==> db.threads == old(db.threads) && mailbox.threadLabels == old(mailbox.threadLabels) && unchanged(limiter)
    ensures OnlyMarked(old(db.threads), db.threads, Selection(old(db.threads), userId, senderId, now))
    ensures res.Cleaned? ==> forall j :: 0 <= j < |db.threads| && j in Selection(old(db.threads), userId, senderId, now) ==> db.threads[j].deleted == Some(true)
    ensures SenderAdmitted(db.users, old(db.senders), userId, senderId) ==>
      var sel := Selection(old(db.threads), userId, senderId, now);
      var noAddress := AddressesOf(db.addresses, senderId) == [];
      var run := SenderRun(sel, attempts, noAddress, 0);
      && res == run.1
      && MarkedExactly(old(db.threads), db.threads, sel[..run.0])
      && RunLabelled(mailbox.threadLabels, old(db.threads), sel, run.0, attempts, LabelOf(db.users, userId))
      && (res.Cleaned? <==> (forall q :: 0 <= q < |sel| ==> !CallRaises(sel, attempts, q)) && !(noAddress && |sel| >= 100))
  {
    var user := FirstWhere(db.users, IdIs(userId));
    if user.None? {
      return UserMissing;
    }
    var sender := FirstWhere(db.senders, Stats.SenderIdIs(senderId));
    if sender.None? {
      return SenderMissing;
    }
    var k := sender.value;
    if db.senders[k].userId != userId {
      return NotOwner;
    }
    var labelId := db.users[user.value].labelId;
    if labelId.None? {
      return NoLabel;
    }
    res := CleanSelected(db, mailbox, limiter, k, userId, senderId, labelId.value, now, attempts, jitter, elapsed);
  }

  /** Every position below n whose label call returned has its thread labelled. */
  ghost predicate RunLabelled(labels: map<string, set<string>>, threads: seq<Thread>, sel: seq<nat>, n: nat,
                              attempts: nat -> nat -> GmailApi.CallOutcome<bool>, labelId: string) {
    forall q :: 0 <= q < n && q < |sel| && sel[q] < |threads| && GmailApi.ExecFrom(attempts(sel[q]), 0).0.Returned? ==>
      Labelled(labels, threads[sel[q]].threadId, labelId)
  }

  /** The part of `clean_sender` after its checks: the selected threads are deleted as
      SenderRun says and, when the loop finishes, `last_cleaned` of the sender row k is set. */
  method CleanSelected(db: MailDb, mailbox: GmailApi.Mailbox, limiter: GmailApi.RateLimiter, k: nat,
                       userId: nat, senderId: nat, labelId: string, now: int,
                       attempts: nat -> nat -> GmailApi.CallOutcome<bool>,
                       jitter: nat -> nat -> nat, elapsed: nat -> nat -> nat)
    returns (res: CleanOutcome)
    requires k < |db.senders|
    requires forall j, i :: jitter(j)(i) < GmailApi.JitterBound
    modifies db`threads, db`senders, mailbox`threadLabels, limiter
    ensures var sel := Selection(old(db.threads), userId, senderId, now);
      var noAddress := AddressesOf(db.addresses, senderId) == [];
      var run := SenderRun(sel, attempts, noAddress, 0);
      && res == run.1
      && MarkedExactly(old(db.threads), db.threads, sel[..run.0])
      && RunLabelled(mailbox.threadLabels, old(db.threads), sel, run.0, attempts, labelId)
      && (res.Cleaned? <==> (forall q :: 0 <= q < |sel| ==> !CallRaises(sel, attempts, q)) && !(noAddress && |sel| >= 100))
    ensures res.ApiRaised? || res.NoAddressToLog? || res.Cleaned?
    ensures res.Cleaned? ==> db.senders == old(db.senders)[k := old(db.senders)[k].(lastCleaned := Some(now))]
    ensures !res.Cleaned? ==> db.senders == old(db.senders)
    ensures OnlyMarked(old(db.threads), db.threads, Selection(old(db.threads), userId, senderId, now))
    ensures res.Cleaned? ==> forall j :: 0 <= j < |db.threads| && j in Selection(old(db.threads), userId, senderId, now) ==> db.threads[j].deleted == Some(true)
  {
    var sel := Selection(db.threads, userId, senderId, now);
    SelectionMeaning(db.threads, userId, senderId, now);
    assert forall p :: 0 <= p < |sel| ==> sel[p] in sel;
    SelectionDistinct(db.threads, userId, senderId, now);
    ghost var noAddress := AddressesOf(db.addresses, senderId) == [];
    SenderRunCleaned(sel, attempts, noAddress);
    SenderRunMeaning(sel, attempts, noAddress, 0);
    ghost var before := db.threads;
    res := DeleteAll(db, mailbox, limiter, sel, labelId, senderId, attempts, jitter, elapsed);
    ExactlyWithin(before, db.threads, sel, SenderRun(sel, attempts, noAddress, 0).0);
    if !res.Cleaned? {
      return;
    }
    db.senders := db.senders[k := db.senders[k].(lastCleaned := Some(now))];
  }

  /** An exact marking of a prefix of the selection only marks selected rows, and marks all
      of them once the prefix is the whole selection. */
  lemma ExactlyWithin(before: seq<Thread>, after: seq<Thread>, sel: seq<nat>, n: nat)
    requires n <= |sel| && MarkedExactly(before, after, sel[..n])
    ensures OnlyMarked(before, after, sel)
    ensures n == |sel| ==> forall j :: 0 <= j < |after| && j in sel ==> after[j].deleted == Some(true)
  {
    forall j | 0 <= j < |after| && j in sel[..n] ensures j in sel {
      var q :| 0 <= q < n && sel[..n][q] == j;
      assert sel[q] == j;
    }
    if n == |sel| {
      assert sel[..n] == sel;
    }
  }

  /** The eligible rows, in table order, name each row at most once. */
  lemma {:induction false} EligibleRowsOnce(threads: seq<Thread>, n: nat, userId: nat, senderId: nat, now: int)
    requires n <= |threads|
    ensures forall x :: multiset(EligibleRows(threads, n, userId, senderId, now))[x] <= 1
    decreases n
  {
    if n > 0 {
      EligibleRowsOnce(threads, n - 1, userId, senderId, now);
      var prev := EligibleRows(threads, n - 1, userId, senderId, now);
      assert n - 1 !in prev;
    }
  }

  /** A sequence naming each value at most once has no repeated position. */
  lemma OnceDistinct(s: seq<nat>)
    requires forall x :: multiset(s)[x] <= 1
    ensures Distinct(s)
  {
    forall a, b | 0 <= a < b < |s| ensures s[a] != s[b] {
      assert s == s[..b] + s[b..];
      assert s[..b][a] == s[a] && s[b..][0] == s[b];
      assert multiset(s)[s[b]] == multiset(s[..b])[s[b]] + multiset(s[b..])[s[b]];
    }
  }

  /** The selection names each row once. */
  lemma SelectionDistinct(threads: seq<Thread>, userId: nat, senderId: nat, now: int)
    ensures Distinct(Selection(threads, userId, senderId, now))
  {
    EligibleRowsOnce(threads, |threads|, userId, senderId, now);
    OnceDistinct(Selection(threads, userId, senderId, now));
  }

  /** Marking one selected row keeps every other row and every mark made before. */
  lemma MarkedStep(before: seq<Thread>, mid: seq<Thread>, after: seq<Thread>, sel: seq<nat>, p: nat)
    requires p < |sel| && OnlyMarked(before, mid, sel) && MarkedAt(mid, after, sel[p])
    ensures OnlyMarked(before, after, sel)
    ensures forall i :: 0 <= i < |mid| && mid[i].deleted == Some(true) ==> after[i].deleted == Some(true)
  {
    assert sel[p] in sel;
  }

  /** `after` is `before` with exactly the rows in `rows` marked deleted. */
  ghost predicate MarkedExactly(before: seq<Thread>, after: seq<Thread>, rows: seq<nat>) {
    && |after| == |before|
    && forall j :: 0 <= j < |after| ==>
         after[j] == (if j in rows then before[j].(deleted := Some(true)) else before[j])
  }

  /** The thread `threadId` carries the label. */
  predicate Labelled(m: map<string, set<string>>, threadId: string, labelId: string) {
    threadId in m && labelId in m[threadId]
  }

  /** No row appears twice. */
  ghost predicate Distinct(sel: seq<nat>) {
    forall a, b :: 0 <= a < b < |sel| ==> sel[a] != sel[b]
  }

  /** The label call for the row at position q raises. */
  predicate CallRaises(sel: seq<nat>, attempts: nat -> nat -> GmailApi.CallOutcome<bool>, q: nat)
    requires q < |sel|
  {
    GmailApi.ExecFrom(attempts(sel[q]), 0).0.Raised?
  }

  /** After the row at position q the loop logs `Deleted {i+1} threads`. */
  predicate LogsAfter(q: nat) {
    q % 100 == 99
  }

  /** Where the loop of `clean_sender` stops when it starts at position p: how many of the
      rows it marks, and the outcome. A row whose label call raises ends it unmarked; when the
      sender has no address to name, the progress log after a hundredth row raises once that
      row is marked. */
  function SenderRun(sel: seq<nat>, attempts: nat -> nat -> GmailApi.CallOutcome<bool>, noAddress: bool, p: nat)
    : (r: (nat, CleanOutcome))
    requires p <= |sel|
    ensures p <= r.0 <= |sel|
    decreases |sel| - p
  {
    if p == |sel| then (p, Cleaned)
    else match GmailApi.ExecFrom(attempts(sel[p]), 0).0
      case Raised(status) => (p, ApiRaised(status))
      case _ => if LogsAfter(p) && noAddress then (p + 1, NoAddressToLog) else SenderRun(sel, attempts, noAddress, p + 1)
  }

  /** Every row the run marks had a call that did not raise; a raised run stops at the row
      that raised, a log stop right after a hundredth row; and the run finishes exactly when no
      call from p on raises and no progress log is reached without an address. */
  lemma {:induction false} SenderRunMeaning(sel: seq<nat>, attempts: nat -> nat -> GmailApi.CallOutcome<bool>,
                                            noAddress: bool, p: nat)
    requires p <= |sel|
    ensures var r := SenderRun(sel, attempts, noAddress, p);
      && (r.1.ApiRaised? || r.1.NoAddressToLog? || r.1.Cleaned?)
      && (forall q :: p <= q < r.0 ==> !CallRaises(sel, attempts, q))
      && (r.1.ApiRaised? ==> r.0 < |sel| && GmailApi.ExecFrom(attempts(sel[r.0]), 0).0 == GmailApi.Raised(r.1.status))
      && (r.1.NoAddressToLog? ==> noAddress && 0 < r.0 && LogsAfter(r.0 - 1))
      && (r.1.Cleaned? ==> r.0 == |sel|)
      && (r.1.Cleaned? <==> !(noAddress && exists q :: p <= q < |sel| && LogsAfter(q))
                            && forall q :: p <= q < |sel| ==> !CallRaises(sel, attempts, q))
    decreases |sel| - p
  {
    if p < |sel| {
      SenderRunMeaning(sel, attempts, noAddress, p + 1);
      if !CallRaises(sel, attempts, p) && !(LogsAfter(p) && noAddress) {
        assert SenderRun(sel, attempts, noAddress, p) == SenderRun(sel, attempts, noAddress, p + 1);
      }
    }
  }

  /** From the start: the loop finishes exactly when no label call raises and the sender
      either has an address or fewer than a hundred threads. */
  lemma SenderRunCleaned(sel: seq<nat>, attempts: nat -> nat -> GmailApi.CallOutcome<bool>, noAddress: bool)
    ensures SenderRun(sel, attempts, noAddress, 0).1.Cleaned?
        <==> (forall q :: 0 <= q < |sel| ==> !CallRaises(sel, attempts, q)) && !(noAddress && |sel| >= 100)
  {
    SenderRunMeaning(sel, attempts, noAddress, 0);
    if |sel| >= 100 {
      assert LogsAfter(99);
    } else {
      forall q | 0 <= q < |sel| ensures !LogsAfter(q) {
        assert q % 100 == q;
      }
    }
  }

  /** The loop of `clean_sender`: the rows are deleted in order, as SenderRun says, each
      marked row after its label was added (or its call was a bad request). */
  method DeleteAll(db: MailDb, mailbox: GmailApi.Mailbox, limiter: GmailApi.RateLimiter,
                   sel: seq<nat>, labelId: string, senderId: nat,
                   attempts: nat -> nat -> GmailApi.CallOutcome<bool>,
                   jitter: nat -> nat -> nat, elapsed: nat -> nat -> nat)
    returns (res: CleanOutcome)
    requires Distinct(sel)
    requires forall p :: 0 <= p < |sel| ==> sel[p] < |db.threads| && db.threads[sel[p]].deleted != Some(true)
    requires forall j, i :: jitter(j)(i) < GmailApi.JitterBound
    modifies db`threads, mailbox`threadLabels, limiter
    ensures var run := SenderRun(sel, attempts, AddressesOf(db.addresses, senderId) == [], 0);
      && res == run.1
      && MarkedExactly(old(db.threads), db.threads, sel[..run.0])
      && forall q :: 0 <= q < run.0 && GmailApi.ExecFrom(attempts(sel[q]), 0).0.Returned? ==>
                       Labelled(mailbox.threadLabels, old(db.threads)[sel[q]].threadId, labelId)
  {
    ghost var before := db.threads;
    ghost var noAddress := AddressesOf(db.addresses, senderId) == [];
    ghost var run := SenderRun(sel, attempts, noAddress, 0);
    for p := 0 to |sel|
      invariant SenderRun(sel, attempts, noAddress, p) == run
      invariant MarkedExactly(before, db.threads, sel[..p])
      invariant forall q :: 0 <= q < p && GmailApi.ExecFrom(attempts(sel[q]), 0).0.Returned? ==>
                  Labelled(mailbox.threadLabels, before[sel[q]].threadId, labelId)
    {
      var j := sel[p];
      ghost var mid := db.threads;
      ghost var midLabels := mailbox.threadLabels;
      assert j !in sel[..p];
      assert mid[j] == before[j];
      var r := DeleteThread(db, mailbox, limiter, j, labelId, attempts(j), jitter(j), elapsed(j));
      if r.DeleteRaised? {
        return ApiRaised(r.status);
      }
      MarkOne(before, mid, db.threads, sel, p);
      LabelsKept(midLabels, mailbox.threadLabels, before, sel, p, attempts, labelId);
      if p % 100 == 99 && AddressesOf(db.addresses, senderId) == [] {
        return NoAddressToLog;
      }
    }
    res := Cleaned;
  }

  /** Marking the row at position p extends the exact marking by that row. */
  lemma MarkOne(before: seq<Thread>, mid: seq<Thread>, after: seq<Thread>, sel: seq<nat>, p: nat)
    requires p < |sel| && sel[p] < |mid|
    requires MarkedExactly(before, mid, sel[..p]) && sel[p] !in sel[..p]
    requires after == mid[sel[p] := mid[sel[p]].(deleted := Some(true))]
    ensures MarkedExactly(before, after, sel[..p + 1])
  {
    assert sel[..p + 1] == sel[..p] + [sel[p]];
  }

  /** Labels already added stay, and a returned call adds this row's. */
  lemma LabelsKept(midLabels: map<string, set<string>>, labels: map<string, set<string>>, before: seq<Thread>,
                   sel: seq<nat>, p: nat, attempts: nat -> nat -> GmailApi.CallOutcome<bool>, labelId: string)
    requires p < |sel| && forall q :: 0 <= q < |sel| ==> sel[q] < |before|
    requires forall q :: 0 <= q < p && GmailApi.ExecFrom(attempts(sel[q]), 0).0.Returned? ==>
               Labelled(midLabels, before[sel[q]].threadId, labelId)
    requires match GmailApi.ExecFrom(attempts(sel[p]), 0).0
             case Returned(_) => labels == GmailApi.WithLabel(midLabels, before[sel[p]].threadId, labelId)
             case _ => labels == midLabels
    ensures forall q :: 0 <= q < p + 1 && GmailApi.ExecFrom(attempts(sel[q]), 0).0.Returned? ==>
              Labelled(labels, before[sel[q]].threadId, labelId)
  {
  }

  // ---------------------------------------------------------------------------------------
  // One user

  /** The ids of this user's CLEAN senders, in table order. */
  function CleanSenderIds(senders: seq<Sender>, userId: nat): (r: seq<nat>)
    ensures forall x :: x in r <==> exists i :: 0 <= i < |senders| && senders[i].id == x
                                                && senders[i].userId == userId && senders[i].status == Clean
  {
    if senders == [] then []
    else
      var s := senders[|senders| - 1];
      var rest := CleanSenderIds(senders[..|senders| - 1], userId);
      assert forall i :: 0 <= i < |senders| - 1 ==> senders[..|senders| - 1][i] == senders[i];
      rest + (if s.userId == userId && s.status == Clean then [s.id] else [])
  }

  /** Setting `last_cleaned` changes no sender's id, owner or status. */
  ghost predicate OnlyCleanedAt(before: seq<Sender>, after: seq<Sender>, now: int) {
    && |after| == |before|
    && forall i :: 0 <= i < |after| ==> after[i] == before[i] || after[i] == before[i].(lastCleaned := Some(now))
  }

  lemma {:induction false} CleanIdsStay(before: seq<Sender>, after: seq<Sender>, userId: nat, now: int)
    requires OnlyCleanedAt(before, after, now)
    ensures CleanSenderIds(after, userId) == CleanSenderIds(before, userId)
  {
    if before != [] {
      var n := |before| - 1;
      assert OnlyCleanedAt(before[..n], after[..n], now) by {
        forall i | 0 <= i < n ensures after[..n][i] == before[..n][i] || after[..n][i] == before[..n][i].(lastCleaned := Some(now)) {
          assert after[..n][i] == after[i] && before[..n][i] == before[i];
        }
      }
      CleanIdsStay(before[..n], after[..n], userId, now);
    }
  }

  /** `[item for item in senders if item.id not in old_senders]`. */
  function NewSenders(ids: seq<nat>, done: seq<nat>): (r: seq<nat>)
    ensures forall x :: x in r <==> x in ids && x !in done
  {
    if ids == [] then []
    else
      var rest := NewSenders(ids[..|ids| - 1], done);
      var x := ids[|ids| - 1];
      assert ids == ids[..|ids| - 1] + [x];
      rest + (if x !in done then [x] else [])
  }

  /** Once the new senders are remembered, no sender is new any more. */
  lemma NothingNewAfter(ids: seq<nat>, done: seq<nat>)
    ensures NewSenders(ids, done + NewSenders(ids, done)) == []
  {
    NoneNew(ids, done + NewSenders(ids, done));
  }

  lemma {:induction false} NoneNew(ids: seq<nat>, done: seq<nat>)
    requires forall x :: x in ids ==> x in done
    ensures NewSenders(ids, done) == []
  {
    if ids != [] {
      forall x | x in ids[..|ids| - 1] ensures x in done {
        assert x in ids;
      }
      NoneNew(ids[..|ids| - 1], done);
      assert ids[|ids| - 1] in ids;
    }
  }

  /** The user's status row may raise, refuse or admit a cleaning run. */
  predicate GuardRaises(st: UserStatus) {
    st.isCleaning == Some(true) && st.cleaningStart.None?
  }

  predicate Busy(st: UserStatus, now: int) {
    st.isCleaning == Some(true) && st.cleaningStart.Some? && st.cleaningStart.value > now - CleaningWindow
  }

  datatype RunOutcome = NoUser | NoStatus | GuardRaised | AlreadyCleaning | Finished | StillRunning

  /** The guard of `clean_email_for_user`: a missing user or status row, a run marked as
      cleaning without a start time (Python raises comparing None), and a run started within
      the last 7200 s all stop it before anything changes. */
  function Admission(users: seq<GoogleUser>, statuses: seq<UserStatus>, userId: nat, now: int): (r: RunOutcome)
    ensures r in {NoUser, NoStatus, GuardRaised, AlreadyCleaning, Finished}
    ensures r.Finished? ==> FirstWhere(statuses, StatusOf(userId)).Some?
    ensures r.Finished? <==> FirstWhere(users, IdIs(userId)).Some? && FirstWhere(statuses, StatusOf(userId)).Some?
                             && var st := statuses[FirstWhere(statuses, StatusOf(userId)).value];
                                !GuardRaises(st) && !Busy(st, now)
  {
    if FirstWhere(users, IdIs(userId)).None? then NoUser
    else match FirstWhere(statuses, StatusOf(userId))
      case None => NoStatus
      case Some(j) =>
        if GuardRaises(statuses[j]) then GuardRaised
        else if Busy(statuses[j], now) then AlreadyCleaning
        else Finished
  }

  /** The status row while cleaning: `is_cleaning` set and `cleaning_start` now. */
  function Started(st: UserStatus, now: int): UserStatus {
    st.(isCleaning := Some(true), cleaningStart := Some(now))
  }

  /** The `finally` block: `is_cleaning` reset and the deleted count stored in the data. */
  function Ended(st: UserStatus, deleted: nat): UserStatus {
    st.(isCleaning := Some(false), data := st.data["deleted_emails" := deleted])
  }

  /** Every thread changed by cleaning was this user's, under one of `ids`, and is now
      marked deleted. */
  ghost predicate MarkedUnder(before: seq<Thread>, after: seq<Thread>, userId: nat, ids: seq<nat>) {
    && |after| == |before|
    && forall j :: 0 <= j < |after| ==>
         after[j] == before[j]
         || (after[j] == before[j].(deleted := Some(true)) && before[j].userId == userId && before[j].senderId in ids)
  }

  /** No two sender rows share an id. */
  ghost predicate SenderIdsUnique(senders: seq<Sender>) {
    forall a, b :: 0 <= a < b < |senders| ==> senders[a].id != senders[b].id
  }

  /** No label call raises. */
  ghost predicate NoCallRaises(attempts: nat -> nat -> GmailApi.CallOutcome<bool>) {
    forall j: nat :: !GmailApi.ExecFrom(attempts(j), 0).0.Raised?
  }

  /** What lets every `clean_sender` of a round finish: the user has a label id, sender ids
      are unique, every sender of the round is the user's and has an address, and no label
      call raises. */
  ghost predicate RoundReady(users: seq<GoogleUser>, senders: seq<Sender>, addresses: seq<SenderAddress>,
                             userId: nat, ids: seq<nat>, attempts: nat -> nat -> GmailApi.CallOutcome<bool>) {
    && FirstWhere(users, IdIs(userId)).Some? && users[FirstWhere(users, IdIs(userId)).value].labelId.Some?
    && SenderIdsUnique(senders)
    && (forall s :: s in ids ==> exists i :: 0 <= i < |senders| && senders[i].id == s && senders[i].userId == userId)
    && (forall s :: s in ids ==> AddressesOf(addresses, s) != [])
    && NoCallRaises(attempts)
  }

  /** Every thread of the user that was eligible under one of `ids` is now deleted, and every
      sender row with one of `ids` has been cleaned now. */
  ghost predicate SendersCleaned(threads0: seq<Thread>, threads: seq<Thread>, senders0: seq<Sender>, senders: seq<Sender>,
                                 userId: nat, ids: seq<nat>, now: int) {
    && (forall s, j :: s in ids && 0 <= j < |threads0| && j < |threads| && Eligible(threads0[j], userId, s, now) ==>
          threads[j].deleted == Some(true))
    && (forall i :: 0 <= i < |senders0| && i < |senders| && senders0[i].id in ids ==> senders[i].lastCleaned == Some(now))
  }

  /** One round: `clean_sender` for each of the given senders. When the round is ready, each
      of them finishes: its eligible threads are deleted and its `last_cleaned` set. */
  method CleanRound(db: MailDb, mailbox: GmailApi.Mailbox, limiter: GmailApi.RateLimiter,
                    userId: nat, ids: seq<nat>, now: int,
                    attempts: nat -> nat -> GmailApi.CallOutcome<bool>,
                    jitter: nat -> nat -> nat, elapsed: nat -> nat -> nat)
    requires forall j, i :: jitter(j)(i) < GmailApi.JitterBound
    modifies db`threads, db`senders, mailbox`threadLabels, limiter
    ensures OnlyCleanedAt(old(db.senders), db.senders, now)
    ensures MarkedUnder(old(db.threads), db.threads, userId, ids)
    ensures RoundReady(db.users, old(db.senders), db.addresses, userId, ids, attempts) ==>
              SendersCleaned(old(db.threads), db.threads, old(db.senders), db.senders, userId, ids, now)
  {
    ghost var threads0 := db.threads;
    ghost var senders0 := db.senders;
    ghost var ready := RoundReady(db.users, db.senders, db.addresses, userId, ids, attempts);
    for p := 0 to |ids|
      invariant OnlyCleanedAt(senders0, db.senders, now)
      invariant MarkedUnder(threads0, db.threads, userId, ids)
      invariant ready ==> SendersCleaned(threads0, db.threads, senders0, db.senders, userId, ids[..p], now)
    {
      ghost var mid := db.threads;
      ghost var midSenders := db.senders;
      ghost var i: nat := 0;
      if ready {
        assert ids[p] in ids;
        i :| 0 <= i < |senders0| && senders0[i].id == ids[p] && senders0[i].userId == userId;
        SenderFound(senders0, db.senders, ids[p], i, now);
      }
      var res := CleanSender(db, mailbox, limiter, userId, ids[p], now, attempts, jitter, elapsed);
      if ready {
        NoRaiseAnywhere(Selection(mid, userId, ids[p], now), attempts);
        assert res.Cleaned?;
        StepCleaned(threads0, mid, db.threads, senders0, midSenders, db.senders, userId, ids, p, i, now);
      }
      MarkedBySender(mid, db.threads, userId, ids[p], now);
      MarkedUnderThen(threads0, mid, db.threads, userId, ids, [ids[p]]);
      OnlyCleanedThen(senders0, midSenders, db.senders, now);
    }
    assert ids[..|ids|] == ids;
  }

  /** Setting `last_cleaned` keeps ids and owners, so with unique ids the sender row i is the
      one `session.get` finds. */
  lemma SenderFound(senders0: seq<Sender>, senders: seq<Sender>, s: nat, i: nat, now: int)
    requires SenderIdsUnique(senders0) && OnlyCleanedAt(senders0, senders, now)
    requires i < |senders0| && senders0[i].id == s
    ensures FirstWhere(senders, Stats.SenderIdIs(s)) == Some(i)
    ensures senders[i].userId == senders0[i].userId
  {
    assert Stats.SenderIdIs(s)(senders[i]);
    var k := FirstWhere(senders, Stats.SenderIdIs(s)).value;
    assert senders[k].id == senders0[k].id;
  }

  /** With no label call raising, no position of a selection raises. */
  lemma NoRaiseAnywhere(sel: seq<nat>, attempts: nat -> nat -> GmailApi.CallOutcome<bool>)
    requires NoCallRaises(attempts)
    ensures forall q :: 0 <= q < |sel| ==> !CallRaises(sel, attempts, q)
  {
    forall q | 0 <= q < |sel| ensures !CallRaises(sel, attempts, q) {
      assert !GmailApi.ExecFrom(attempts(sel[q]), 0).0.Raised?;
    }
  }

  /** A finished `clean_sender` for ids[p] extends the cleaned senders by it: its threads that
      were eligible at the start are either already marked or still eligible, hence selected. */
  lemma StepCleaned(threads0: seq<Thread>, mid: seq<Thread>, after: seq<Thread>,
                    senders0: seq<Sender>, midSenders: seq<Sender>, afterSenders: seq<Sender>,
                    userId: nat, ids: seq<nat>, p: nat, i: nat, now: int)
    requires p < |ids| && i < |senders0| && senders0[i].id == ids[p] && SenderIdsUnique(senders0)
    requires MarkedUnder(threads0, mid, userId, ids)
    requires SendersCleaned(threads0, mid, senders0, midSenders, userId, ids[..p], now)
    requires OnlyMarked(mid, after, Selection(mid, userId, ids[p], now))
    requires forall j :: 0 <= j < |after| && j in Selection(mid, userId, ids[p], now) ==> after[j].deleted == Some(true)
    requires OnlyCleanedAt(senders0, midSenders, now) && i < |midSenders|
    requires afterSenders == midSenders[i := midSenders[i].(lastCleaned := Some(now))]
    ensures SendersCleaned(threads0, after, senders0, afterSenders, userId, ids[..p + 1], now)
  {
    SelectionMeaning(mid, userId, ids[p], now);
    assert ids[..p + 1] == ids[..p] + [ids[p]];
    forall s, j | s in ids[..p + 1] && 0 <= j < |threads0| && j < |after| && Eligible(threads0[j], userId, s, now)
      ensures after[j].deleted == Some(true)
    {
      if s in ids[..p] {
        assert mid[j].deleted == Some(true);
      } else if mid[j] == threads0[j] {
        assert j in Selection(mid, userId, ids[p], now);
      }
    }
    forall i' | 0 <= i' < |senders0| && i' < |afterSenders| && senders0[i'].id in ids[..p + 1]
      ensures afterSenders[i'].lastCleaned == Some(now)
    {
      if i' != i {
        assert senders0[i'].id != senders0[i].id;
        assert senders0[i'].id in ids[..p];
      }
    }
  }

  /** A sender's cleaning only marks that user's threads under that sender. */
  lemma MarkedBySender(before: seq<Thread>, after: seq<Thread>, userId: nat, senderId: nat, now: int)
    requires OnlyMarked(before, after, Selection(before, userId, senderId, now))
    ensures MarkedUnder(before, after, userId, [senderId])
  {
    SelectionMeaning(before, userId, senderId, now);
    forall j | 0 <= j < |after| && after[j] != before[j]
      ensures before[j].userId == userId && before[j].senderId in [senderId]
    {
      assert Eligible(before[j], userId, senderId, now);
    }
  }

  /** Marks under a subset of the senders, after earlier marks, stay marks under the senders. */
  lemma MarkedUnderThen(before: seq<Thread>, mid: seq<Thread>, after: seq<Thread>, userId: nat,
                        ids: seq<nat>, sub: seq<nat>)
    requires MarkedUnder(before, mid, userId, ids) && MarkedUnder(mid, after, userId, sub)
    requires forall x :: x in sub ==> x in ids
    ensures MarkedUnder(before, after, userId, ids)
  {
    forall j | 0 <= j < |after|
      ensures after[j] == before[j]
              || (after[j] == before[j].(deleted := Some(true)) && before[j].userId == userId && before[j].senderId in ids)
    {
      if after[j] != mid[j] {
        assert mid[j].senderId in sub;
      }
    }
  }

  lemma OnlyCleanedThen(before: seq<Sender>, mid: seq<Sender>, after: seq<Sender>, now: int)
    requires OnlyCleanedAt(before, mid, now) && OnlyCleanedAt(mid, after, now)
    ensures OnlyCleanedAt(before, after, now)
  {
    forall i | 0 <= i < |after|
      ensures after[i] == before[i] || after[i] == before[i].(lastCleaned := Some(now))
    {
      assert after[i] == mid[i] || after[i] == mid[i].(lastCleaned := Some(now));
    }
  }

  /** `clean_email_for_user` as it is meant to work: once admitted, the status row is marked
      as cleaning, each CLEAN sender of the user is cleaned once (`old_senders` remembers the
      senders already cleaned, so the next query finds no new one), and the `finally` block
      resets `is_cleaning` and stores the number of deleted threads. Refused runs change
      nothing. */
  method CleanEmailForUser(db: MailDb, mailbox: GmailApi.Mailbox, limiter: GmailApi.RateLimiter,
                           userId: nat, now: int,
                           attempts: nat -> nat -> GmailApi.CallOutcome<bool>,
                           jitter: nat -> nat -> nat, elapsed: nat -> nat -> nat)
    returns (res: RunOutcome)
    requires forall j, i :: jitter(j)(i) < GmailApi.JitterBound
    modifies db`threads, db`senders, db`statuses, mailbox`threadLabels, limiter
    ensures res == Admission(db.users, old(db.statuses), userId, now)
    ensures !res.Finished? ==> db.statuses == old(db.statuses) && db.threads == old(db.threads)
                               && db.senders == old(db.senders) && unchanged(limiter)
                               && mailbox.threadLabels == old(mailbox.threadLabels)
    ensures res.Finished? ==> var j := FirstWhere(old(db.statuses), StatusOf(userId)).value;
      db.statuses == old(db.statuses)[j := Ended(Started(old(db.statuses)[j], now), CountWhere(db.threads, Stats.DeletedOf(userId)))]
    ensures MarkedUnder(old(db.threads), db.threads, userId, CleanSenderIds(old(db.senders), userId))
    ensures OnlyCleanedAt(old(db.senders), db.senders, now)
    ensures res.Finished? && RoundReady(db.users, old(db.senders), db.addresses, userId, CleanSenderIds(old(db.senders), userId), attempts) ==>
              SendersCleaned(old(db.threads), db.threads, old(db.senders), db.senders, userId, CleanSenderIds(old(db.senders), userId), now)
  {
    res := Admission(db.users, db.statuses, userId, now);
    if !res.Finished? {
      return;
    }
    var j := FirstWhere(db.statuses, StatusOf(userId)).value;
    db.statuses := db.statuses[j := Started(db.statuses[j], now)];
    CleanAllRounds(db, mailbox, limiter, userId, now, attempts, jitter, elapsed);
    db.statuses := db.statuses[j := Ended(db.statuses[j], CountWhere(db.threads, Stats.DeletedOf(userId)))];
  }

  /** The `while True` loop of clean_email_for_user, corrected: each round cleans the clean
      senders not handled yet, and the loop ends once a round finds none. */
  method CleanAllRounds(db: MailDb, mailbox: GmailApi.Mailbox, limiter: GmailApi.RateLimiter,
                        userId: nat, now: int,
                        attempts: nat -> nat -> GmailApi.CallOutcome<bool>,
                        jitter: nat -> nat -> nat, elapsed: nat -> nat -> nat)
    requires forall j, i :: jitter(j)(i) < GmailApi.JitterBound
    modifies db`threads, db`senders, mailbox`threadLabels, limiter
    ensures MarkedUnder(old(db.threads), db.threads, userId, CleanSenderIds(old(db.senders), userId))
    ensures OnlyCleanedAt(old(db.senders), db.senders, now)
    ensures RoundReady(db.users, old(db.senders), db.addresses, userId, CleanSenderIds(old(db.senders), userId), attempts) ==>
              SendersCleaned(old(db.threads), db.threads, old(db.senders), db.senders, userId, CleanSenderIds(old(db.senders), userId), now)
  {
    var ids0 := CleanSenderIds(db.senders, userId);
    ghost var threads0 := db.threads;
    ghost var senders0 := db.senders;
    ghost var ready := RoundReady(db.users, senders0, db.addresses, userId, ids0, attempts);
    var done: seq<nat> := [];
    while true
      invariant CleanSenderIds(db.senders, userId) == ids0
      invariant OnlyCleanedAt(senders0, db.senders, now)
      invariant MarkedUnder(threads0, db.threads, userId, ids0)
      invariant ready ==> SendersCleaned(threads0, db.threads, senders0, db.senders, userId, done, now)
      decreases |NewSenders(ids0, done)|
    {
      var newIds := NewSenders(CleanSenderIds(db.senders, userId), done);
      if newIds == [] {
        assert forall x :: x in ids0 ==> x in done;
        if ready {
          CleanedAll(threads0, db.threads, senders0, db.senders, userId, done, ids0, now);
        }
        break;
      }
      ghost var mid := db.threads;
      ghost var midSenders := db.senders;
      if ready {
        ReadyStays(db.users, senders0, db.senders, db.addresses, userId, ids0, newIds, attempts, now);
      }
      CleanRound(db, mailbox, limiter, userId, newIds, now, attempts, jitter, elapsed);
      if ready {
        RoundCleaned(threads0, mid, db.threads, senders0, midSenders, db.senders, userId, ids0, done, newIds, now);
      }
      NothingNewAfter(ids0, done);
      CleanIdsStay(midSenders, db.senders, userId, now);
      done := done + newIds;
      MarkedUnderThen(threads0, mid, db.threads, userId, ids0, newIds);
      OnlyCleanedThen(senders0, midSenders, db.senders, now);
    }
  }

  /** A round stays ready on the sender rows as they are after earlier rounds. */
  lemma ReadyStays(users: seq<GoogleUser>, senders0: seq<Sender>, senders: seq<Sender>, addresses: seq<SenderAddress>,
                   userId: nat, ids: seq<nat>, sub: seq<nat>, attempts: nat -> nat -> GmailApi.CallOutcome<bool>, now: int)
    requires RoundReady(users, senders0, addresses, userId, ids, attempts) && OnlyCleanedAt(senders0, senders, now)
    requires forall x :: x in sub ==> x in ids
    ensures RoundReady(users, senders, addresses, userId, sub, attempts)
  {
    forall a, b | 0 <= a < b < |senders| ensures senders[a].id != senders[b].id {
      assert senders[a].id == senders0[a].id && senders[b].id == senders0[b].id;
    }
    forall s | s in sub ensures exists i :: 0 <= i < |senders| && senders[i].id == s && senders[i].userId == userId {
      var i :| 0 <= i < |senders0| && senders0[i].id == s && senders0[i].userId == userId;
      assert senders[i].id == s && senders[i].userId == userId;
    }
  }

  /** A ready round after earlier ones extends the cleaned senders by the round's. */
  lemma RoundCleaned(threads0: seq<Thread>, mid: seq<Thread>, after: seq<Thread>,
                     senders0: seq<Sender>, midSenders: seq<Sender>, afterSenders: seq<Sender>,
                     userId: nat, ids: seq<nat>, done: seq<nat>, newIds: seq<nat>, now: int)
    requires MarkedUnder(threads0, mid, userId, ids) && MarkedUnder(mid, after, userId, newIds)
    requires OnlyCleanedAt(senders0, midSenders, now) && OnlyCleanedAt(midSenders, afterSenders, now)
    requires SendersCleaned(threads0, mid, senders0, midSenders, userId, done, now)
    requires SendersCleaned(mid, after, midSenders, afterSenders, userId, newIds, now)
    ensures SendersCleaned(threads0, after, senders0, afterSenders, userId, done + newIds, now)
  {
    forall s, j | s in done + newIds && 0 <= j < |threads0| && j < |after| && Eligible(threads0[j], userId, s, now)
      ensures after[j].deleted == Some(true)
    {
      if s in done {
        assert mid[j].deleted == Some(true);
      } else if mid[j] == threads0[j] {
        assert Eligible(mid[j], userId, s, now);
      }
    }
    forall i | 0 <= i < |senders0| && i < |afterSenders| && senders0[i].id in done + newIds
      ensures afterSenders[i].lastCleaned == Some(now)
    {
      assert midSenders[i].id == senders0[i].id;
    }
  }

  /** Once every sender is done, all of them are cleaned. */
  lemma CleanedAll(threads0: seq<Thread>, threads: seq<Thread>, senders0: seq<Sender>, senders: seq<Sender>,
                   userId: nat, done: seq<nat>, ids: seq<nat>, now: int)
    requires SendersCleaned(threads0, threads, senders0, senders, userId, done, now)
    requires forall x :: x in ids ==> x in done
    ensures SendersCleaned(threads0, threads, senders0, senders, userId, ids, now)
  {
  }

  /** `clean_email_for_user` as written: `old_senders` stays empty, so every round finds all
      CLEAN senders new again and the loop ends only when the user has none. The model runs at
      most `rounds` rounds and reports StillRunning when they are used up. The `finally` block
      changes the status row loaded through `session` but commits `new_session`, which holds
      no change, so on every path the stored row stays as the start of the run left it:
      marked as cleaning. */
  method CleanEmailForUserAsWritten(db: MailDb, mailbox: GmailApi.Mailbox, limiter: GmailApi.RateLimiter,
                                    userId: nat, now: int,
                                    attempts: nat -> nat -> GmailApi.CallOutcome<bool>,
                                    jitter: nat -> nat -> nat, elapsed: nat -> nat -> nat, rounds: nat)
    returns (res: RunOutcome)
    requires forall j, i :: jitter(j)(i) < GmailApi.JitterBound
    modifies db`threads, db`senders, db`statuses, mailbox`threadLabels, limiter
    ensures var admitted := Admission(db.users, old(db.statuses), userId, now);
      && (!admitted.Finished? ==> res == admitted && db.statuses == old(db.statuses))
      && (admitted.Finished? ==> (res.StillRunning? <==> CleanSenderIds(old(db.senders), userId) != []))
      && (admitted.Finished? ==> res.Finished? || res.StillRunning?)
    ensures res.StillRunning? || res.Finished? ==> var j := FirstWhere(old(db.statuses), StatusOf(userId)).value;
      db.statuses == old(db.statuses)[j := Started(old(db.statuses)[j], now)]
  {
    res := Admission(db.users, db.statuses, userId, now);
    if !res.Finished? {
      return;
    }
    var j := FirstWhere(db.statuses, StatusOf(userId)).value;
    db.statuses := db.statuses[j := Started(db.statuses[j], now)];
    var ids0 := CleanSenderIds(db.senders, userId);
    var oldSenders: seq<nat> := [];
    var round: nat := 0;
    while true
      invariant CleanSenderIds(db.senders, userId) == ids0
      invariant db.statuses == old(db.statuses)[j := Started(old(db.statuses)[j], now)]
      invariant round <= rounds
      decreases rounds - round
    {
      var newIds := NewSenders(CleanSenderIds(db.senders, userId), oldSenders);
      if newIds == [] {
        break;
      }
      if round == rounds {
        assert ids0 != [] by { assert newIds[0] in newIds; }
        return StillRunning;
      }
      ghost var midSenders := db.senders;
      CleanRound(db, mailbox, limiter, userId, newIds, now, attempts, jitter, elapsed);
      CleanIdsStay(midSenders, db.senders, userId, now);
      round := round + 1;
    }
  }

  /** With the `finally` block's change lost, a run that finished leaves the user marked as
      cleaning, so any run started within the next 7200 s is refused. */
  lemma AsWrittenRefusesNextRun(users: seq<GoogleUser>, statuses: seq<UserStatus>, userId: nat, now: int, later: int)
    requires Admission(users, statuses, userId, now).Finished?
    requires now <= later < now + CleaningWindow
    ensures var j := FirstWhere(statuses, StatusOf(userId)).value;
            Admission(users, statuses[j := Started(statuses[j], now)], userId, later) == AlreadyCleaning
  {
    var j := FirstWhere(statuses, StatusOf(userId)).value;
    FirstStays(statuses, userId, j, Started(statuses[j], now));
  }

  /** With the reset stored, the next run is admitted whenever it comes. */
  lemma CorrectedAdmitsNextRun(users: seq<GoogleUser>, statuses: seq<UserStatus>, userId: nat, now: int,
                               deleted: nat, later: int)
    requires Admission(users, statuses, userId, now).Finished?
    ensures var j := FirstWhere(statuses, StatusOf(userId)).value;
            Admission(users, statuses[j := Ended(Started(statuses[j], now), deleted)], userId, later) == Finished
  {
    var j := FirstWhere(statuses, StatusOf(userId)).value;
    FirstStays(statuses, userId, j, Ended(Started(statuses[j], now), deleted));
  }

  /** Replacing the user's first status row by one of the same user keeps it the first. */
  lemma FirstStays(statuses: seq<UserStatus>, userId: nat, j: nat, st: UserStatus)
    requires FirstWhere(statuses, StatusOf(userId)) == Some(j) && st.userId == userId
    ensures FirstWhere(statuses[j := st], StatusOf(userId)) == Some(j)
  {
    assert StatusOf(userId)(statuses[j := st][j]);
    assert forall i :: 0 <= i < j ==> statuses[j := st][i] == statuses[i];
  }

  /** What keeps the as-written loop going: with nothing remembered, every round finds all
      of the user's CLEAN senders new again. */
  lemma {:induction false} AsWrittenFindsAllAgain(ids: seq<nat>)
    ensures NewSenders(ids, []) == ids
  {
    if ids != [] {
      AsWrittenFindsAllAgain(ids[..|ids| - 1]);
      assert ids == ids[..|ids| - 1] + [ids[|ids| - 1]];
    }
  }
}
