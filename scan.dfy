/** The thread scanner: one Gmail thread becomes one stored thread row with flags derived
    from its labels and a sender found or created by (user, address); a scan keeps at most
    `max_items` threads per user; per-sender thread statistics are ranked by count. The
    From-header pattern is a parameter `parse`, and random sampling draws from a parameter
    `draw`. */
module Scan {
  import opened Wrappers
  import opened Strings
  import opened Sorting
  import opened MailModels
  import GmailApi

  datatype Header = Header(name: string, value: string)

  /** A message of a thread as the threads.get call returns it; `labelIds` may be absent. */
  datatype GMessage = GMessage(labelIds: Option<seq<string>>, headers: seq<Header>, internalDate: int)

  datatype GThread = GThread(id: string, messages: seq<GMessage>)

  /** What the From-header pattern yields: the display name when there is one, and the address. */
  datatype FromField = FromField(name: Option<string>, email: string)

  predicate Kept(m: GMessage) { m.labelIds.Some? }

  predicate Distinct<T(==)>(s: seq<T>) {
    forall i, j :: 0 <= i < j < |s| ==> s[i] != s[j]
  }

  // ---------------------------------------------------------------------------------------
  // One thread

  /** `labels.add(label)` for each label in turn, on a set kept in first-seen order. */
  function AddLabels(acc: seq<string>, ids: seq<string>): (r: seq<string>)
    ensures forall x :: x in r <==> x in acc || x in ids
    ensures Distinct(acc) ==> Distinct(r)
  {
    if ids == [] then acc
    else
      var rest := AddLabels(acc, ids[..|ids| - 1]);
      var x := ids[|ids| - 1];
      assert ids == ids[..|ids| - 1] + [x];
      if x in rest then rest else rest + [x]
  }

  /** The thread's label set: every label of every message that has `labelIds`. */
  function LabelsOf(ms: seq<GMessage>): (r: seq<string>)
    ensures Distinct(r)
  {
    if ms == [] then []
    else
      var m := ms[|ms| - 1];
      var rest := LabelsOf(ms[..|ms| - 1]);
      if Kept(m) then AddLabels(rest, m.labelIds.value) else rest
  }

  lemma {:induction false} LabelsOfMeaning(ms: seq<GMessage>, x: string)
    ensures x in LabelsOf(ms) <==> exists i :: 0 <= i < |ms| && Kept(ms[i]) && x in ms[i].labelIds.value
  {
    if ms != [] {
      var pre := ms[..|ms| - 1];
      LabelsOfMeaning(pre, x);
      assert forall i :: 0 <= i < |pre| ==> pre[i] == ms[i];
      if x in LabelsOf(ms) {
        if x !in LabelsOf(pre) {
          assert Kept(ms[|ms| - 1]) && x in ms[|ms| - 1].labelIds.value;
        }
      }
    }
  }

  predicate FromParses(h: Header, parse: string -> Option<FromField>) {
    h.name == "From" && parse(h.value).Some?
  }

  /** The inner header loop: the first From header the pattern matches. */
  function FirstParsed(hs: seq<Header>, parse: string -> Option<FromField>): (r: Option<FromField>)
    ensures r.None? <==> forall i :: 0 <= i < |hs| ==> !FromParses(hs[i], parse)
    ensures r.Some? ==> exists i :: 0 <= i < |hs| && FromParses(hs[i], parse) && r == parse(hs[i].value)
                                     && forall j :: 0 <= j < i ==> !FromParses(hs[j], parse)
  {
    if hs == [] then None
    else
      var pre := hs[..|hs| - 1];
      var last := hs[|hs| - 1];
      assert forall i :: 0 <= i < |pre| ==> pre[i] == hs[i];
      var p := FirstParsed(pre, parse);
      if p.Some? then p
      else if FromParses(last, parse) then parse(last.value)
      else None
  }

  /** The From field of the thread: the first matching From header of the first message that
      has one, skipping messages without `labelIds`. */
  function FromOf(ms: seq<GMessage>, parse: string -> Option<FromField>): Option<FromField> {
    if ms == [] then None
    else
      var m := ms[|ms| - 1];
      var p := FromOf(ms[..|ms| - 1], parse);
      if p.Some? then p else if Kept(m) then FirstParsed(m.headers, parse) else None
  }

  /** The headers of the messages that are not skipped, in order. */
  function KeptHeaders(ms: seq<GMessage>): seq<Header> {
    if ms == [] then []
    else
      var m := ms[|ms| - 1];
      KeptHeaders(ms[..|ms| - 1]) + (if Kept(m) then m.headers else [])
  }

  lemma {:induction false} FirstParsedAppend(a: seq<Header>, b: seq<Header>, parse: string -> Option<FromField>)
    ensures FirstParsed(a + b, parse) == if FirstParsed(a, parse).Some? then FirstParsed(a, parse) else FirstParsed(b, parse)
    decreases |b|
  {
    if b != [] {
      var b' := b[..|b| - 1];
      assert (a + b)[..|a + b| - 1] == a + b';
      FirstParsedAppend(a, b', parse);
    } else {
      assert a + b == a;
    }
  }

  /** The sender is the first From header the pattern matches across all kept messages,
      whichever message it is in; later From headers are ignored. */
  lemma {:induction false} FromOfFirstHeader(ms: seq<GMessage>, parse: string -> Option<FromField>)
    ensures FromOf(ms, parse) == FirstParsed(KeptHeaders(ms), parse)
  {
    if ms != [] {
      var m := ms[|ms| - 1];
      FromOfFirstHeader(ms[..|ms| - 1], parse);
      FirstParsedAppend(KeptHeaders(ms[..|ms| - 1]), if Kept(m) then m.headers else [], parse);
    }
  }

  /** The largest `internalDate` of a kept message. */
  function MaxDate(ms: seq<GMessage>): (r: Option<int>)
    ensures r.None? <==> forall i :: 0 <= i < |ms| ==> !Kept(ms[i])
    ensures r.Some? ==> forall i :: 0 <= i < |ms| && Kept(ms[i]) ==> ms[i].internalDate <= r.value
    ensures r.Some? ==> exists i :: 0 <= i < |ms| && Kept(ms[i]) && ms[i].internalDate == r.value
  {
    if ms == [] then None
    else
      var pre := ms[..|ms| - 1];
      var m := ms[|ms| - 1];
      assert forall i :: 0 <= i < |pre| ==> pre[i] == ms[i];
      var d := MaxDate(pre);
      if !Kept(m) then d
      else if d.None? || m.internalDate > d.value then Some(m.internalDate)
      else d
  }

  /** A From field is only found in a kept message, so a thread with a sender has a date. */
  lemma {:induction false} FromHasDate(ms: seq<GMessage>, parse: string -> Option<FromField>)
    requires FromOf(ms, parse).Some?
    ensures MaxDate(ms).Some?
  {
    var m := ms[|ms| - 1];
    var pre := ms[..|ms| - 1];
    if FromOf(pre, parse).Some? {
      FromHasDate(pre, parse);
      assert Kept(pre[0]) || MaxDate(pre).Some?;
    } else {
      assert Kept(m);
    }
  }

  /** What the message loop of `_process_message` accumulates. */
  datatype ThreadSummary = ThreadSummary(labels: seq<string>, from: Option<FromField>, maxDate: Option<int>)

  function SummaryOf(ms: seq<GMessage>, parse: string -> Option<FromField>): ThreadSummary {
    ThreadSummary(LabelsOf(ms), FromOf(ms, parse), MaxDate(ms))
  }

  /** The message loop: messages without `labelIds` are skipped; the rest add their labels,
      offer their From headers while no sender is known, and raise the date. */
  method Summarize(ms: seq<GMessage>, parse: string -> Option<FromField>) returns (s: ThreadSummary)
    ensures s == SummaryOf(ms, parse)
  {
    var labels: seq<string> := [];
    var from: Option<FromField> := None;
    var maxDate: Option<int> := None;
    for k := 0 to |ms|
      invariant labels == LabelsOf(ms[..k])
      invariant from == FromOf(ms[..k], parse)
      invariant maxDate == MaxDate(ms[..k])
    {
      assert ms[..k + 1][..k] == ms[..k];
      var m := ms[k];
      if m.labelIds.None? {
        continue;
      }
      labels := CollectLabels(labels, m.labelIds.value);
      from := ScanHeaders(from, m.headers, parse);
      if maxDate.None? || m.internalDate > maxDate.value {
        maxDate := Some(m.internalDate);
      }
    }
    assert ms[..|ms|] == ms;
    s := ThreadSummary(labels, from, maxDate);
  }

  method CollectLabels(acc: seq<string>, ids: seq<string>) returns (r: seq<string>)
    ensures r == AddLabels(acc, ids)
  {
    r := acc;
    for k := 0 to |ids|
      invariant r == AddLabels(acc, ids[..k])
    {
      assert ids[..k + 1][..k] == ids[..k];
      if ids[k] !in r {
        r := r + [ids[k]];
      }
    }
    assert ids[..|ids|] == ids;
  }

  method ScanHeaders(from: Option<FromField>, hs: seq<Header>, parse: string -> Option<FromField>)
    returns (r: Option<FromField>)
    ensures r == if from.Some? then from else FirstParsed(hs, parse)
  {
    r := from;
    for k := 0 to |hs|
      invariant r == if from.Some? then from else FirstParsed(hs[..k], parse)
    {
      assert hs[..k + 1][..k] == hs[..k];
      if hs[k].name == "From" && r.None? {
        var m := parse(hs[k].value);
        if m.Some? {
          r := m;
        }
      }
    }
    assert hs[..|hs|] == hs;
  }

  // ---------------------------------------------------------------------------------------
  // Storing a thread

  /** The two tables `_process_message` writes, and the next id the database hands out. */
  datatype Tables = Tables(senders: seq<Sender>, threads: seq<Thread>, nextId: nat)

  function ThreadIdIs(id: string): Thread -> bool {
    (t: Thread) => t.threadId == id
  }

  function SenderKey(userId: nat, email: string): Sender -> bool {
    (s: Sender) => s.userId == userId && s.email == email
  }

  /** At most one sender per (user, address). */
  ghost predicate UniqueSenders(ss: seq<Sender>) {
    forall i, j :: 0 <= i < j < |ss| ==> !(ss[i].userId == ss[j].userId && ss[i].email == ss[j].email)
  }

  /** `match.group("name") or from_email`. */
  function DisplayName(f: FromField): string {
    if TruthyStr(f.name) then f.name.value else f.email
  }

  /** The new thread row: read unless UNREAD, replied if SENT, important if IMPORTANT,
      singleton if the thread had one message (skipped ones included). */
  function NewThread(id: nat, t: GThread, s: ThreadSummary, senderId: nat, userId: nat): Thread {
    Thread(id, t.id, "UNREAD" !in s.labels, s.maxDate, senderId, None, "SENT" in s.labels,
           |t.messages| == 1, "IMPORTANT" in s.labels, Join(",", s.labels), None, userId)
  }

  /** `_process_message` on the tables: nothing without a sender; an existing thread id is
      returned as it is; otherwise the sender is found or created and the thread appended. */
  function Process(tb: Tables, userId: nat, t: GThread, parse: string -> Option<FromField>): (r: (Tables, Option<nat>))
    ensures r.1.None? <==> FromOf(t.messages, parse).None?
    ensures r.1.None? ==> r.0 == tb
    ensures r.1.Some? ==> r.1.value < |r.0.threads| && r.0.threads[r.1.value].threadId == t.id
    ensures |tb.threads| <= |r.0.threads| <= |tb.threads| + 1 && r.0.threads[..|tb.threads|] == tb.threads
    ensures |tb.senders| <= |r.0.senders| && r.0.senders[..|tb.senders|] == tb.senders
    ensures UniqueSenders(tb.senders) ==> UniqueSenders(r.0.senders)
    ensures (exists j :: 0 <= j < |tb.threads| && tb.threads[j].threadId == t.id) ==> r.0 == tb
  {
    var s := SummaryOf(t.messages, parse);
    match s.from
    case None => (tb, None)
    case Some(f) =>
      match FirstWhere(tb.threads, ThreadIdIs(t.id))
      case Some(j) => (tb, Some(j))
      case None =>
        var found := FirstWhere(tb.senders, SenderKey(userId, f.email));
        var senders := if found.Some? then tb.senders
                       else tb.senders + [Sender(tb.nextId, userId, f.email, DisplayName(f), None, StatusNone, None)];
        var senderId := if found.Some? then tb.senders[found.value].id else tb.nextId;
        var id := if found.Some? then tb.nextId else tb.nextId + 1;
        (Tables(senders, tb.threads + [NewThread(id, t, s, senderId, userId)], id + 1), Some(|tb.threads|))
  }

  /** A stored thread carries the flags of its label set and the latest date, and points at
      the one sender of this user with the thread's From address. */
  lemma ProcessedThread(tb: Tables, userId: nat, t: GThread, parse: string -> Option<FromField>)
    requires (forall j :: 0 <= j < |tb.threads| ==> tb.threads[j].threadId != t.id)
    requires FromOf(t.messages, parse).Some?
    ensures var (after, r) := Process(tb, userId, t, parse);
      var th := after.threads[|tb.threads|];
      var f := FromOf(t.messages, parse).value;
      && r == Some(|tb.threads|) && |after.threads| == |tb.threads| + 1
      && (th.isRead <==> "UNREAD" !in LabelsOf(t.messages))
      && (th.hasReplied <==> "SENT" in LabelsOf(t.messages))
      && (th.isImportant <==> "IMPORTANT" in LabelsOf(t.messages))
      && (th.isSingleton <==> |t.messages| == 1)
      && th.mostRecentDate == MaxDate(t.messages) && th.mostRecentDate.Some?
      && th.userId == userId && th.deleted.None? && th.senderAddressId.None?
      && exists k :: 0 <= k < |after.senders| && after.senders[k].id == th.senderId
                     && after.senders[k].userId == userId && after.senders[k].email == f.email
  {
    FromHasDate(t.messages, parse);
    var f := FromOf(t.messages, parse).value;
    assert FirstWhere(tb.threads, ThreadIdIs(t.id)).None?;
    var found := FirstWhere(tb.senders, SenderKey(userId, f.email));
    if found.Some? {
      assert (SenderKey(userId, f.email))(tb.senders[found.value]);
    } else {
      var after := Process(tb, userId, t, parse).0;
      assert after.senders[|tb.senders|].email == f.email;
    }
  }

  /** Each label flag holds exactly when some kept message carries the label. */
  lemma LabelFlag(ms: seq<GMessage>, l: string)
    ensures l in LabelsOf(ms) <==> exists i :: 0 <= i < |ms| && Kept(ms[i]) && l in ms[i].labelIds.value
  {
    LabelsOfMeaning(ms, l);
  }

  /** The comma-joined label column contains each label of the set. */
  lemma {:induction false} JoinedHasPart(parts: seq<string>, k: nat)
    requires k < |parts|
    ensures Contains(Join(",", parts), parts[k])
  {
    if |parts| == 1 {
      OccursAtStart(parts[0], []);
    } else if k == 0 {
      OccursAtStart(parts[0], "," + Join(",", parts[1..]));
      assert Join(",", parts) == parts[0] + ("," + Join(",", parts[1..]));
    } else {
      JoinedHasPart(parts[1..], k - 1);
      ContainsInSuffix(parts[0] + ",", Join(",", parts[1..]), parts[k]);
      assert Join(",", parts) == (parts[0] + ",") + Join(",", parts[1..]);
    }
  }

  lemma OccursAtStart(a: string, b: string)
    ensures Contains(a + b, a)
  {
    assert (a + b)[0..|a|] == a;
    assert OccursAt(a + b, a, 0);
  }

  lemma ContainsInSuffix(a: string, b: string, x: string)
    requires Contains(b, x)
    ensures Contains(a + b, x)
  {
    var i := Find(b, x, 0).value;
    assert (a + b)[|a| + i..|a| + i + |x|] == b[i..i + |x|];
    assert OccursAt(a + b, x, |a| + i);
  }

  /** An important thread has "IMPORTANT" in its label column, which is what the statistics
      test. */
  lemma ImportantInColumn(tb: Tables, userId: nat, t: GThread, parse: string -> Option<FromField>)
    requires (forall j :: 0 <= j < |tb.threads| ==> tb.threads[j].threadId != t.id)
    requires FromOf(t.messages, parse).Some?
    ensures var th := Process(tb, userId, t, parse).0.threads[|tb.threads|];
      th.isImportant ==> Contains(th.labels, "IMPORTANT")
  {
    ProcessedThread(tb, userId, t, parse);
    var ls := LabelsOf(t.messages);
    if "IMPORTANT" in ls {
      var k :| 0 <= k < |ls| && ls[k] == "IMPORTANT";
      JoinedHasPart(ls, k);
    }
  }

  /** The threads of a scan processed one after the other. */
  function ProcessEach(tb: Tables, userId: nat, ts: seq<GThread>, parse: string -> Option<FromField>): (r: Tables)
    ensures |tb.threads| <= |r.threads| && r.threads[..|tb.threads|] == tb.threads
    ensures UniqueSenders(tb.senders) ==> UniqueSenders(r.senders)
  {
    if ts == [] then tb
    else Process(ProcessEach(tb, userId, ts[..|ts| - 1], parse), userId, ts[|ts| - 1], parse).0
  }

  ghost predicate Stored(tb: Tables, t: GThread, parse: string -> Option<FromField>) {
    FromOf(t.messages, parse).Some? ==> exists j :: 0 <= j < |tb.threads| && tb.threads[j].threadId == t.id
  }

  /** After a pass every thread with a sender is stored. */
  lemma {:induction false} ProcessEachStores(tb: Tables, userId: nat, ts: seq<GThread>, parse: string -> Option<FromField>)
    ensures forall i :: 0 <= i < |ts| ==> Stored(ProcessEach(tb, userId, ts, parse), ts[i], parse)
  {
    if ts != [] {
      var pre := ts[..|ts| - 1];
      var mid := ProcessEach(tb, userId, pre, parse);
      var (after, r) := Process(mid, userId, ts[|ts| - 1], parse);
      ProcessEachStores(tb, userId, pre, parse);
      forall i | 0 <= i < |ts| ensures Stored(after, ts[i], parse) {
        if i < |pre| {
          assert ts[i] == pre[i];
          if FromOf(ts[i].messages, parse).Some? {
            var j :| 0 <= j < |mid.threads| && mid.threads[j].threadId == ts[i].id;
            assert after.threads[..|mid.threads|][j] == mid.threads[j];
          }
        }
      }
    }
  }

  /** A pass over threads that are all stored changes nothing. */
  lemma {:induction false} ProcessEachStoredIsNoop(tb: Tables, userId: nat, ts: seq<GThread>, parse: string -> Option<FromField>)
    requires forall i :: 0 <= i < |ts| ==> Stored(tb, ts[i], parse)
    ensures ProcessEach(tb, userId, ts, parse) == tb
  {
    if ts != [] {
      var pre := ts[..|ts| - 1];
      assert forall i :: 0 <= i < |pre| ==> pre[i] == ts[i];
      ProcessEachStoredIsNoop(tb, userId, pre, parse);
      assert Stored(tb, ts[|ts| - 1], parse);
    }
  }

  /** Processing the fetched threads a second time, as `scan` does after the thread pool has
      already processed them, changes nothing. */
  lemma SecondPassIsNoop(tb: Tables, userId: nat, ts: seq<GThread>, parse: string -> Option<FromField>)
    ensures var once := ProcessEach(tb, userId, ts, parse);
      ProcessEach(once, userId, ts, parse) == once
  {
    ProcessEachStores(tb, userId, ts, parse);
    ProcessEachStoredIsNoop(ProcessEach(tb, userId, ts, parse), userId, ts, parse);
  }

  /** `_process_message`: returns the index of the thread row, None when no From header
      matched. */
  method ProcessMessage(db: MailDb, userId: nat, t: GThread, parse: string -> Option<FromField>)
    returns (r: Option<nat>)
    modifies db`senders, db`threads, db`nextId
    ensures (Tables(db.senders, db.threads, db.nextId), r)
            == Process(Tables(old(db.senders), old(db.threads), old(db.nextId)), userId, t, parse)
  {
    var s := Summarize(t.messages, parse);
    if s.from.None? {
      return None;
    }
    var f := s.from.value;
    var existing := FirstWhere(db.threads, ThreadIdIs(t.id));
    if existing.Some? {
      return existing;
    }
    var found := FirstWhere(db.senders, SenderKey(userId, f.email));
    var senderId: nat;
    if found.Some? {
      senderId := db.senders[found.value].id;
    } else {
      senderId := db.nextId;
      db.senders := db.senders + [Sender(senderId, userId, f.email, DisplayName(f), None, StatusNone, None)];
      db.nextId := db.nextId + 1;
    }
    r := Some(|db.threads|);
    db.threads := db.threads + [NewThread(db.nextId, t, s, senderId, userId)];
    db.nextId := db.nextId + 1;
  }

  /** `for message in messages: _process_message(user, message)`. */
  method ProcessAll(db: MailDb, userId: nat, ts: seq<GThread>, parse: string -> Option<FromField>)
    modifies db`senders, db`threads, db`nextId
    ensures Tables(db.senders, db.threads, db.nextId)
            == ProcessEach(Tables(old(db.senders), old(db.threads), old(db.nextId)), userId, ts, parse)
  {
    ghost var tb := Tables(db.senders, db.threads, db.nextId);
    for k := 0 to |ts|
      invariant Tables(db.senders, db.threads, db.nextId) == ProcessEach(tb, userId, ts[..k], parse)
    {
      assert ts[..k + 1][..k] == ts[..k];
      var _ := ProcessMessage(db, userId, ts[k], parse);
    }
    assert ts[..|ts|] == ts;
  }

  // ---------------------------------------------------------------------------------------
  // The scan

  function OfUser(userId: nat): Thread -> bool {
    (t: Thread) => t.userId == userId
  }

  /** `random.sample(pool, k)`: k draws without replacement, the i-th taking position
      `draw(i) % len(rest)` of what is left. */
  function Sample(pool: seq<string>, k: nat, draw: nat -> nat, i: nat): (r: seq<string>)
    ensures |r| == Min(k, |pool|)
    ensures multiset(r) <= multiset(pool)
    decreases k
  {
    if k == 0 || pool == [] then []
    else
      var j := draw(i) % |pool|;
      var rest := pool[..j] + pool[j + 1..];
      assert pool == pool[..j] + [pool[j]] + pool[j + 1..];
      [pool[j]] + Sample(rest, k - 1, draw, i + 1)
  }

  /** `if len(message_ids) > max: message_ids = random.sample(message_ids, max)`. */
  function Chosen(ids: seq<string>, max: nat, draw: nat -> nat): (r: seq<string>)
    ensures |r| == Min(max, |ids|)
    ensures multiset(r) <= multiset(ids)
  {
    if |ids| > max then Sample(ids, max, draw, 0) else ids
  }

  datatype ScanResult = AlreadyScanned | ListingFailed | FetchFailed(status: int) | Scanned(threads: seq<GThread>)

  /** `scan`: with `max_items` threads or more already stored nothing is fetched; otherwise
      up to 50 times the remaining room is listed, sampled down to the room, fetched through
      the rate limiter and processed twice (the thread pool, then the loop). */
  method ScanUser(db: MailDb, limiter: GmailApi.RateLimiter, userId: nat, maxItems: int,
                  pages: seq<GmailApi.PageCall<string>>, draw: nat -> nat,
                  attempts: string -> nat -> GmailApi.CallOutcome<GThread>,
                  jitter: nat -> nat -> nat, elapsed: nat -> nat -> nat,
                  parse: string -> Option<FromField>)
    returns (res: ScanResult)
    requires forall k, i :: jitter(k)(i) < GmailApi.JitterBound
    modifies db`senders, db`threads, db`nextId, limiter
    ensures var room := maxItems - CountWhere(old(db.threads), OfUser(userId));
      && (room <= 0 ==> res == AlreadyScanned)
      && (room > 0 ==> match GmailApi.PageAllItems(pages, Some(room * 50))
            case None => res == ListingFailed
            case Some(ids) =>
              match GmailApi.ThreadsFetched(Chosen(ids, room, draw), attempts)
              case Failure(s) => res == FetchFailed(s)
              case Success(ms) => res == Scanned(ms) && |ms| <= room)
    ensures var tb := Tables(old(db.senders), old(db.threads), old(db.nextId));
      Tables(db.senders, db.threads, db.nextId) == if res.Scanned? then ProcessEach(tb, userId, res.threads, parse) else tb
    ensures res.AlreadyScanned? ==> unchanged(limiter)
  {
    var room := maxItems - CountWhere(db.threads, OfUser(userId));
    if room <= 0 {
      return AlreadyScanned;
    }
    var listed := GmailApi.PageAll(pages, Some(room * 50));
    if listed.None? {
      return ListingFailed;
    }
    var ids := Chosen(listed.value, room, draw);
    assert ids[..Min(room, |ids|)] == ids;
    var fetched := GmailApi.ListMessagesByGthreadId(limiter, ids, room, attempts, jitter, elapsed);
    if fetched.Failure? {
      return FetchFailed(fetched.error);
    }
    var ms := fetched.value;
    ghost var tb := Tables(db.senders, db.threads, db.nextId);
    ProcessAll(db, userId, ms, parse);
    ProcessAll(db, userId, ms, parse);
    SecondPassIsNoop(tb, userId, ms, parse);
    res := Scanned(ms);
  }

  // ---------------------------------------------------------------------------------------
  // Sender statistics

  datatype SenderRow = SenderRow(sender: Sender, count: nat, unread: nat, replied: nat, important: nat)

  function OfSender(userId: nat, senderId: nat): Thread -> bool {
    (t: Thread) => t.userId == userId && t.senderId == senderId
  }

  /** The counters of one sender's threads: replied, unread, and "IMPORTANT" as a substring
      of the label column. */
  function Tally(s: Sender, threads: seq<Thread>, userId: nat): (r: SenderRow)
    ensures r.sender == s
    ensures r.count == CountWhere(threads, OfSender(userId, s.id))
    ensures r.unread <= r.count && r.replied <= r.count && r.important <= r.count
  {
    if threads == [] then SenderRow(s, 0, 0, 0, 0)
    else
      var r := Tally(s, threads[..|threads| - 1], userId);
      var t := threads[|threads| - 1];
      if t.userId == userId && t.senderId == s.id then
        SenderRow(s, r.count + 1, r.unread + (if !t.isRead then 1 else 0),
                  r.replied + (if t.hasReplied then 1 else 0),
                  r.important + (if Contains(t.labels, "IMPORTANT") then 1 else 0))
      else r
  }

  /** The rows of the senders of this user that have at least one thread, in table order. */
  function SenderRows(senders: seq<Sender>, threads: seq<Thread>, userId: nat): (r: seq<SenderRow>)
    ensures forall row :: row in r ==> (row.sender in senders && row.sender.userId == userId
                                       && row == Tally(row.sender, threads, userId) && row.count > 0)
    ensures forall s :: s in senders && s.userId == userId && Tally(s, threads, userId).count > 0
                        ==> Tally(s, threads, userId) in r
  {
    if senders == [] then []
    else
      var s := senders[|senders| - 1];
      var rest := SenderRows(senders[..|senders| - 1], threads, userId);
      assert senders == senders[..|senders| - 1] + [s];
      var row := Tally(s, threads, userId);
      if s.userId == userId && row.count > 0 then rest + [row] else rest
  }

  function RowCount(r: SenderRow): real { r.count as real }

  /** `compute_sender_stats`: the rows, sorted by thread count, largest first. */
  function SenderStats(senders: seq<Sender>, threads: seq<Thread>, userId: nat): seq<SenderRow> {
    SortDesc(SenderRows(senders, threads, userId), RowCount)
  }

  /** Every row is a sender of this user with threads and bounded counters; every such
      sender has its row; the rows go from most to fewest threads. */
  lemma SenderStatsMeaning(senders: seq<Sender>, threads: seq<Thread>, userId: nat)
    ensures var rs := SenderStats(senders, threads, userId);
      && (forall row :: row in rs ==> (row.sender in senders && row.sender.userId == userId && row.count > 0
                                     && row.unread <= row.count && row.replied <= row.count && row.important <= row.count))
      && (forall s :: s in senders && s.userId == userId && CountWhere(threads, OfSender(userId, s.id)) > 0
                      ==> Tally(s, threads, userId) in rs)
      && (forall i, j :: 0 <= i < j < |rs| ==> rs[i].count >= rs[j].count)
  {
    var rows := SenderRows(senders, threads, userId);
    var rs := SenderStats(senders, threads, userId);
    assert forall row :: row in rs <==> row in rows by {
      forall row ensures row in rs <==> row in rows {
        assert row in rs <==> row in multiset(rs);
        assert row in rows <==> row in multiset(rows);
      }
    }
    assert SortedDesc(rs, RowCount);
    forall i, j | 0 <= i < j < |rs| ensures rs[i].count >= rs[j].count {
      assert RowCount(rs[i]) >= RowCount(rs[j]);
    }
  }

  method ComputeSenderStats(db: MailDb, userId: nat) returns (rows: seq<SenderRow>)
    ensures rows == SenderStats(db.senders, db.threads, userId)
  {
    var senders := db.senders;
    var threads := db.threads;
    rows := [];
    for k := 0 to |senders|
      invariant rows == SenderRows(senders[..k], threads, userId)
    {
      assert senders[..k + 1][..k] == senders[..k];
      var s := senders[k];
      if s.userId != userId {
        continue;
      }
      var row := TallyThreads(s, threads, userId);
      if row.count == 0 {
        continue;
      }
      rows := rows + [row];
    }
    assert senders[..|senders|] == senders;
    rows := SortDesc(rows, RowCount);
  }

  /** The counting loop over one sender's threads. */
  method TallyThreads(s: Sender, threads: seq<Thread>, userId: nat) returns (row: SenderRow)
    ensures row == Tally(s, threads, userId)
  {
    row := SenderRow(s, 0, 0, 0, 0);
    for k := 0 to |threads|
      invariant row == Tally(s, threads[..k], userId)
    {
      assert threads[..k + 1][..k] == threads[..k];
      var t := threads[k];
      if t.userId == userId && t.senderId == s.id {
        row := row.(count := row.count + 1);
        if t.hasReplied { row := row.(replied := row.replied + 1); }
        if !t.isRead { row := row.(unread := row.unread + 1); }
        if Contains(t.labels, "IMPORTANT") { row := row.(important := row.important + 1); }
      }
    }
    assert threads[..|threads|] == threads;
  }
}
