/** Statistics: the per-user progress counters, and one sender's totals aggregated from its
    threads address by address, with the gate that decides whether an address would be split
    off. The importance score is a parameter `score`. */
module Stats {
  import opened Wrappers
  import opened Strings
  import opened MailModels

  // ---------------------------------------------------------------------------------------
  // User status

  function DeletedOf(userId: nat): Thread -> bool {
    (t: Thread) => t.userId == userId && t.deleted == Some(true)
  }

  function OwnedBy(userId: nat): Thread -> bool {
    (t: Thread) => t.userId == userId
  }

  function SenderIdIs(id: nat): Sender -> bool {
    (s: Sender) => s.id == id
  }

  /** The join of a thread with its sender: the sender row whose id the thread names. */
  function SenderOf(senders: seq<Sender>, t: Thread): Option<Sender> {
    match FirstWhere(senders, SenderIdIs(t.senderId))
    case Some(k) => Some(senders[k])
    case None => None
  }

  /** Threads not yet deleted (deleted = False) under a CLEAN sender of the same user. */
  function QueuedOf(senders: seq<Sender>, userId: nat): Thread -> bool {
    (t: Thread) => t.userId == userId && t.deleted == Some(false)
                   && SenderOf(senders, t).Some? && SenderOf(senders, t).value.userId == userId
                   && SenderOf(senders, t).value.status == Clean
  }

  /** A deleted thread is not a queued one, so the two counts never exceed the user's count. */
  lemma {:induction false} CountsDisjoint(threads: seq<Thread>, senders: seq<Sender>, userId: nat)
    ensures CountWhere(threads, DeletedOf(userId)) + CountWhere(threads, QueuedOf(senders, userId))
            <= CountWhere(threads, OwnedBy(userId))
  {
    if threads != [] {
      CountsDisjoint(threads[..|threads| - 1], senders, userId);
    }
  }

  /** `compute_user_status`: the three counters on the user's status row; false where the
      user has no status row and Python raises AttributeError. */
  method ComputeUserStatus(db: MailDb, userId: nat) returns (ok: bool)
    modifies db`statuses
    ensures ok <==> FirstWhere(old(db.statuses), StatusOf(userId)).Some?
    ensures !ok ==> db.statuses == old(db.statuses)
    ensures ok ==> var j := FirstWhere(old(db.statuses), StatusOf(userId)).value;
      db.statuses == old(db.statuses)[j := old(db.statuses)[j].(
        deletedEmails := Some(CountWhere(db.threads, DeletedOf(userId))),
        emailCount := Some(CountWhere(db.threads, OwnedBy(userId))),
        toBeDeletedEmails := Some(CountWhere(db.threads, QueuedOf(db.senders, userId))))]
  {
    var found := FirstWhere(db.statuses, StatusOf(userId));
    if found.None? {
      return false;
    }
    var j := found.value;
    var deleted := CountWhere(db.threads, DeletedOf(userId));
    var all := CountWhere(db.threads, OwnedBy(userId));
    var queued := CountWhere(db.threads, QueuedOf(db.senders, userId));
    db.statuses := db.statuses[j := db.statuses[j].(deletedEmails := Some(deleted), emailCount := Some(all),
                                                    toBeDeletedEmails := Some(queued))];
    ok := true;
  }

  /** After `compute_user_status` the deleted and to-be-deleted counters add up to at most
      the e-mail count, which the progress percentage relies on. */
  lemma UserStatusBounded(threads: seq<Thread>, senders: seq<Sender>, userId: nat, st: UserStatus)
    requires st.deletedEmails == Some(CountWhere(threads, DeletedOf(userId)))
    requires st.emailCount == Some(CountWhere(threads, OwnedBy(userId)))
    requires st.toBeDeletedEmails == Some(CountWhere(threads, QueuedOf(senders, userId)))
    ensures st.deletedEmails.value + st.toBeDeletedEmails.value <= st.emailCount.value
  {
    CountsDisjoint(threads, senders, userId);
  }

  // ---------------------------------------------------------------------------------------
  // Sender statistics

  /** How a call of `compute_stats_for_sender` ends. Every failure is an exception the
      function catches and logs: AttributeError (no sender, or a thread without an address),
      ValueError (no primary address), KeyError (an address without statistics), and the
      failing import of `split_address` when an address qualifies for a split. */
  datatype StatsOutcome = SenderMissing | NoThreads | AddressMissing | NoPrimary
                        | StatsMissing(addressId: nat) | SplitFailed(addressId: nat) | Computed

  /** The sender's addresses with `email_count` reset to 0. */
  function ResetCounts(addrs: seq<SenderAddress>, senderId: nat): (r: seq<SenderAddress>)
    ensures |r| == |addrs|
    ensures forall i :: 0 <= i < |r| ==> r[i] == if addrs[i].senderId == senderId then addrs[i].(emailCount := 0) else addrs[i]
  {
    seq(|addrs|, i requires 0 <= i < |addrs| => if addrs[i].senderId == senderId then addrs[i].(emailCount := 0) else addrs[i])
  }

  predicate Considered(s: Sender, t: Thread) {
    t.userId == s.userId && t.senderId == s.id && t.deleted != Some(true)
  }

  /** The sender's threads whose deleted flag is None or False, in table order. */
  function ConsideredThreads(threads: seq<Thread>, s: Sender): (r: seq<Thread>)
    ensures forall t :: t in r ==> t in threads && Considered(s, t)
    ensures forall t :: t in threads && Considered(s, t) ==> t in r
  {
    if threads == [] then []
    else
      var t := threads[|threads| - 1];
      var rest := ConsideredThreads(threads[..|threads| - 1], s);
      assert threads == threads[..|threads| - 1] + [t];
      if Considered(s, t) then rest + [t] else rest
  }

  /** One thread counted into an address's statistics. */
  function Bump(st: AddressStats, t: Thread): AddressStats {
    AddressStats(st.address, st.count + 1,
                 st.deleted + (if t.deleted == Some(true) then 1 else 0),
                 st.important + (if Contains(t.labels, "IMPORTANT") then 1 else 0),
                 st.unread + (if !t.isRead then 1 else 0),
                 st.replied + (if t.hasReplied then 1 else 0))
  }

  function KeyIs(id: nat): ((nat, AddressStats)) -> bool {
    (e: (nat, AddressStats)) => e.0 == id
  }

  function AddressIdIs(id: nat): SenderAddress -> bool {
    (a: SenderAddress) => a.id == id
  }

  /** Each counter of an address is at most its count. */
  predicate Bounded(st: AddressStats) {
    st.deleted <= st.count && st.important <= st.count && st.unread <= st.count && st.replied <= st.count
  }

  /** No address id has two entries. */
  predicate DistinctKeys(es: seq<(nat, AddressStats)>) {
    forall i, j :: 0 <= i < j < |es| ==> es[i].0 != es[j].0
  }

  /** Every entry has counted a thread and its counters are bounded by that count. */
  predicate AllBounded(es: seq<(nat, AddressStats)>) {
    forall i :: 0 <= i < |es| ==> Bounded(es[i].1) && es[i].1.count > 0
  }

  /** Every entry's address id is the address of one of the threads. */
  ghost predicate AllSeen(es: seq<(nat, AddressStats)>, ts: seq<Thread>) {
    forall i :: 0 <= i < |es| ==> SeenIn(es[i].0, ts)
  }

  /** Some thread has the address id. */
  ghost predicate SeenIn(id: nat, ts: seq<Thread>) {
    exists k :: 0 <= k < |ts| && ts[k].senderAddressId == Some(id)
  }

  /** `stats_by_address`: one entry per address id, in the order the ids first appear; None
      where a thread has no address row (AttributeError). */
  function StatsByAddress(ts: seq<Thread>, addrs: seq<SenderAddress>): (r: Option<seq<(nat, AddressStats)>>)
    ensures r.Some? ==> DistinctKeys(r.value) && AllBounded(r.value) && AllSeen(r.value, ts)
  {
    if ts == [] then Some([])
    else
      match StatsByAddress(ts[..|ts| - 1], addrs)
      case None => None
      case Some(es) =>
        AddThreadShape(es, ts, addrs);
        AddThread(es, ts[|ts| - 1], addrs)
  }

  /** One iteration of the loop in `stats_by_address`: the thread is counted into its
      address's entry, which is opened from the address row the first time. */
  function AddThread(es: seq<(nat, AddressStats)>, t: Thread, addrs: seq<SenderAddress>): Option<seq<(nat, AddressStats)>> {
    match t.senderAddressId
    case None => None
    case Some(id) =>
      match FirstWhere(es, KeyIs(id))
      case Some(k) => Some(es[k := (id, Bump(es[k].1, t))])
      case None =>
        match FirstWhere(addrs, AddressIdIs(id))
        case None => None
        case Some(a) => Some(es + [(id, Bump(AddressStats(addrs[a].email, 0, 0, 0, 0, 0), t))])
  }

  /** Counting the last thread keeps the entries' shape. */
  lemma AddThreadShape(es: seq<(nat, AddressStats)>, ts: seq<Thread>, addrs: seq<SenderAddress>)
    requires ts != [] && DistinctKeys(es) && AllBounded(es) && AllSeen(es, ts[..|ts| - 1])
    ensures var r := AddThread(es, ts[|ts| - 1], addrs);
            r.Some? ==> DistinctKeys(r.value) && AllBounded(r.value) && AllSeen(r.value, ts)
  {
    var t := ts[|ts| - 1];
    if t.senderAddressId.Some? {
      var id := t.senderAddressId.value;
      match FirstWhere(es, KeyIs(id))
      case Some(k) =>
        BumpShape(es, k, ts);
      case None =>
        match FirstWhere(addrs, AddressIdIs(id))
        case None =>
        case Some(a) =>
          AppendShape(es, addrs[a].email, ts);
    }
  }

  /** Entries seen among the first threads are seen among all of them. */
  lemma SeenGrows(es: seq<(nat, AddressStats)>, ts: seq<Thread>)
    requires ts != [] && AllSeen(es, ts[..|ts| - 1])
    ensures AllSeen(es, ts)
  {
    forall i | 0 <= i < |es| ensures SeenIn(es[i].0, ts) {
      var k :| 0 <= k < |ts| - 1 && ts[..|ts| - 1][k].senderAddressId == Some(es[i].0);
      assert ts[k] == ts[..|ts| - 1][k];
    }
  }

  /** Counting the last thread into the entry of its address keeps the entries' shape. */
  lemma BumpShape(es: seq<(nat, AddressStats)>, k: nat, ts: seq<Thread>)
    requires ts != [] && k < |es| && ts[|ts| - 1].senderAddressId == Some(es[k].0)
    requires DistinctKeys(es) && AllBounded(es) && AllSeen(es, ts[..|ts| - 1])
    ensures var es' := es[k := (es[k].0, Bump(es[k].1, ts[|ts| - 1]))];
            DistinctKeys(es') && AllBounded(es') && AllSeen(es', ts)
  {
    SeenGrows(es, ts);
  }

  /** Opening an entry for the last thread's new address keeps the entries' shape. */
  lemma AppendShape(es: seq<(nat, AddressStats)>, email: string, ts: seq<Thread>)
    requires ts != [] && ts[|ts| - 1].senderAddressId.Some?
    requires FirstWhere(es, KeyIs(ts[|ts| - 1].senderAddressId.value)).None?
    requires DistinctKeys(es) && AllBounded(es) && AllSeen(es, ts[..|ts| - 1])
    ensures var t := ts[|ts| - 1];
            var es' := es + [(t.senderAddressId.value, Bump(AddressStats(email, 0, 0, 0, 0, 0), t))];
            DistinctKeys(es') && AllBounded(es') && AllSeen(es', ts)
  {
    var id := ts[|ts| - 1].senderAddressId.value;
    assert forall i :: 0 <= i < |es| ==> !KeyIs(id)(es[i]);
    SeenGrows(es, ts);
  }

  /** Once one thread has no address, the whole aggregation fails. */
  lemma {:induction false} MissingStays(ts: seq<Thread>, addrs: seq<SenderAddress>, k: nat)
    requires k <= |ts| && StatsByAddress(ts[..k], addrs).None?
    ensures StatsByAddress(ts, addrs).None?
    decreases |ts| - k
  {
    if k < |ts| {
      assert ts[..k + 1][..k] == ts[..k];
      MissingStays(ts, addrs, k + 1);
    } else {
      assert ts[..k] == ts;
    }
  }

  /** `sum([stat.x for stat in stats_by_address.values()])` for each of the five counters. */
  function SumTotals(es: seq<(nat, AddressStats)>): Totals {
    if es == [] then Totals(0, 0, 0, 0, 0)
    else
      var t := SumTotals(es[..|es| - 1]);
      var s := es[|es| - 1].1;
      Totals(t.sent + s.count, t.unread + s.unread, t.important + s.important, t.replied + s.replied, t.deleted + s.deleted)
  }

  function Unread(t: Thread): bool { !t.isRead }
  function Replied(t: Thread): bool { t.hasReplied }
  function Important(t: Thread): bool { Contains(t.labels, "IMPORTANT") }
  function Deleted(t: Thread): bool { t.deleted == Some(true) }

  /** The five counters taken directly over the threads. */
  function DirectTotals(ts: seq<Thread>): Totals {
    Totals(|ts|, CountWhere(ts, Unread), CountWhere(ts, Important), CountWhere(ts, Replied), CountWhere(ts, Deleted))
  }

  function Plus(a: Totals, st: AddressStats): Totals {
    Totals(a.sent + st.count, a.unread + st.unread, a.important + st.important, a.replied + st.replied, a.deleted + st.deleted)
  }

  function OfThread(t: Thread): AddressStats {
    Bump(AddressStats("", 0, 0, 0, 0, 0), t)
  }

  /** Bumping one entry raises the sums by that thread's contribution. */
  lemma {:induction false} SumAfterBump(es: seq<(nat, AddressStats)>, k: nat, t: Thread)
    requires k < |es|
    ensures SumTotals(es[k := (es[k].0, Bump(es[k].1, t))]) == Plus(SumTotals(es), OfThread(t))
  {
    var es' := es[k := (es[k].0, Bump(es[k].1, t))];
    if k < |es| - 1 {
      assert es'[..|es'| - 1] == es[..|es| - 1][k := (es[k].0, Bump(es[k].1, t))];
      SumAfterBump(es[..|es| - 1], k, t);
    } else {
      assert es'[..|es'| - 1] == es[..|es| - 1];
    }
  }

  /** The sender totals are the direct counts over the considered threads: the sums over
      addresses lose and duplicate nothing. */
  lemma {:induction false} TotalsAreDirect(ts: seq<Thread>, addrs: seq<SenderAddress>)
    requires StatsByAddress(ts, addrs).Some?
    ensures SumTotals(StatsByAddress(ts, addrs).value) == DirectTotals(ts)
  {
    if ts != [] {
      TotalsAreDirect(ts[..|ts| - 1], addrs);
      SumStep(ts, addrs);
      DirectStep(ts);
    }
  }

  /** One more thread raises the sums over addresses by its own contribution. */
  lemma SumStep(ts: seq<Thread>, addrs: seq<SenderAddress>)
    requires ts != [] && StatsByAddress(ts, addrs).Some?
    ensures StatsByAddress(ts[..|ts| - 1], addrs).Some?
    ensures SumTotals(StatsByAddress(ts, addrs).value)
            == Plus(SumTotals(StatsByAddress(ts[..|ts| - 1], addrs).value), OfThread(ts[|ts| - 1]))
  {
    SumAddThread(StatsByAddress(ts[..|ts| - 1], addrs).value, ts[|ts| - 1], addrs);
  }

  /** Counting one thread raises the sums by that thread's contribution. */
  lemma SumAddThread(es: seq<(nat, AddressStats)>, t: Thread, addrs: seq<SenderAddress>)
    requires AddThread(es, t, addrs).Some?
    ensures SumTotals(AddThread(es, t, addrs).value) == Plus(SumTotals(es), OfThread(t))
  {
    var id := t.senderAddressId.value;
    match FirstWhere(es, KeyIs(id))
    case Some(k) =>
      SumAfterBump(es, k, t);
    case None =>
      var a := FirstWhere(addrs, AddressIdIs(id)).value;
      SumAfterAppend(es, (id, Bump(AddressStats(addrs[a].email, 0, 0, 0, 0, 0), t)));
  }

  lemma DirectStep(ts: seq<Thread>)
    requires ts != []
    ensures DirectTotals(ts) == Plus(DirectTotals(ts[..|ts| - 1]), OfThread(ts[|ts| - 1]))
  {
  }

  lemma SumAfterAppend(es: seq<(nat, AddressStats)>, e: (nat, AddressStats))
    ensures SumTotals(es + [e]) == Plus(SumTotals(es), e.1)
  {
    assert (es + [e])[..|es|] == es;
  }

  /** No considered thread is deleted, so the deleted total is 0. */
  lemma {:induction false} NoneDeleted(ts: seq<Thread>, s: Sender)
    requires forall t :: t in ts ==> Considered(s, t)
    ensures CountWhere(ts, Deleted) == 0
  {
    if ts != [] {
      NoneDeleted(ts[..|ts| - 1], s);
      assert ts[|ts| - 1] in ts;
    }
  }

  /** An address with statistics whose score exceeds 1 and five times the sender's score. */
  predicate Qualifies(a: SenderAddress, es: seq<(nat, AddressStats)>, top: real, score: AddressStats -> real) {
    match FirstWhere(es, KeyIs(a.id))
    case None => false
    case Some(j) => score(es[j].1) > 1.0 && score(es[j].1) > top * 5.0
  }

  /** An address with statistics that does not qualify. */
  predicate Passes(a: SenderAddress, es: seq<(nat, AddressStats)>, top: real, score: AddressStats -> real) {
    FirstWhere(es, KeyIs(a.id)).Some? && !Qualifies(a, es, top, score)
  }

  /** The split check over the sender's addresses, in order: the first address without
      statistics raises KeyError; the first whose score exceeds 1 and five times the sender's
      score would be split. */
  function SplitScan(own: seq<SenderAddress>, es: seq<(nat, AddressStats)>, top: real, score: AddressStats -> real): (r: StatsOutcome)
    ensures r.Computed? || r.StatsMissing? || r.SplitFailed?
    ensures r.Computed? ==> forall i :: 0 <= i < |own| ==> Passes(own[i], es, top, score)
    ensures r.SplitFailed? ==> exists i :: 0 <= i < |own| && own[i].id == r.addressId && Qualifies(own[i], es, top, score)
    ensures r.StatsMissing? ==> exists i :: 0 <= i < |own| && own[i].id == r.addressId && FirstWhere(es, KeyIs(own[i].id)).None?
  {
    if own == [] then Computed
    else
      var a := own[0];
      assert forall i :: 1 <= i < |own| ==> own[1..][i - 1] == own[i];
      match FirstWhere(es, KeyIs(a.id))
      case None => StatsMissing(a.id)
      case Some(j) =>
        var sc := score(es[j].1);
        if sc > 1.0 && sc > top * 5.0 then SplitFailed(a.id)
        else SplitScan(own[1..], es, top, score)
  }

  /** What `compute_stats_for_sender` leaves behind: how it ended, the address table and the
      sender table. */
  datatype SenderUpdate = SenderUpdate(outcome: StatsOutcome, addresses: seq<SenderAddress>, senders: seq<Sender>)

  function StatsForSender(senders: seq<Sender>, addrs: seq<SenderAddress>, threads: seq<Thread>,
                          senderId: nat, score: AddressStats -> real): SenderUpdate
  {
    match FirstWhere(senders, SenderIdIs(senderId))
    case None => SenderUpdate(SenderMissing, addrs, senders)
    case Some(k) =>
      var s := senders[k];
      var reset := ResetCounts(addrs, s.id);
      var ts := ConsideredThreads(threads, s);
      if ts == [] then SenderUpdate(NoThreads, reset, senders)
      else match StatsByAddress(ts, reset)
        case None => SenderUpdate(AddressMissing, reset, senders)
        case Some(es) =>
          var updated := senders[k := s.(totals := Some(SumTotals(es)))];
          var own := AddressesOf(reset, s.id);
          match GetStats(updated[k], own)
          case None => SenderUpdate(NoPrimary, reset, updated)
          case Some(st) => SenderUpdate(if |own| > 1 then SplitScan(own, es, score(st.1.value), score) else Computed, reset, updated)
  }

  /** What `compute_stats_for_sender` guarantees about the tables: a missing sender changes
      nothing; otherwise every address of the sender has count 0 and the other addresses are
      untouched; with no considered thread, or a thread without an address, the totals are
      left as they were. */
  lemma StatsForSenderTables(senders: seq<Sender>, addrs: seq<SenderAddress>, threads: seq<Thread>,
                             senderId: nat, score: AddressStats -> real)
    ensures var u := StatsForSender(senders, addrs, threads, senderId, score);
      var found := FirstWhere(senders, SenderIdIs(senderId));
      && (u.outcome.SenderMissing? <==> found.None?)
      && (u.outcome.SenderMissing? ==> u.addresses == addrs && u.senders == senders)
      && (found.Some? ==> var s := senders[found.value];
            && (forall i :: 0 <= i < |addrs| && addrs[i].senderId == s.id ==> u.addresses[i].emailCount == 0)
            && (forall i :: 0 <= i < |addrs| && addrs[i].senderId != s.id ==> u.addresses[i] == addrs[i])
            && (u.outcome.NoThreads? <==> ConsideredThreads(threads, s) == [])
            && (u.outcome.NoThreads? || u.outcome.AddressMissing? ==> u.senders == senders))
  {
    var found := FirstWhere(senders, SenderIdIs(senderId));
    if found.Some? {
      var s := senders[found.value];
      var reset := ResetCounts(addrs, s.id);
      var ts := ConsideredThreads(threads, s);
      if ts != [] && StatsByAddress(ts, reset).Some? {
        var es := StatsByAddress(ts, reset).value;
        var updated := senders[found.value := s.(totals := Some(SumTotals(es)))];
        var own := AddressesOf(reset, s.id);
        if GetStats(updated[found.value], own).Some? && |own| > 1 {
          var o := SplitScan(own, es, score(GetStats(updated[found.value], own).value.1.value), score);
          assert !o.NoThreads?;
        }
      }
    }
  }

  /** Once the totals are written, emails_sent is the number of considered threads, every
      counter is the direct count over them, and emails_deleted is 0; a split is looked at
      only for a sender with more than one address. */
  lemma StatsForSenderTotals(senders: seq<Sender>, addrs: seq<SenderAddress>, threads: seq<Thread>,
                             senderId: nat, score: AddressStats -> real)
    requires FirstWhere(senders, SenderIdIs(senderId)).Some?
    requires StatsForSender(senders, addrs, threads, senderId, score).outcome !in {NoThreads, AddressMissing}
    ensures var u := StatsForSender(senders, addrs, threads, senderId, score);
      var k := FirstWhere(senders, SenderIdIs(senderId)).value;
      var ts := ConsideredThreads(threads, senders[k]);
      && u.senders == senders[k := senders[k].(totals := Some(DirectTotals(ts)))]
      && DirectTotals(ts).sent == |ts| > 0 && DirectTotals(ts).deleted == 0
      && (u.outcome.StatsMissing? || u.outcome.SplitFailed? ==> |AddressesOf(addrs, senders[k].id)| > 1)
  {
    var k := FirstWhere(senders, SenderIdIs(senderId)).value;
    var s := senders[k];
    var reset := ResetCounts(addrs, s.id);
    var ts := ConsideredThreads(threads, s);
    TotalsAreDirect(ts, reset);
    NoneDeleted(ts, s);
    OwnAfterReset(addrs, s.id);
  }

  lemma {:induction false} OwnAfterReset(addrs: seq<SenderAddress>, senderId: nat)
    ensures |AddressesOf(ResetCounts(addrs, senderId), senderId)| == |AddressesOf(addrs, senderId)|
  {
    if addrs != [] {
      var pre := addrs[..|addrs| - 1];
      assert ResetCounts(addrs, senderId)[..|addrs| - 1] == ResetCounts(pre, senderId);
      OwnAfterReset(pre, senderId);
    }
  }

  /** With every count just reset to 0, the primary address is the sender's first address. */
  lemma {:induction false} PrimaryAfterReset(own: seq<SenderAddress>)
    requires own != [] && forall i :: 0 <= i < |own| ==> own[i].emailCount == 0
    ensures PrimaryAddress(own) == Some(0)
  {
    if |own| > 1 {
      PrimaryAfterReset(own[..|own| - 1]);
    }
  }

  /** `compute_stats_for_sender` on the database. */
  method ComputeStatsForSender(db: MailDb, senderId: nat, score: AddressStats -> real) returns (o: StatsOutcome)
    modifies db`senders, db`addresses
    ensures SenderUpdate(o, db.addresses, db.senders)
            == StatsForSender(old(db.senders), old(db.addresses), db.threads, senderId, score)
  {
    var found := FirstWhere(db.senders, SenderIdIs(senderId));
    if found.None? {
      return SenderMissing;
    }
    var k := found.value;
    var s := db.senders[k];
    ResetAddressCounts(db, s.id);
    var ts := ConsideredThreads(db.threads, s);
    if ts == [] {
      return NoThreads;
    }
    var es := TallyByAddress(ts, db.addresses);
    if es.None? {
      return AddressMissing;
    }
    db.senders := db.senders[k := s.(totals := Some(SumTotals(es.value)))];
    var own := AddressesOf(db.addresses, s.id);
    var st := GetStats(db.senders[k], own);
    if st.None? {
      return NoPrimary;
    }
    if |own| > 1 {
      o := CheckSplits(own, es.value, score(st.value.1.value), score);
    } else {
      o := Computed;
    }
  }

  /** The reset loop over the sender's addresses. */
  method ResetAddressCounts(db: MailDb, senderId: nat)
    modifies db`addresses
    ensures db.addresses == ResetCounts(old(db.addresses), senderId)
  {
    for k := 0 to |db.addresses|
      invariant |db.addresses| == |old(db.addresses)|
      invariant db.addresses[..k] == ResetCounts(old(db.addresses), senderId)[..k]
      invariant db.addresses[k..] == old(db.addresses)[k..]
    {
      assert db.addresses[k] == old(db.addresses)[k..][0];
      if db.addresses[k].senderId == senderId {
        db.addresses := db.addresses[k := db.addresses[k].(emailCount := 0)];
      }
    }
  }

  /** The thread loop that fills `stats_by_address`. */
  method TallyByAddress(ts: seq<Thread>, addrs: seq<SenderAddress>) returns (r: Option<seq<(nat, AddressStats)>>)
    ensures r == StatsByAddress(ts, addrs)
  {
    var es: seq<(nat, AddressStats)> := [];
    for k := 0 to |ts|
      invariant StatsByAddress(ts[..k], addrs) == Some(es)
    {
      assert ts[..k + 1][..k] == ts[..k];
      var t := ts[k];
      if t.senderAddressId.None? {
        MissingStays(ts, addrs, k + 1);
        return None;
      }
      var id := t.senderAddressId.value;
      var j := FirstWhere(es, KeyIs(id));
      if j.Some? {
        es := es[j.value := (id, Bump(es[j.value].1, t))];
      } else {
        var a := FirstWhere(addrs, AddressIdIs(id));
        if a.None? {
          MissingStays(ts, addrs, k + 1);
          return None;
        }
        es := es + [(id, Bump(AddressStats(addrs[a.value].email, 0, 0, 0, 0, 0), t))];
      }
    }
    assert ts[..|ts|] == ts;
    r := Some(es);
  }

  /** The loop over the sender's addresses that looks for one to split. */
  method CheckSplits(own: seq<SenderAddress>, es: seq<(nat, AddressStats)>, top: real, score: AddressStats -> real)
    returns (o: StatsOutcome)
    ensures o == SplitScan(own, es, top, score)
  {
    for k := 0 to |own|
      invariant SplitScan(own, es, top, score) == SplitScan(own[k..], es, top, score)
    {
      assert own[k..][1..] == own[k + 1..];
      var j := FirstWhere(es, KeyIs(own[k].id));
      if j.None? {
        return StatsMissing(own[k].id);
      }
      var importance := score(es[j.value].1);
      if importance > 1.0 && importance > top * 5.0 {
        return SplitFailed(own[k].id);
      }
    }
    o := Computed;
  }
}
