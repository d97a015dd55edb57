/** The cleanmail tables (users, their status rows, senders, sender addresses, threads), the
    per-address statistics and their fractions, personal-domain detection, and the user
    get-or-create run at login. Times are milliseconds. */
module MailModels {
  import opened Wrappers
  import opened Strings
  import GmailApi

  datatype SenderStatus = StatusNone | Clean | Keep | Later

  /** A user's progress row. `data` is the JSON column; only integer entries are written. */
  datatype UserStatus = UserStatus(id: nat, userId: nat, status: string, data: map<string, int>,
                                   isCleaning: Option<bool>, cleaningStart: Option<int>,
                                   emailCount: Option<nat>, deletedEmails: Option<nat>,
                                   toBeDeletedEmails: Option<nat>)

  /** `cleanmail_label_id` is None until the cleanmail label has been looked up. */
  datatype GoogleUser = GoogleUser(id: nat, email: string, credentials: string, labelId: Option<string>)

  datatype SenderAddress = SenderAddress(id: nat, userId: nat, senderId: nat, email: string,
                                         name: string, emailCount: nat)

  /** The five counters of a sender; None on a sender whose statistics were never computed. */
  datatype Totals = Totals(sent: nat, unread: nat, important: nat, replied: nat, deleted: nat)

  /** A sender as the scanner records it: keyed by user and e-mail address. */
  datatype Sender = Sender(id: nat, userId: nat, email: string, name: string, totals: Option<Totals>,
                           status: SenderStatus, lastCleaned: Option<int>)

  /** A Gmail thread. `labels` is the comma-joined label list; `deleted` is None until the
      thread has been considered for deletion. */
  datatype Thread = Thread(id: nat, threadId: string, isRead: bool, mostRecentDate: Option<int>,
                           senderId: nat, senderAddressId: Option<nat>, hasReplied: bool,
                           isSingleton: bool, isImportant: bool, labels: string,
                           deleted: Option<bool>, userId: nat)

  /** `AddressStats`: counters for one address. */
  datatype AddressStats = AddressStats(address: string, count: nat, deleted: nat, important: nat,
                                       unread: nat, replied: nat)

  const DeletedLabel := "deleted_by_cleanmail2"

  /** `part * 1.0 / whole`; None where Python raises ZeroDivisionError. */
  function Fraction(part: nat, whole: nat): (r: Option<real>)
    ensures r.None? <==> whole == 0
    ensures r.Some? && part <= whole ==> 0.0 <= r.value <= 1.0
    ensures r.Some? && part == whole ==> r.value == 1.0
  {
    if whole == 0 then None
    else
      var q := part as real / whole as real;
      assert q * whole as real == part as real;
      Some(q)
  }

  /** `read_fraction`: one minus the unread share. */
  function ReadFraction(s: AddressStats): (r: Option<real>)
    ensures r.None? <==> s.count == 0
    ensures r.Some? && s.unread <= s.count ==> 0.0 <= r.value <= 1.0
    ensures r.Some? && s.unread == 0 ==> r.value == 1.0
  {
    match Fraction(s.unread, s.count)
    case None => None
    case Some(f) => Some(1.0 - f)
  }

  function RepliedFraction(s: AddressStats): (r: Option<real>)
    ensures r.None? <==> s.count == 0
    ensures r.Some? && s.replied <= s.count ==> 0.0 <= r.value <= 1.0
  {
    Fraction(s.replied, s.count)
  }

  function ImportantFraction(s: AddressStats): (r: Option<real>)
    ensures r.None? <==> s.count == 0
    ensures r.Some? && s.important <= s.count ==> 0.0 <= r.value <= 1.0
  {
    Fraction(s.important, s.count)
  }

  /** The sender fractions, over the stored counters: None where the counters were never
      set (Python raises TypeError) or no e-mail was counted. */
  function SenderReadFraction(s: Sender): (r: Option<real>)
    ensures r.Some? ==> s.totals.Some? && s.totals.value.sent > 0
    ensures r.Some? && s.totals.value.unread <= s.totals.value.sent ==> 0.0 <= r.value <= 1.0
  {
    if s.totals.None? then None
    else match Fraction(s.totals.value.unread, s.totals.value.sent)
      case None => None
      case Some(f) => Some(1.0 - f)
  }

  function SenderRepliedFraction(s: Sender): (r: Option<real>)
    ensures r.Some? ==> s.totals.Some? && s.totals.value.sent > 0
    ensures r.Some? && s.totals.value.replied <= s.totals.value.sent ==> 0.0 <= r.value <= 1.0
  {
    if s.totals.None? then None else Fraction(s.totals.value.replied, s.totals.value.sent)
  }

  function SenderImportantFraction(s: Sender): (r: Option<real>)
    ensures r.Some? ==> s.totals.Some? && s.totals.value.sent > 0
    ensures r.Some? && s.totals.value.important <= s.totals.value.sent ==> 0.0 <= r.value <= 1.0
  {
    if s.totals.None? then None else Fraction(s.totals.value.important, s.totals.value.sent)
  }

  const PersonalDomains: set<string> :=
    {"gmail.com", "yahoo.com", "hotmail.com", "outlook.com", "aol.com", "msn.com", "icloud.com"}

  /** `address.split("@")[1] if "@" in address else address`. */
  function Domain(address: string): (d: string)
    ensures !Contains(address, "@") ==> d == address
  {
    if Contains(address, "@") then
      match SplitPart(address, "@", 1)
      case Some(part) => part
      case None => assert false; address
    else address
  }

  predicate IsPersonalDomain(address: string) {
    Domain(address) in PersonalDomains
  }

  /** A string without the character '@' holds no "@" substring. */
  lemma NoAtNotContained(v: string)
    requires '@' !in v
    ensures !Contains(v, "@")
    ensures forall j :: 0 <= j < |v| ==> !OccursAt(v, "@", j)
  {
    forall j | 0 <= j < |v| ensures !OccursAt(v, "@", j) {
      assert v[j] in v;
      assert v[j..j + 1] == [v[j]];
    }
  }

  /** For an ordinary address local@domain the domain is the part after the "@"; its
      part after a second "@" is dropped. */
  lemma DomainOfAddress(local: string, domain: string)
    requires '@' !in local && '@' !in domain
    ensures Domain(local + "@" + domain) == domain
    ensures IsPersonalDomain(local + "@" + domain) <==> domain in PersonalDomains
  {
    var s := local + "@" + domain;
    NoAtNotContained(domain);
    forall j | 0 <= j < |local| ensures !OccursAt(s, "@", j) {
      assert local[j] in local;
      assert s[j..j + 1] == [local[j]];
    }
    SplitPartOne(local, "@", domain);
    assert s[|local|..|local| + 1] == "@";
    assert Find(s, "@", 0).Some?;
  }

  /** `GmailSender.is_personal_domain`: the loop over the sender's addresses. */
  method SenderIsPersonalDomain(addrs: seq<SenderAddress>) returns (b: bool)
    ensures b <==> exists i :: 0 <= i < |addrs| && IsPersonalDomain(addrs[i].email)
  {
    for i := 0 to |addrs|
      invariant forall j :: 0 <= j < i ==> !IsPersonalDomain(addrs[j].email)
    {
      if Domain(addrs[i].email) in PersonalDomains {
        return true;
      }
    }
    return false;
  }

  /** `max(addresses, key=email_count)`: the index of the first address of largest count;
      None where Python raises ValueError on an empty list. */
  function PrimaryAddress(addrs: seq<SenderAddress>): (r: Option<nat>)
    ensures r.None? <==> addrs == []
    ensures r.Some? ==> r.value < |addrs|
    ensures r.Some? ==> forall j :: 0 <= j < |addrs| ==> addrs[j].emailCount <= addrs[r.value].emailCount
    ensures r.Some? ==> forall j :: 0 <= j < r.value ==> addrs[j].emailCount < addrs[r.value].emailCount
  {
    if addrs == [] then None
    else
      match PrimaryAddress(addrs[..|addrs| - 1])
      case None => Some(0)
      case Some(p) =>
        if addrs[|addrs| - 1].emailCount > addrs[p].emailCount then Some(|addrs| - 1) else Some(p)
  }

  /** `get_stats`: the primary address, with the sender's counters as statistics of that address.
      The second component is None when the counters were never computed: the object is then
      still returned, carrying None in every counter. The whole result is None where `max`
      raises ValueError on a sender with no address. */
  function GetStats(s: Sender, addrs: seq<SenderAddress>): (r: Option<(string, Option<AddressStats>)>)
    ensures r.Some? <==> addrs != []
    ensures r.Some? ==> exists k :: 0 <= k < |addrs| && r.value.0 == addrs[k].email
                          && (forall j :: 0 <= j < |addrs| ==> addrs[j].emailCount <= addrs[k].emailCount)
    ensures r.Some? ==> (r.value.1.Some? <==> s.totals.Some?)
    ensures r.Some? && r.value.1.Some? ==>
      var st := r.value.1.value;
      st.address == r.value.0
      && st.count == s.totals.value.sent && st.unread == s.totals.value.unread
      && st.important == s.totals.value.important
      && st.replied == s.totals.value.replied && st.deleted == s.totals.value.deleted
  {
    match PrimaryAddress(addrs)
    case None => None
    case Some(p) =>
      var email := addrs[p].email;
      if s.totals.None? then Some((email, None))
      else
        var t := s.totals.value;
        Some((email, Some(AddressStats(email, t.sent, t.deleted, t.important, t.unread, t.replied))))
  }

  /** The addresses of one sender, in table order (`sender.addresses`). */
  function AddressesOf(addrs: seq<SenderAddress>, senderId: nat): (r: seq<SenderAddress>)
    ensures |r| <= |addrs|
    ensures forall a :: a in r <==> a in addrs && a.senderId == senderId
  {
    if addrs == [] then []
    else AddressesOf(addrs[..|addrs| - 1], senderId)
         + (if addrs[|addrs| - 1].senderId == senderId then [addrs[|addrs| - 1]] else [])
  }

  function EmailIs(email: string): GoogleUser -> bool {
    (u: GoogleUser) => u.email == email
  }

  function IdIs(id: nat): GoogleUser -> bool {
    (u: GoogleUser) => u.id == id
  }

  function StatusOf(id: nat): UserStatus -> bool {
    (st: UserStatus) => st.userId == id
  }

  /** The normalisation applied before lookup and storage: `email.lower().strip()`. */
  function NormalEmail(email: string): (r: string)
    ensures |r| <= |email|
    ensures r == [] <==> AllSpace(Lower(email))
  {
    Strip(Lower(email))
  }

  /** Lower-casing and stripping twice changes nothing more. */
  lemma NormalEmailIdempotent(email: string)
    ensures NormalEmail(NormalEmail(email)) == NormalEmail(email)
  {
    var l := Lower(email);
    var r := Strip(l);
    assert forall i :: 0 <= i < |r| ==> LowerChar(r[i]) == r[i] by {
      if r != [] {
        assert r == l[LeadingCount(l, IsSpace)..TrailingEnd(l, IsSpace)];
      }
    }
    assert Lower(r) == r;
    if r != [] {
      assert LeadingCount(r, IsSpace) == 0;
      assert TrailingEnd(r, IsSpace) == |r|;
      assert r[0..|r|] == r;
    }
  }

  /** The status row of a new user: id after the user's, "created", with empty data. */
  function NewStatus(userId: nat): (st: UserStatus)
    ensures st.userId == userId && st.status == "created" && st.data == map[]
  {
    UserStatus(userId + 1, userId, "created", map[], None, None, None, None, None)
  }

  /** The database: one sequence per table, and the next id the database hands out. */
  class MailDb {
    var users: seq<GoogleUser>
    var statuses: seq<UserStatus>
    var senders: seq<Sender>
    var addresses: seq<SenderAddress>
    var threads: seq<Thread>
    var nextId: nat

    constructor ()
      ensures users == [] && statuses == [] && senders == [] && addresses == [] && threads == []
    {
      users, statuses, senders, addresses, threads := [], [], [], [], [];
      nextId := 1;
    }

    /** `GoogleUser.get_or_create`: look the normalised address up; an existing user gets the
        new credentials, a new user is stored with a "created" status row and empty data.
        The cleanmail label is looked up in the mailbox (created there if missing) only when
        the user has no label id yet. Returns the user's index. */
    method GetOrCreateUser(mailbox: GmailApi.Mailbox, email: string, credentials: string, serverLabelId: string)
      returns (k: nat)
      modifies this`users, this`statuses, this`nextId, mailbox`labels
      ensures k < |users|
      ensures users[k].email == NormalEmail(email) && users[k].credentials == credentials
      ensures users[k].labelId.Some?
      ensures match FirstWhere(old(users), EmailIs(NormalEmail(email)))
        case Some(j) =>
          k == j && |users| == |old(users)| && statuses == old(statuses)
          && (forall i :: 0 <= i < |users| && i != k ==> users[i] == old(users)[i])
          && users[k].id == old(users)[j].id
        case None =>
          k == |old(users)| && users[..k] == old(users) && users[k].id == old(nextId)
          && statuses == old(statuses) + [NewStatus(old(nextId))]
      ensures var found := FirstWhere(old(users), EmailIs(NormalEmail(email)));
        var labelled := found.Some? && old(users)[found.value].labelId.Some?;
        (labelled ==> users[k].labelId == old(users)[found.value].labelId && mailbox.labels == old(mailbox.labels))
        && (!labelled ==> (mailbox.labels, users[k].labelId.value)
                          == GmailApi.LabelLookup(old(mailbox.labels), DeletedLabel, serverLabelId))
    {
      k := FindOrAddUser(email, credentials);
      AttachLabel(mailbox, k, serverLabelId);
    }

    /** The lookup-or-insert half of `get_or_create`. */
    method FindOrAddUser(email: string, credentials: string) returns (k: nat)
      modifies this`users, this`statuses, this`nextId
      ensures match FirstWhere(old(users), EmailIs(NormalEmail(email)))
        case Some(j) =>
          k == j && users == old(users)[j := old(users)[j].(credentials := credentials)]
          && statuses == old(statuses) && nextId == old(nextId)
        case None =>
          k == |old(users)| && users == old(users) + [GoogleUser(old(nextId), NormalEmail(email), credentials, None)]
          && statuses == old(statuses) + [NewStatus(old(nextId))]
          && nextId == old(nextId) + 2
    {
      var key := NormalEmail(email);
      match FirstWhere(users, EmailIs(key)) {
        case Some(j) =>
          k := j;
          users := users[j := users[j].(credentials := credentials)];
        case None =>
          k := |users|;
          var uid := nextId;
          users := users + [GoogleUser(uid, key, credentials, None)];
          statuses := statuses + [NewStatus(uid)];
          nextId := nextId + 2;
      }
    }

    /** The label half of `get_or_create`: a user without a label id gets the mailbox's
        cleanmail label, which is created there when missing. */
    method AttachLabel(mailbox: GmailApi.Mailbox, k: nat, serverLabelId: string)
      requires k < |users|
      modifies this`users, mailbox`labels
      ensures old(users[k].labelId).Some? ==> users == old(users) && mailbox.labels == old(mailbox.labels)
      ensures old(users[k].labelId).None? ==>
                var (labels, id) := GmailApi.LabelLookup(old(mailbox.labels), DeletedLabel, serverLabelId);
                mailbox.labels == labels && users == old(users)[k := old(users)[k].(labelId := Some(id))]
    {
      if users[k].labelId.None? {
        var labelId := mailbox.GetOrCreateLabelId(DeletedLabel, serverLabelId);
        users := users[k := users[k].(labelId := Some(labelId))];
      }
    }
  }
}
