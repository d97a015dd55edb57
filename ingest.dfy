/** Ingestion of NSF award files and NIH records (grant_search/ingest/ingest.py): the
    XML-to-dict conversion, Ingester construction, download file names, the per-record field
    rules, grantee reuse and the replacement of a data source's grants. */
module Ingest {
  import opened Wrappers
  import opened Strings
  import opened Utf8
  import opened GrantModels
  import Nih

  // ---------------------------------------------------------------- XML to dict

  /** An ElementTree element: tag, attributes in document order, text, children. */
  datatype XmlElement = XmlElement(tag: string, attrib: seq<(string, string)>, text: Option<string>,
                                   children: seq<XmlElement>)

  /** The values _xml_to_dict produces: str, dict (insertion-ordered) or list. */
  datatype XValue = XStr(s: string) | XDict(entries: seq<(string, XValue)>) | XList(items: seq<XValue>)

  type Entries = seq<(string, XValue)>

  function Lookup(es: Entries, k: string): (r: Option<XValue>)
    ensures r.None? <==> forall i :: 0 <= i < |es| ==> es[i].0 != k
  {
    if es == [] then None else if es[0].0 == k then Some(es[0].1) else Lookup(es[1..], k)
  }

  /** d[k] = v: replaces the value of an existing key in place, appends a new key. */
  function Put(es: Entries, k: string, v: XValue): (r: Entries)
    ensures Lookup(r, k) == Some(v)
    ensures forall k' :: k' != k ==> Lookup(r, k') == Lookup(es, k')
    ensures |r| >= |es| && |r| > 0
  {
    if es == [] then [(k, v)]
    else if es[0].0 == k then [(k, v)] + es[1..]
    else [es[0]] + Put(es[1..], k, v)
  }

  /** result.update(element.attrib). */
  function PutAll(es: Entries, attrs: seq<(string, string)>): (r: Entries)
    ensures |r| >= |es| && (attrs != [] ==> |r| > 0)
    decreases attrs
  {
    if attrs == [] then es else PutAll(Put(es, attrs[0].0, XStr(attrs[0].1)), attrs[1..])
  }

  /** The value the last pair with key k gives, as dict.update keeps it. */
  function LastAttr(attrs: seq<(string, string)>, k: string): Option<string> {
    if attrs == [] then None
    else if LastAttr(attrs[1..], k).Some? then LastAttr(attrs[1..], k)
    else if attrs[0].0 == k then Some(attrs[0].1)
    else None
  }

  /** One iteration of the child loop: a first child of this tag is stored as is; a second one
      turns the entry into a list; later ones are appended to it. */
  function AddChild(es: Entries, t: string, v: XValue): Entries {
    match Lookup(es, t)
    case None => Put(es, t, v)
    case Some(XList(items)) => Put(es, t, XList(items + [v]))
    case Some(prev) => Put(es, t, XList([prev, v]))
  }

  /** The child loop over (tag, converted child) pairs. */
  function Fold(es: Entries, kids: seq<(string, XValue)>): (r: Entries)
    ensures |r| >= |es| && (kids != [] ==> |r| > 0)
  {
    if kids == [] then es
    else AddChild(Fold(es, kids[..|kids| - 1]), kids[|kids| - 1].0, kids[|kids| - 1].1)
  }

  /** The converted children with tag t, in document order. */
  function Matching(kids: seq<(string, XValue)>, t: string): seq<XValue> {
    if kids == [] then []
    else Matching(kids[..|kids| - 1], t) + (if kids[|kids| - 1].0 == t then [kids[|kids| - 1].1] else [])
  }

  /** What the dict holds for a tag seen |ms| times: nothing, the one value, or the list. */
  function Expected(ms: seq<XValue>): Option<XValue> {
    if |ms| == 0 then None else if |ms| == 1 then Some(ms[0]) else Some(XList(ms))
  }

  function Text(e: XmlElement): string {
    if e.text.Some? then Strip(e.text.value) else []
  }

  /** _xml_to_dict, on values. */
  function Convert(e: XmlElement): (r: XValue)
    ensures !r.XList?
    decreases e, 1
  {
    var es := Fold(PutAll([], e.attrib), Kids(e));
    var t := Text(e);
    if t != [] then (if es != [] then XDict(Put(es, "text", XStr(t))) else XStr(t))
    else XDict(es)
  }

  /** Each child paired with its tag and its conversion. */
  function Kids(e: XmlElement): (r: seq<(string, XValue)>)
    ensures |r| == |e.children|
    ensures forall i :: 0 <= i < |r| ==> r[i] == (e.children[i].tag, Convert(e.children[i]))
    decreases e, 0
  {
    seq(|e.children|, i requires 0 <= i < |e.children| => (e.children[i].tag, Convert(e.children[i])))
  }

  /** _xml_to_dict as the source runs it: fill `result` in place while walking the children. */
  method XmlToDict(e: XmlElement) returns (r: XValue)
    ensures r == Convert(e)
    decreases e
  {
    var result := PutAll([], e.attrib);
    ghost var start := result;
    ghost var kids := Kids(e);
    assert kids[..0] == [];
    for i := 0 to |e.children|
      invariant result == Fold(start, kids[..i])
    {
      var child := e.children[i];
      var childDict := XmlToDict(child);
      var childTag := child.tag;
      ghost var before := result;
      match Lookup(result, childTag) {
        case None =>
          result := Put(result, childTag, childDict);
        case Some(XList(items)) =>
          result := Put(result, childTag, XList(items + [childDict]));
        case Some(prev) =>
          result := Put(result, childTag, XList([prev, childDict]));
      }
      assert result == AddChild(before, childTag, childDict);
      assert kids[i] == (childTag, childDict);
      FoldStep(start, kids, i);
    }
    assert kids[..|e.children|] == kids;
    var t := Text(e);
    if t != [] {
      if result != [] {
        r := XDict(Put(result, "text", XStr(t)));
      } else {
        r := XStr(t);
      }
    } else {
      r := XDict(result);
    }
  }

  lemma FoldStep(es: Entries, kids: seq<(string, XValue)>, i: nat)
    requires i < |kids|
    ensures Fold(es, kids[..i + 1]) == AddChild(Fold(es, kids[..i]), kids[i].0, kids[i].1)
  {
    assert kids[..i + 1][..i] == kids[..i];
  }

  lemma {:induction false} LookupPutAll(es: Entries, attrs: seq<(string, string)>, k: string)
    ensures Lookup(PutAll(es, attrs), k) == if LastAttr(attrs, k).Some? then Some(XStr(LastAttr(attrs, k).value)) else Lookup(es, k)
    decreases attrs
  {
    if attrs != [] {
      LookupPutAll(Put(es, attrs[0].0, XStr(attrs[0].1)), attrs[1..], k);
    }
  }

  lemma {:induction false} FoldOther(es: Entries, kids: seq<(string, XValue)>, k: string)
    requires forall i :: 0 <= i < |kids| ==> kids[i].0 != k
    ensures Lookup(Fold(es, kids), k) == Lookup(es, k)
  {
    if kids != [] {
      FoldOther(es, kids[..|kids| - 1], k);
    }
  }

  lemma {:induction false} MatchingNotList(kids: seq<(string, XValue)>, t: string)
    requires forall i :: 0 <= i < |kids| ==> !kids[i].1.XList?
    ensures forall i :: 0 <= i < |Matching(kids, t)| ==> !Matching(kids, t)[i].XList?
  {
    if kids != [] {
      MatchingNotList(kids[..|kids| - 1], t);
    }
  }

  /** One more child with tag t extends what the dict holds for t by that child. */
  lemma AddMatching(prev: Entries, t: string, ms: seq<XValue>, v: XValue)
    requires Lookup(prev, t) == Expected(ms)
    requires forall i :: 0 <= i < |ms| ==> !ms[i].XList?
    ensures Lookup(AddChild(prev, t, v), t) == Expected(ms + [v])
  {
    if |ms| == 1 {
      assert !ms[0].XList?;
      assert ms + [v] == [ms[0], v];
    }
  }

  /** After the child loop, a tag that was not an attribute maps to its children's values. */
  lemma {:induction false} FoldLookup(es: Entries, kids: seq<(string, XValue)>, t: string)
    requires Lookup(es, t).None?
    requires forall i :: 0 <= i < |kids| ==> !kids[i].1.XList?
    ensures Lookup(Fold(es, kids), t) == Expected(Matching(kids, t))
  {
    if kids != [] {
      var front := kids[..|kids| - 1];
      var (tag, v) := kids[|kids| - 1];
      FoldLookup(es, front, t);
      var ms := Matching(front, t);
      if tag == t {
        assert Matching(kids, t) == ms + [v];
        MatchingNotList(front, t);
        AddMatching(Fold(es, front), t, ms, v);
      } else {
        assert Matching(kids, t) == ms;
      }
    }
  }

  /** A child tag that is not an attribute name maps to the conversion of its one child, or to
      the list of its children's conversions in document order. */
  lemma ChildTagMapsToChildren(e: XmlElement, t: string)
    requires LastAttr(e.attrib, t).None?
    requires t == "text" ==> Text(e) == []
    requires Matching(Kids(e), t) != []
    ensures Convert(e).XDict?
    ensures Lookup(Convert(e).entries, t) == Expected(Matching(Kids(e), t))
  {
    LookupPutAll([], e.attrib, t);
    FoldLookup(PutAll([], e.attrib), Kids(e), t);
  }

  /** An attribute whose name no child uses is kept, with its value as a string. */
  lemma AttributeKept(e: XmlElement, k: string)
    requires LastAttr(e.attrib, k).Some?
    requires forall i :: 0 <= i < |e.children| ==> e.children[i].tag != k
    requires k == "text" ==> Text(e) == []
    ensures Convert(e).XDict?
    ensures Lookup(Convert(e).entries, k) == Some(XStr(LastAttr(e.attrib, k).value))
  {
    LookupPutAll([], e.attrib, k);
    FoldOther(PutAll([], e.attrib), Kids(e), k);
  }

  /** A leaf with non-blank text becomes that text, stripped. */
  lemma LeafIsText(e: XmlElement)
    requires e.attrib == [] && e.children == [] && Text(e) != []
    ensures Convert(e) == XStr(Text(e))
  {
    assert Kids(e) == [];
  }

  /** With attributes or children, non-blank text is stored under "text". */
  lemma TextStoredUnderKey(e: XmlElement)
    requires Text(e) != [] && (e.attrib != [] || e.children != [])
    ensures Convert(e).XDict?
    ensures Lookup(Convert(e).entries, "text") == Some(XStr(Text(e)))
  { }

  /** Whitespace-only text is ignored. */
  lemma BlankTextIgnored(e: XmlElement)
    requires e.text.Some? && AllSpace(e.text.value)
    ensures Convert(e) == Convert(e.(text := None))
  {
    assert Kids(e) == Kids(e.(text := None));
  }

  /** xml_string_to_dict: ET.fromstring is an input; None where it raises ParseError. */
  function XmlStringToDict(content: string, parseXml: string -> Option<XmlElement>): Option<XValue> {
    match parseXml(content)
    case None => None
    case Some(root) => Some(Convert(root))
  }

  // ---------------------------------------------------------------- Ingester

  /** Why an ingestion step raises. */
  datatype IngestError =
    | SourceRequired | UnsupportedAgency
    | MalformedXml | NotAMapping(key: string) | MissingKey(key: string) | BadDate(key: string)
    | BadAmount | NotStorable(field: string) | ContentNotText | NoYear | BadYear
    | DecompressRaised | DeleteRaised

  /** The validated settings of an Ingester. */
  datatype Config = Config(source: string, agency: string, sourceName: string)

  /** The NIH source: the search API queried for the year named by the source name. */
  function NihSource(sourceName: string): string { Nih.ApiUrl + "?year=" + sourceName }

  /** Ingester.__init__: a source is required unless the agency is NIH (checked first); the
      agency must be NIH or NSF; for NIH the source is replaced by the API query. */
  function NewIngester(sourceName: string, source: Option<string>, agency: string)
    : (r: Result<Config, IngestError>)
    ensures agency != "NIH" && !TruthyStr(source) ==> r == Failure(SourceRequired)
    ensures r.Success? <==> agency == "NIH" || (agency == "NSF" && TruthyStr(source))
    ensures r.Failure? && (agency == "NIH" || TruthyStr(source)) ==> r.error == UnsupportedAgency
    ensures r.Success? ==> r.value.agency == agency && r.value.sourceName == sourceName
    ensures r.Success? ==> r.value.source == if agency == "NIH" then NihSource(sourceName) else source.value
  {
    if agency != "NIH" && !TruthyStr(source) then Failure(SourceRequired)
    else if agency != "NIH" && agency != "NSF" then Failure(UnsupportedAgency)
    else Success(Config(if agency == "NIH" then NihSource(sourceName) else source.value, agency, sourceName))
  }

  /** Every accepted configuration has a non-empty source, so the later `self.source and …`
      test in ingest always goes on to the origin query. */
  lemma ConfigSourceNonEmpty(sourceName: string, source: Option<string>, agency: string)
    requires NewIngester(sourceName, source, agency).Success?
    ensures NewIngester(sourceName, source, agency).value.source != []
  {
    if agency == "NIH" {
      assert NihSource(sourceName)[0] == Nih.ApiUrl[0];
    }
  }

  // ---------------------------------------------------------------- file names

  const Marker := "filename="
  const DefaultFilename := "downloaded_file"

  predicate IsQuote(c: char) { c == '"' }

  /** cd.split("filename=")[1].strip('"') when the header holds "filename=". */
  function HeaderFilename(cd: string): (r: Option<string>)
    ensures r.Some? <==> Contains(cd, Marker)
    ensures r.Some? && r.value != [] ==> !IsQuote(r.value[0]) && !IsQuote(r.value[|r.value| - 1])
  {
    if Contains(cd, Marker) then
      var part := SplitPart(cd, Marker, 1);
      if part.Some? then Some(TrimBy(part.value, IsQuote)) else None
    else None
  }

  /** The file name of a download: the Content-Disposition name, else the basename of the URL
      path, else "downloaded_file". */
  function DownloadFilename(cd: Option<string>, urlPath: string): (r: string)
    ensures r != []
    ensures cd.None? || HeaderFilename(cd.value).None? || HeaderFilename(cd.value) == Some([]) ==>
              r == if Basename(urlPath) != [] then Basename(urlPath) else DefaultFilename
  {
    var fromHeader := if cd.Some? then HeaderFilename(cd.value) else None;
    if fromHeader.Some? && fromHeader.value != [] then fromHeader.value
    else if Basename(urlPath) != [] then Basename(urlPath)
    else DefaultFilename
  }

  /** _get_content's file name: a URL names its file by the download rules, a local path by its
      basename. */
  function ContentFilename(isUrl: bool, source: string, cd: Option<string>, urlPath: string): (r: string)
    ensures !isUrl ==> r == Basename(source)
    ensures isUrl ==> r != []
  {
    if isUrl then DownloadFilename(cd, urlPath) else Basename(source)
  }

  /** The header's name wins: for a header whose first "filename=" is followed by v, the
      name is v without surrounding quotes. */
  lemma HeaderNameWins(pre: string, v: string, urlPath: string)
    requires forall j :: 0 <= j < |pre| ==> !OccursAt(pre + Marker + v, Marker, j)
    requires !Contains(v, Marker)
    requires TrimBy(v, IsQuote) != []
    ensures DownloadFilename(Some(pre + Marker + v), urlPath) == TrimBy(v, IsQuote)
  {
    SplitPartOne(pre, Marker, v);
  }

  // ---------------------------------------------------------------- NSF award fields

  /** value[key] on a converted value: a str or list raises TypeError, a missing key KeyError. */
  function Get(v: XValue, key: string): (r: Result<XValue, IngestError>)
    ensures r.Success? <==> v.XDict? && Lookup(v.entries, key).Some?
    ensures r.Success? ==> r.value == Lookup(v.entries, key).value
  {
    if !v.XDict? then Failure(NotAMapping(key))
    else match Lookup(v.entries, key)
      case None => Failure(MissingKey(key))
      case Some(x) => Success(x)
  }

  /** len(value) == 0 on a converted value. */
  predicate IsEmptyValue(v: XValue) {
    match v
    case XStr(s) => s == []
    case XDict(es) => es == []
    case XList(items) => items == []
  }

  const NoDescription := "No description provided"

  /** An Investigator that is not a list is wrapped in one. */
  function AsList(v: XValue): (r: seq<XValue>)
    ensures v.XList? ==> r == v.items
    ensures !v.XList? ==> r == [v]
  {
    if v.XList? then v.items else [v]
  }

  /** The PI_FULL_NAME of every investigator. A name that is not a str fails the grantee query. */
  function PiNames(xs: seq<XValue>): (r: Result<seq<string>, IngestError>)
    ensures r.Success? <==> forall i :: 0 <= i < |xs| ==> Get(xs[i], "PI_FULL_NAME").Success? && Get(xs[i], "PI_FULL_NAME").value.XStr?
    ensures r.Success? ==> |r.value| == |xs| && forall i :: 0 <= i < |xs| ==> Get(xs[i], "PI_FULL_NAME") == Success(XStr(r.value[i]))
  {
    if xs == [] then Success([])
    else
      var first := Get(xs[0], "PI_FULL_NAME");
      var rest := PiNames(xs[1..]);
      if first.Failure? then Failure(first.error)
      else if !first.value.XStr? then Failure(NotStorable("PI_FULL_NAME"))
      else if rest.Failure? then rest
      else Success([first.value.s] + rest.value)
  }

  /** strptime on the value under `key`: it must be a str in the expected format. */
  function DateOf(v: XValue, key: string, parseDate: string -> Option<Time>): (r: Result<Time, IngestError>)
    ensures r.Success? <==> v.XStr? && parseDate(v.s).Some?
    ensures r.Success? ==> r.value == parseDate(v.s).value
  {
    if v.XStr? && parseDate(v.s).Some? then Success(parseDate(v.s).value) else Failure(BadDate(key))
  }

  /** What process_file reads before it looks up the grantees. awardId, title, amount and the
      description are still converted values; they fail only later. */
  datatype AwardFields = AwardFields(awardId: XValue, title: XValue, startDate: Time, endDate: Time,
                                     amount: XValue, description: XValue, investigators: seq<string>)

  function ReadAward(data: XValue, parseDate: string -> Option<Time>): (r: Result<AwardFields, IngestError>)
  {
    var award :- Get(data, "Award");
    var awardId :- Get(award, "AwardID");
    var title :- Get(award, "AwardTitle");
    var startText :- Get(award, "AwardEffectiveDate");
    var startDate :- DateOf(startText, "AwardEffectiveDate", parseDate);
    var endText :- Get(award, "AwardExpirationDate");
    var endDate :- DateOf(endText, "AwardExpirationDate", parseDate);
    var amount :- Get(award, "AwardAmount");
    var narration :- Get(award, "AbstractNarration");
    var description := if IsEmptyValue(narration) then XStr(NoDescription) else narration;
    var investigators :- Get(award, "Investigator");
    var names :- PiNames(AsList(investigators));
    Success(AwardFields(awardId, title, startDate, endDate, amount, description, names))
  }

  /** The read fields are the award's own, with the description and investigator rules. */
  lemma ReadAwardFields(data: XValue, parseDate: string -> Option<Time>)
    requires ReadAward(data, parseDate).Success?
    ensures var award := Get(data, "Award").value;
            var f := ReadAward(data, parseDate).value;
            && f.awardId == Get(award, "AwardID").value
            && f.title == Get(award, "AwardTitle").value
            && f.amount == Get(award, "AwardAmount").value
            && Get(award, "AwardEffectiveDate").value.XStr?
            && Some(f.startDate) == parseDate(Get(award, "AwardEffectiveDate").value.s)
            && Some(f.endDate) == parseDate(Get(award, "AwardExpirationDate").value.s)
            && (IsEmptyValue(Get(award, "AbstractNarration").value) ==> f.description == XStr(NoDescription))
            && (!IsEmptyValue(Get(award, "AbstractNarration").value) ==> f.description == Get(award, "AbstractNarration").value)
            && PiNames(AsList(Get(award, "Investigator").value)) == Success(f.investigators)
  { }

  /** A single Investigator element gives a one-name list. */
  lemma SingleInvestigatorWrapped(inv: XValue, name: string)
    requires inv.XDict? && Lookup(inv.entries, "PI_FULL_NAME") == Some(XStr(name))
    ensures PiNames(AsList(inv)) == Success([name])
  {
    assert AsList(inv) == [inv];
    assert [inv][1..] == [];
    assert Get(inv, "PI_FULL_NAME") == Success(XStr(name));
    assert PiNames([]) == Success([]);
    assert [name] + [] == [name];
  }

  /** The values the Grant row gets, which fail only after the grantees are committed: float()
      of the amount, and a title, award id or description that is not a str at the commit. */
  function GrantValues(f: AwardFields, parseFloat: string -> Option<real>)
    : (r: Result<(string, string, real, string), IngestError>)
    ensures r.Success? <==> f.amount.XStr? && parseFloat(f.amount.s).Some?
                            && f.awardId.XStr? && f.title.XStr? && f.description.XStr?
    ensures r.Success? ==> r.value == (f.awardId.s, f.title.s, parseFloat(f.amount.s).value, f.description.s)
  {
    if !(f.amount.XStr? && parseFloat(f.amount.s).Some?) then Failure(BadAmount)
    else if !f.awardId.XStr? then Failure(NotStorable("award_id"))
    else if !f.title.XStr? then Failure(NotStorable("title"))
    else if !f.description.XStr? then Failure(NotStorable("description"))
    else Success((f.awardId.s, f.title.s, parseFloat(f.amount.s).value, f.description.s))
  }

  // ---------------------------------------------------------------- grantees

  /** Index of the first grantee with exactly this name (`.filter(Grantee.name == n).first()`). */
  function FindGrantee(gs: seq<Grantee>, name: string): (r: Option<nat>)
    ensures r.Some? ==> r.value < |gs| && gs[r.value].name == name
    ensures r.Some? ==> forall j :: 0 <= j < r.value ==> gs[j].name != name
    ensures r.None? <==> forall j :: 0 <= j < |gs| ==> gs[j].name != name
  {
    FirstWhere(gs, (g: Grantee) => g.name == name)
  }

  /** The name of the grantee with this id, if any. */
  function NameOfId(gs: seq<Grantee>, id: nat): Option<string> {
    if gs == [] then None else if gs[0].id == id then Some(gs[0].name) else NameOfId(gs[1..], id)
  }

  /** Ids come from the counter: all below it, and no two alike. */
  ghost predicate IdsFresh(gs: seq<Grantee>, next: nat) {
    && (forall j :: 0 <= j < |gs| ==> gs[j].id < next)
    && (forall i, j :: 0 <= i < j < |gs| ==> gs[i].id != gs[j].id)
  }

  ghost predicate NamesUnique(gs: seq<Grantee>) {
    forall i, j :: 0 <= i < j < |gs| ==> gs[i].name != gs[j].name
  }

  /** One investigator: reuse the first grantee of that name, or add a new one. */
  function GetOrCreateGrantee(gs: seq<Grantee>, next: nat, name: string): (seq<Grantee>, nat, nat) {
    match FindGrantee(gs, name)
    case Some(j) => (gs, next, gs[j].id)
    case None => (gs + [Grantee(next, name)], next + 1, next)
  }

  /** The grantee loop: seen prefix first, so a repeated name reuses the grantee made for it. */
  function GetOrCreateGrantees(gs: seq<Grantee>, next: nat, names: seq<string>): (r: (seq<Grantee>, nat, seq<nat>))
    ensures |r.2| == |names| && |gs| <= |r.0| && r.0[..|gs|] == gs && next <= r.1
  {
    if names == [] then (gs, next, [])
    else
      var prev := GetOrCreateGrantees(gs, next, names[..|names| - 1]);
      var step := GetOrCreateGrantee(prev.0, prev.1, names[|names| - 1]);
      (step.0, step.1, prev.2 + [step.2])
  }

  lemma {:induction false} NameOfIdAppend(gs: seq<Grantee>, g: Grantee, id: nat)
    requires id != g.id
    ensures NameOfId(gs + [g], id) == NameOfId(gs, id)
  {
    if gs != [] {
      assert (gs + [g])[1..] == gs[1..] + [g];
      NameOfIdAppend(gs[1..], g, id);
    } else {
      assert ([g])[1..] == [];
    }
  }

  lemma {:induction false} NameOfIdAt(gs: seq<Grantee>, next: nat, j: nat)
    requires IdsFresh(gs, next) && j < |gs|
    ensures NameOfId(gs, gs[j].id) == Some(gs[j].name)
  {
    if j > 0 {
      assert IdsFresh(gs[1..], next) by {
        forall a, b | 0 <= a < b < |gs[1..]| ensures gs[1..][a].id != gs[1..][b].id {
          assert gs[1..][a] == gs[a + 1] && gs[1..][b] == gs[b + 1];
        }
      }
      NameOfIdAt(gs[1..], next, j - 1);
    }
  }

  /** One step keeps ids fresh, keeps every earlier id's name, and returns an id of that name. */
  lemma GetOrCreateGranteeStep(gs: seq<Grantee>, next: nat, name: string)
    requires IdsFresh(gs, next)
    ensures var r := GetOrCreateGrantee(gs, next, name);
            && IdsFresh(r.0, r.1)
            && NameOfId(r.0, r.2) == Some(name)
            && KeepsNamesBelow(r.0, gs, next)
            && (NamesUnique(gs) ==> NamesUnique(r.0))
  {
    match FindGrantee(gs, name)
    case Some(j) =>
      NameOfIdAt(gs, next, j);
    case None =>
      var gs' := gs + [Grantee(next, name)];
      forall id: nat | id < next ensures NameOfId(gs', id) == NameOfId(gs, id) {
        NameOfIdAppend(gs, Grantee(next, name), id);
      }
      NameOfIdAt(gs', next + 1, |gs|);
  }

  /** ids[k] is an id of names[k] in gs, for every k. */
  ghost predicate IdsName(gs: seq<Grantee>, ids: seq<nat>, names: seq<string>) {
    |ids| == |names| && forall k :: 0 <= k < |names| ==> NameOfId(gs, ids[k]) == Some(names[k])
  }

  /** Every id below `next` names in gs' what it named in gs. */
  ghost predicate KeepsNamesBelow(gs': seq<Grantee>, gs: seq<Grantee>, next: nat) {
    forall id: nat :: id < next ==> NameOfId(gs', id) == NameOfId(gs, id)
  }

  /** Ids that named the earlier investigators still do after a step that keeps old names. */
  lemma IdsNameStep(gs: seq<Grantee>, next: nat, ids: seq<nat>, names: seq<string>, gs': seq<Grantee>, id: nat)
    requires names != [] && IdsFresh(gs, next) && IdsName(gs, ids, names[..|names| - 1])
    requires KeepsNamesBelow(gs', gs, next) && NameOfId(gs', id) == Some(names[|names| - 1])
    ensures IdsName(gs', ids + [id], names)
  {
    forall k | 0 <= k < |names| ensures NameOfId(gs', (ids + [id])[k]) == Some(names[k]) {
      if k < |names| - 1 {
        assert names[..|names| - 1][k] == names[k];
        NameOfIdBelow(gs, next, ids[k]);
      }
    }
  }

  /** The investigators' grantee ids name the investigators; the table gains no id twice and,
      when names were unique, no name twice; earlier ids keep their grantees. */
  lemma {:induction false} GranteesNameInvestigators(gs: seq<Grantee>, next: nat, names: seq<string>)
    requires IdsFresh(gs, next)
    ensures var r := GetOrCreateGrantees(gs, next, names);
            && IdsFresh(r.0, r.1)
            && IdsName(r.0, r.2, names)
            && KeepsNamesBelow(r.0, gs, next)
            && (NamesUnique(gs) ==> NamesUnique(r.0))
  {
    if names != [] {
      var front := names[..|names| - 1];
      var name := names[|names| - 1];
      GranteesNameInvestigators(gs, next, front);
      var prev := GetOrCreateGrantees(gs, next, front);
      GetOrCreateGranteeStep(prev.0, prev.1, name);
      var step := GetOrCreateGrantee(prev.0, prev.1, name);
      IdsNameStep(prev.0, prev.1, prev.2, names, step.0, step.2);
    }
  }

  lemma {:induction false} NameOfIdBelow(gs: seq<Grantee>, next: nat, id: nat)
    requires IdsFresh(gs, next) && NameOfId(gs, id).Some?
    ensures id < next
  {
    if gs[0].id != id {
      assert IdsFresh(gs[1..], next) by {
        forall a, b | 0 <= a < b < |gs[1..]| ensures gs[1..][a].id != gs[1..][b].id {
          assert gs[1..][a] == gs[a + 1] && gs[1..][b] == gs[b + 1];
        }
      }
      NameOfIdBelow(gs[1..], next, id);
    }
  }

  /** When every investigator already has a grantee, nothing is created. */
  lemma {:induction false} ExistingGranteesReused(gs: seq<Grantee>, next: nat, names: seq<string>)
    requires forall k :: 0 <= k < |names| ==> FindGrantee(gs, names[k]).Some?
    ensures GetOrCreateGrantees(gs, next, names).0 == gs
    ensures GetOrCreateGrantees(gs, next, names).1 == next
  {
    if names != [] {
      ExistingGranteesReused(gs, next, names[..|names| - 1]);
    }
  }

  /** The grantee loop of process_file and process_nih, on the store. */
  method GranteesFor(db: GrantDb, names: seq<string>) returns (ids: seq<nat>)
    modifies db`grantees, db`nextId
    ensures (db.grantees, db.nextId, ids) == GetOrCreateGrantees(old(db.grantees), old(db.nextId), names)
  {
    ids := [];
    for i := 0 to |names|
      invariant (db.grantees, db.nextId, ids) == GetOrCreateGrantees(old(db.grantees), old(db.nextId), names[..i])
    {
      assert names[..i + 1][..i] == names[..i];
      var found := FindGrantee(db.grantees, names[i]);
      if found.Some? {
        ids := ids + [db.grantees[found.value].id];
      } else {
        db.grantees := db.grantees + [Grantee(db.nextId, names[i])];
        ids := ids + [db.nextId];
        db.nextId := db.nextId + 1;
      }
    }
    assert names[..|names|] == names;
  }

  // ---------------------------------------------------------------- process_file

  /** The tables ingestion writes, as values. */
  datatype Tables = Tables(grantees: seq<Grantee>, grants: seq<Grant>, nextId: nat)

  /** process_file on text content. XML parsing, strptime and float() are inputs. Errors raise
      out of ingest; one raised after the grantee commit leaves the new grantees stored. */
  function FileEffect(t: Tables, dsId: nat, name: string, content: string,
                      parseXml: string -> Option<XmlElement>, parseDate: string -> Option<Time>,
                      parseFloat: string -> Option<real>): (Tables, Option<IngestError>)
  {
    if !EndsWith(name, ".xml") then (t, None)
    else match XmlStringToDict(content, parseXml)
      case None => (t, Some(MalformedXml))
      case Some(data) =>
        match ReadAward(data, parseDate)
        case Failure(e) => (t, Some(e))
        case Success(f) => AwardEffect(t, dsId, f, content, parseFloat)
  }

  /** The part of process_file after the fields are read: grantees, then the grant. */
  function AwardEffect(t: Tables, dsId: nat, f: AwardFields, content: string,
                       parseFloat: string -> Option<real>): (Tables, Option<IngestError>)
  {
    var (gs, next, ids) := GetOrCreateGrantees(t.grantees, t.nextId, f.investigators);
    match GrantValues(f, parseFloat)
    case Failure(e) => (Tables(gs, t.grants, next), Some(e))
    case Success((awardId, title, amount, description)) =>
      var g := Grant(next, Some(awardId), f.startDate, f.endDate, amount, Some(title), Some(description),
                     dsId, ids, Bytes(Encode(content)));
      (Tables(gs, t.grants + [g], next + 1), None)
  }

  /** Only `.xml` names are processed. */
  lemma OnlyXmlProcessed(t: Tables, dsId: nat, name: string, content: string,
                         parseXml: string -> Option<XmlElement>, parseDate: string -> Option<Time>,
                         parseFloat: string -> Option<real>)
    requires !EndsWith(name, ".xml")
    ensures FileEffect(t, dsId, name, content, parseXml, parseDate, parseFloat) == (t, None)
  { }

  /** A file adds at most one grant, only on success, for this data source. Grants before it are
      untouched, and a failure before the grantee lookup changes nothing. */
  lemma FileAddsAtMostOneGrant(t: Tables, dsId: nat, name: string, content: string,
                               parseXml: string -> Option<XmlElement>, parseDate: string -> Option<Time>,
                               parseFloat: string -> Option<real>)
    ensures var (t', err) := FileEffect(t, dsId, name, content, parseXml, parseDate, parseFloat);
            && (err.Some? ==> t'.grants == t.grants)
            && (err.None? ==> t'.grants == t.grants || (|t'.grants| == |t.grants| + 1 && t'.grants[..|t.grants|] == t.grants
                                                         && t'.grants[|t.grants|].dataSourceId == dsId))
            && (err.Some? && err != Some(BadAmount) && !err.value.NotStorable? ==> t' == t)
  { }

  /** A stored grant keeps the file as its raw text, gets the award's fields, and its grantees
      are the investigators by name. */
  lemma StoredGrantFromAward(t: Tables, dsId: nat, name: string, content: string,
                             parseXml: string -> Option<XmlElement>, parseDate: string -> Option<Time>,
                             parseFloat: string -> Option<real>)
    requires IdsFresh(t.grantees, t.nextId)
    requires var (t', err) := FileEffect(t, dsId, name, content, parseXml, parseDate, parseFloat);
             err.None? && |t'.grants| > |t.grants|
    ensures var data := XmlStringToDict(content, parseXml).value;
            var f := ReadAward(data, parseDate).value;
            var v := GrantValues(f, parseFloat).value;
            var (t', _) := FileEffect(t, dsId, name, content, parseXml, parseDate, parseFloat);
            var g := t'.grants[|t.grants|];
            && g.rawText.Bytes? && Utf8.Decode(g.rawText.bytes) == Some(content)
            && (g.awardId, g.title, g.amount, g.description) == (Some(v.0), Some(v.1), v.2, Some(v.3))
            && |g.granteeIds| == |f.investigators|
            && (forall k :: 0 <= k < |f.investigators| ==> NameOfId(t'.grantees, g.granteeIds[k]) == Some(f.investigators[k]))
            && IdsFresh(t'.grantees, t'.nextId)
  {
    var data := XmlStringToDict(content, parseXml).value;
    var f := ReadAward(data, parseDate).value;
    GranteesNameInvestigators(t.grantees, t.nextId, f.investigators);
    DecodeEncode(content);
  }

  /** process_file on the store. */
  method ProcessFile(db: GrantDb, dsId: nat, name: string, content: string,
                     parseXml: string -> Option<XmlElement>, parseDate: string -> Option<Time>,
                     parseFloat: string -> Option<real>)
    returns (err: Option<IngestError>)
    modifies db`grantees, db`grants, db`nextId
    ensures (Tables(db.grantees, db.grants, db.nextId), err)
         == FileEffect(Tables(old(db.grantees), old(db.grants), old(db.nextId)), dsId, name, content, parseXml, parseDate, parseFloat)
  {
    if !EndsWith(name, ".xml") {
      return None;
    }
    var data := XmlStringToDict(content, parseXml);
    if data.None? {
      return Some(MalformedXml);
    }
    var fields := ReadAward(data.value, parseDate);
    if fields.Failure? {
      return Some(fields.error);
    }
    var f := fields.value;
    assert FileEffect(Tables(old(db.grantees), old(db.grants), old(db.nextId)), dsId, name, content, parseXml, parseDate, parseFloat)
        == AwardEffect(Tables(old(db.grantees), old(db.grants), old(db.nextId)), dsId, f, content, parseFloat);
    err := StoreAward(db, dsId, f, content, parseFloat);
  }

  /** The part of process_file that writes: the grantees, then the grant. */
  method StoreAward(db: GrantDb, dsId: nat, f: AwardFields, content: string, parseFloat: string -> Option<real>)
    returns (err: Option<IngestError>)
    modifies db`grantees, db`grants, db`nextId
    ensures (Tables(db.grantees, db.grants, db.nextId), err)
         == AwardEffect(Tables(old(db.grantees), old(db.grants), old(db.nextId)), dsId, f, content, parseFloat)
  {
    var ids := GranteesFor(db, f.investigators);
    var values := GrantValues(f, parseFloat);
    if values.Failure? {
      return Some(values.error);
    }
    var (awardId, title, amount, description) := values.value;
    var g := Grant(db.nextId, Some(awardId), f.startDate, f.endDate, amount, Some(title), Some(description),
                   dsId, ids, Bytes(Encode(content)));
    db.grants := db.grants + [g];
    db.nextId := db.nextId + 1;
    err := None;
  }

  // ---------------------------------------------------------------- process_nih

  /** A principal investigator record; None where the key is missing or null. */
  datatype Pi = Pi(firstName: Option<string>, lastName: Option<string>)

  /** `principal_investigators`: a list, or a single record. */
  datatype PiField = PiList(pis: seq<Pi>) | PiOne(pi: Pi)

  /** The fields of one RePORTER record that process_nih reads; None where the key is missing.
      The fields stored as they are, and `awardAmount`, are Some(None) for a JSON null. A null
      investigator list or date raises just as a missing one does, so those stay single
      options. `json` is json.dumps of the record. */
  datatype NihRecord = NihRecord(
    applId: Option<Option<string>>, projectTitle: Option<Option<string>>, awardAmount: Option<Option<real>>,
    abstractText: Option<Option<string>>, principalInvestigators: Option<PiField>,
    projectStartDate: Option<string>, projectEndDate: Option<string>, json: string)

  function Investigators(f: PiField): seq<Pi> {
    match f
    case PiList(pis) => pis
    case PiOne(pi) => [pi]
  }

  /** first_name + " " + last_name of every investigator; None where one lacks either. */
  function NihNames(pis: seq<Pi>): (r: Option<seq<string>>)
    ensures r.Some? <==> forall i :: 0 <= i < |pis| ==> pis[i].firstName.Some? && pis[i].lastName.Some?
    ensures r.Some? ==> |r.value| == |pis|
    ensures r.Some? ==> forall i :: 0 <= i < |pis| ==> r.value[i] == pis[i].firstName.value + " " + pis[i].lastName.value
  {
    if pis == [] then Some([])
    else if pis[0].firstName.None? || pis[0].lastName.None? then None
    else match NihNames(pis[1..])
      case None => None
      case Some(rest) => Some([pis[0].firstName.value + " " + pis[0].lastName.value] + rest)
  }

  /** The values of a record's Grant row and its investigators' names, or None where the try
      block raises before the grantee lookup. */
  datatype NihFields = NihFields(awardId: Option<string>, title: Option<string>, amount: real, description: Option<string>,
                                 names: seq<string>, startDate: Time, endDate: Time)

  function ReadNih(rec: NihRecord, parseDate: string -> Option<Time>): (r: Option<NihFields>)
    ensures r.Some? ==> && rec.applId == Some(r.value.awardId) && rec.projectTitle == Some(r.value.title)
                        && rec.abstractText == Some(r.value.description)
    ensures r.Some? ==> rec.awardAmount.Some? && r.value.amount == rec.awardAmount.value.GetOr(0.0)
    ensures r.Some? ==> rec.projectStartDate.Some? && parseDate(rec.projectStartDate.value) == Some(r.value.startDate)
    ensures r.Some? ==> rec.projectEndDate.Some? && parseDate(rec.projectEndDate.value) == Some(r.value.endDate)
    ensures r.Some? ==> rec.principalInvestigators.Some? && NihNames(Investigators(rec.principalInvestigators.value)) == Some(r.value.names)
    ensures r.Some? <==> && rec.applId.Some? && rec.projectTitle.Some? && rec.awardAmount.Some?
                         && rec.abstractText.Some? && rec.principalInvestigators.Some?
                         && NihNames(Investigators(rec.principalInvestigators.value)).Some?
                         && rec.projectStartDate.Some? && parseDate(rec.projectStartDate.value).Some?
                         && rec.projectEndDate.Some? && parseDate(rec.projectEndDate.value).Some?
  {
    if rec.applId.None? || rec.projectTitle.None? || rec.awardAmount.None? || rec.abstractText.None?
       || rec.principalInvestigators.None? then None
    else
      var names := NihNames(Investigators(rec.principalInvestigators.value));
      if names.None? then None
      else if rec.projectStartDate.None? || parseDate(rec.projectStartDate.value).None? then None
      else if rec.projectEndDate.None? || parseDate(rec.projectEndDate.value).None? then None
      else Some(NihFields(rec.applId.value, rec.projectTitle.value, rec.awardAmount.value.GetOr(0.0),
                          rec.abstractText.value, names.value,
                          parseDate(rec.projectStartDate.value).value, parseDate(rec.projectEndDate.value).value))
  }

  /** One iteration of process_nih: a record that raises is logged and skipped unchanged. */
  function RecordEffect(t: Tables, dsId: nat, rec: NihRecord, parseDate: string -> Option<Time>): Tables {
    match ReadNih(rec, parseDate)
    case None => t
    case Some(f) =>
      var (gs, next, ids) := GetOrCreateGrantees(t.grantees, t.nextId, f.names);
      var g := Grant(next, f.awardId, f.startDate, f.endDate, f.amount, f.title, f.description,
                     dsId, ids, Bytes(Encode(rec.json)));
      Tables(gs, t.grants + [g], next + 1)
  }

  /** All records of the year, in the order they are yielded. */
  function NihEffect(t: Tables, dsId: nat, recs: seq<NihRecord>, parseDate: string -> Option<Time>): Tables {
    if recs == [] then t
    else RecordEffect(NihEffect(t, dsId, recs[..|recs| - 1], parseDate), dsId, recs[|recs| - 1], parseDate)
  }

  /** process_nih on the store. */
  method ProcessNih(db: GrantDb, dsId: nat, recs: seq<NihRecord>, parseDate: string -> Option<Time>)
    modifies db`grantees, db`grants, db`nextId
    ensures Tables(db.grantees, db.grants, db.nextId)
         == NihEffect(Tables(old(db.grantees), old(db.grants), old(db.nextId)), dsId, recs, parseDate)
  {
    for i := 0 to |recs|
      invariant Tables(db.grantees, db.grants, db.nextId)
             == NihEffect(Tables(old(db.grantees), old(db.grants), old(db.nextId)), dsId, recs[..i], parseDate)
    {
      assert recs[..i + 1][..i] == recs[..i];
      var rec := recs[i];
      var fields := ReadNih(rec, parseDate);
      if fields.Some? {
        var f := fields.value;
        var ids := GranteesFor(db, f.names);
        var g := Grant(db.nextId, f.awardId, f.startDate, f.endDate, f.amount, f.title, f.description,
                       dsId, ids, Bytes(Encode(rec.json)));
        db.grants := db.grants + [g];
        db.nextId := db.nextId + 1;
      }
    }
    assert recs[..|recs|] == recs;
  }

  /** A record that raises changes nothing; otherwise exactly one grant of this data source is
      added, whose raw text is the record's JSON, whose amount is 0.0 for a null amount, and
      whose award id, title and description are the record's, NULL where the record has null. */
  lemma RecordAddsOneGrantOrNone(t: Tables, dsId: nat, rec: NihRecord, parseDate: string -> Option<Time>)
    ensures ReadNih(rec, parseDate).None? ==> RecordEffect(t, dsId, rec, parseDate) == t
    ensures ReadNih(rec, parseDate).Some? ==>
      var t' := RecordEffect(t, dsId, rec, parseDate);
      var g := t'.grants[|t.grants|];
      && |t'.grants| == |t.grants| + 1 && t'.grants[..|t.grants|] == t.grants
      && g.dataSourceId == dsId
      && g.rawText.Bytes? && Utf8.Decode(g.rawText.bytes) == Some(rec.json)
      && (rec.awardAmount == Some(None) ==> g.amount == 0.0)
      && g.awardId == rec.applId.value && g.title == rec.projectTitle.value
      && g.description == rec.abstractText.value
  {
    if ReadNih(rec, parseDate).Some? {
      DecodeEncode(rec.json);
      var t' := RecordEffect(t, dsId, rec, parseDate);
      assert t'.grants[..|t.grants|] == t.grants;
    }
  }

  /** NIH ingestion only appends grants of this data source, at most one per record. */
  lemma {:induction false} NihAppendsOwnGrants(t: Tables, dsId: nat, recs: seq<NihRecord>, parseDate: string -> Option<Time>)
    ensures var t' := NihEffect(t, dsId, recs, parseDate);
            && |t.grants| <= |t'.grants| <= |t.grants| + |recs|
            && t'.grants[..|t.grants|] == t.grants
            && forall i :: |t.grants| <= i < |t'.grants| ==> t'.grants[i].dataSourceId == dsId
  {
    if recs != [] {
      var front := recs[..|recs| - 1];
      NihAppendsOwnGrants(t, dsId, front, parseDate);
      var mid := NihEffect(t, dsId, front, parseDate);
      RecordAddsOneGrantOrNone(mid, dsId, recs[|recs| - 1], parseDate);
      var t' := NihEffect(t, dsId, recs, parseDate);
      assert t'.grants[..|mid.grants|] == mid.grants;
      assert t'.grants[..|t.grants|] == mid.grants[..|t.grants|];
    }
  }

  // ---------------------------------------------------------------- re-ingestion

  /** Ids of the grants of a data source (`.filter(Grant.data_source_id == id).all()`). */
  function SourceGrantIds(gs: seq<Grant>, dsId: nat): (r: seq<nat>)
    ensures forall id :: id in r <==> exists i :: 0 <= i < |gs| && gs[i].dataSourceId == dsId && gs[i].id == id
  {
    if gs == [] then []
    else (if gs[0].dataSourceId == dsId then [gs[0].id] else []) + SourceGrantIds(gs[1..], dsId)
  }

  /** The grants whose id is not among `ids`, in order. */
  function KeptGrants(gs: seq<Grant>, ids: seq<nat>): (r: seq<Grant>)
    ensures forall g :: g in r <==> g in gs && g.id !in ids
  {
    if gs == [] then [] else (if gs[0].id in ids then [] else [gs[0]]) + KeptGrants(gs[1..], ids)
  }

  /** Removing one more id from the kept grants keeps the grants outside the longer list. */
  lemma {:induction false} KeptWithout(gs: seq<Grant>, ids: seq<nat>, id: nat)
    ensures GrantsWithout(KeptGrants(gs, ids), id) == KeptGrants(gs, ids + [id])
    decreases |gs|
  {
    if gs != [] {
      KeptWithout(gs[1..], ids, id);
      var k := KeptGrants(gs[1..], ids);
      if gs[0].id in ids {
        assert KeptGrants(gs, ids) == k;
        assert gs[0].id in ids + [id];
      } else {
        assert KeptGrants(gs, ids) == [gs[0]] + k;
        assert ([gs[0]] + k)[1..] == k;
        assert gs[0].id in ids + [id] <==> gs[0].id == id;
      }
    }
  }

  /** Primary keys: no two grants share an id. */
  ghost predicate GrantIdsUnique(gs: seq<Grant>) {
    forall i, j :: 0 <= i < j < |gs| ==> gs[i].id != gs[j].id
  }

  /** With unique ids, the grants kept after deleting a data source's grants are exactly the
      grants of the other data sources. */
  lemma OtherSourcesKept(gs: seq<Grant>, dsId: nat, g: Grant)
    requires GrantIdsUnique(gs)
    ensures g in KeptGrants(gs, SourceGrantIds(gs, dsId)) <==> g in gs && g.dataSourceId != dsId
  {
    if g in gs && g.id in SourceGrantIds(gs, dsId) {
      var i :| 0 <= i < |gs| && gs[i] == g;
      var j :| 0 <= j < |gs| && gs[j].dataSourceId == dsId && gs[j].id == g.id;
      assert i == j;
    }
  }

  /** Some grant of the data source is still referenced by a favourite or a stored query, so
      deleting it breaks a foreign key. */
  ghost predicate DeleteBlocked(gs: seq<Grant>, favs: seq<Favorite>, qs: seq<SearchQuery>, dsId: nat) {
    exists id :: id in SourceGrantIds(gs, dsId) && Referenced(favs, qs, id)
  }

  /** The deletion loop of ingest and its commit: every grant of the data source goes, with
      its derived data and embeddings, and nothing else is removed, unless one of them is still
      referenced; then the commit raises and nothing is deleted. */
  method DeleteSourceGrants(db: GrantDb, dsId: nat) returns (count: nat, ok: bool)
    modifies db`grants, db`derived, db`embeddings
    ensures ok <==> !DeleteBlocked(old(db.grants), db.favorites, db.queries, dsId)
    ensures !ok ==> db.grants == old(db.grants) && db.derived == old(db.derived) && db.embeddings == old(db.embeddings)
    ensures count == |SourceGrantIds(old(db.grants), dsId)|
    ensures ok ==> db.grants == KeptGrants(old(db.grants), SourceGrantIds(old(db.grants), dsId))
    ensures ok ==> forall g :: g in db.grants ==> g.dataSourceId != dsId
    ensures ok ==> forall d :: d in db.derived <==> d in old(db.derived) && d.grantId !in SourceGrantIds(old(db.grants), dsId)
    ensures ok ==> forall e :: e in db.embeddings <==> e in old(db.embeddings) && e.grantId !in SourceGrantIds(old(db.grants), dsId)
  {
    var doomed := SourceGrantIds(db.grants, dsId);
    count := |doomed|;
    if exists i :: 0 <= i < |doomed| && Referenced(db.favorites, db.queries, doomed[i]) {
      ghost var i :| 0 <= i < |doomed| && Referenced(db.favorites, db.queries, doomed[i]);
      assert doomed[i] in doomed;
      return count, false;
    }
    DeleteEach(db, doomed);
    ok := true;
    forall g | g in db.grants ensures g.dataSourceId != dsId {
      var i :| 0 <= i < |old(db.grants)| && old(db.grants)[i] == g;
    }
  }

  /** The deletion loop over unreferenced ids: each grant goes with its derived data and
      embeddings. */
  method DeleteEach(db: GrantDb, doomed: seq<nat>)
    requires forall k :: 0 <= k < |doomed| ==> !Referenced(db.favorites, db.queries, doomed[k])
    modifies db`grants, db`derived, db`embeddings
    ensures db.grants == KeptGrants(old(db.grants), doomed)
    ensures DerivedDropped(old(db.derived), db.derived, doomed)
    ensures EmbeddingsDropped(old(db.embeddings), db.embeddings, doomed)
  {
    ghost var gs0 := db.grants;
    KeptNone(gs0);
    assert doomed[..0] == [];
    for i := 0 to |doomed|
      invariant db.grants == KeptGrants(gs0, doomed[..i])
      invariant DerivedDropped(old(db.derived), db.derived, doomed[..i])
      invariant EmbeddingsDropped(old(db.embeddings), db.embeddings, doomed[..i])
    {
      ghost var pre := doomed[..i];
      assert doomed[..i + 1] == pre + [doomed[i]];
      KeptWithout(gs0, pre, doomed[i]);
      DroppedStep(old(db.derived), db.derived, old(db.embeddings), db.embeddings, pre, doomed[i]);
      var _ := DeleteGrant(db, doomed[i]);
    }
    assert doomed[..|doomed|] == doomed;
  }

  /** The derived rows left are those of the grants not yet deleted. */
  ghost predicate DerivedDropped(d0: seq<Derived>, ds: seq<Derived>, ids: seq<nat>) {
    forall d :: d in ds <==> d in d0 && d.grantId !in ids
  }

  /** The embeddings left are those of the grants not yet deleted. */
  ghost predicate EmbeddingsDropped(e0: seq<Embedding>, es: seq<Embedding>, ids: seq<nat>) {
    forall e :: e in es <==> e in e0 && e.grantId !in ids
  }

  lemma DroppedStep(d0: seq<Derived>, ds: seq<Derived>, e0: seq<Embedding>, es: seq<Embedding>, ids: seq<nat>, id: nat)
    requires DerivedDropped(d0, ds, ids) && EmbeddingsDropped(e0, es, ids)
    ensures DerivedDropped(d0, DerivedWithout(ds, id), ids + [id])
    ensures EmbeddingsDropped(e0, EmbeddingsWithout(es, id), ids + [id])
  {
  }

  lemma {:induction false} KeptNone(gs: seq<Grant>)
    ensures KeptGrants(gs, []) == gs
    decreases |gs|
  {
    if gs != [] {
      KeptNone(gs[1..]);
    }
  }

  /** Find the agency by exact name, or add it. */
  method GetOrCreateAgency(db: GrantDb, name: string) returns (id: nat)
    modifies db`agencies, db`nextId
    ensures var k := FirstWhere(old(db.agencies), (a: Agency) => a.name == name);
            k.Some? ==> db.agencies == old(db.agencies) && db.nextId == old(db.nextId) && id == db.agencies[k.value].id
    ensures FirstWhere(old(db.agencies), (a: Agency) => a.name == name).None? ==>
              db.agencies == old(db.agencies) + [Agency(old(db.nextId), name)] && id == old(db.nextId)
              && db.nextId == old(db.nextId) + 1
    ensures exists k :: 0 <= k < |db.agencies| && db.agencies[k] == Agency(id, name)
  {
    var k := FirstWhere(db.agencies, (a: Agency) => a.name == name);
    if k.Some? {
      id := db.agencies[k.value].id;
      assert db.agencies[k.value] == Agency(id, name);
    } else {
      id := db.nextId;
      db.agencies := db.agencies + [Agency(id, name)];
      db.nextId := db.nextId + 1;
      assert db.agencies[|db.agencies| - 1] == Agency(id, name);
    }
  }

  /** The data-source lookup of ingest: by name, else by origin. Each `.filter` argument is a
      Python `and` of two column expressions, left as a predicate on the row and the agency id.
      The source is never empty here, so the origin query always runs when the first finds
      nothing. */
  function SelectSource(ds: seq<DataSource>, agencyId: nat, byName: (DataSource, nat) -> bool,
                        byOrigin: (DataSource, nat) -> bool): (r: Option<nat>)
    ensures r.Some? ==> r.value < |ds|
    ensures FirstWhere(ds, (d: DataSource) => byName(d, agencyId)).Some? ==>
              r == FirstWhere(ds, (d: DataSource) => byName(d, agencyId))
    ensures FirstWhere(ds, (d: DataSource) => byName(d, agencyId)).None? ==>
              r == FirstWhere(ds, (d: DataSource) => byOrigin(d, agencyId))
  {
    var first := FirstWhere(ds, (d: DataSource) => byName(d, agencyId));
    if first.Some? then first else FirstWhere(ds, (d: DataSource) => byOrigin(d, agencyId))
  }

  /** The zip path: every extracted file, in walk order; the first error raises. */
  function FilesEffect(t: Tables, dsId: nat, files: seq<(string, string)>,
                       parseXml: string -> Option<XmlElement>, parseDate: string -> Option<Time>,
                       parseFloat: string -> Option<real>): (Tables, Option<IngestError>)
    decreases files
  {
    if files == [] then (t, None)
    else
      var first := FileEffect(t, dsId, files[0].0, files[0].1, parseXml, parseDate, parseFloat);
      if first.1.Some? then first else FilesEffect(first.0, dsId, files[1..], parseXml, parseDate, parseFloat)
  }

  /** A run over files only appends grants of this data source. */
  lemma {:induction false} FilesAppendOwnGrants(t: Tables, dsId: nat, files: seq<(string, string)>,
                                                parseXml: string -> Option<XmlElement>, parseDate: string -> Option<Time>,
                                                parseFloat: string -> Option<real>)
    ensures var t' := FilesEffect(t, dsId, files, parseXml, parseDate, parseFloat).0;
            && |t.grants| <= |t'.grants| && t'.grants[..|t.grants|] == t.grants
            && forall i :: |t.grants| <= i < |t'.grants| ==> t'.grants[i].dataSourceId == dsId
    decreases files
  {
    if files != [] {
      FileAddsAtMostOneGrant(t, dsId, files[0].0, files[0].1, parseXml, parseDate, parseFloat);
      var first := FileEffect(t, dsId, files[0].0, files[0].1, parseXml, parseDate, parseFloat);
      var t1 := first.0;
      if first.1.None? {
        FilesAppendOwnGrants(t1, dsId, files[1..], parseXml, parseDate, parseFloat);
        var t' := FilesEffect(t, dsId, files, parseXml, parseDate, parseFloat).0;
        assert t'.grants[..|t1.grants|] == t1.grants;
        assert t'.grants[..|t.grants|] == t1.grants[..|t.grants|];
        forall i | |t.grants| <= i < |t'.grants| ensures t'.grants[i].dataSourceId == dsId {
          if i < |t1.grants| {
            assert t'.grants[i] == t1.grants[i];
          }
        }
      }
    }
  }

  method ProcessZip(db: GrantDb, dsId: nat, files: seq<(string, string)>,
                    parseXml: string -> Option<XmlElement>, parseDate: string -> Option<Time>,
                    parseFloat: string -> Option<real>)
    returns (err: Option<IngestError>)
    modifies db`grantees, db`grants, db`nextId
    ensures (Tables(db.grantees, db.grants, db.nextId), err)
         == FilesEffect(Tables(old(db.grantees), old(db.grants), old(db.nextId)), dsId, files, parseXml, parseDate, parseFloat)
  {
    ghost var goal := FilesEffect(Tables(db.grantees, db.grants, db.nextId), dsId, files, parseXml, parseDate, parseFloat);
    for i := 0 to |files|
      invariant goal == FilesEffect(Tables(db.grantees, db.grants, db.nextId), dsId, files[i..], parseXml, parseDate, parseFloat)
    {
      assert files[i..][1..] == files[i + 1..];
      err := ProcessFile(db, dsId, files[i].0, files[i].1, parseXml, parseDate, parseFloat);
      if err.Some? {
        return;
      }
    }
    err := None;
  }

  /** process_file given BytesIO instead of str: an `.xml` name makes ET.fromstring raise. */
  function BytesFileEffect(name: string): (r: Option<IngestError>)
    ensures r.Some? <==> EndsWith(name, ".xml")
  {
    if EndsWith(name, ".xml") then Some(ContentNotText) else None
  }

  /** What _get_content yields: the file name and, for a zip, the extracted text files in walk
      order. */
  datatype Download = Download(filename: string, zipFiles: seq<(string, string)>)

  /** The NSF branch of ingest after the data source is settled, on the tables it changes.
      _get_content wraps the bytes in a BytesIO, which gzip.decompress does not accept (it
      wants a bytes-like object), so a `.gz` download raises TypeError before anything is
      processed. */
  function DownloadEffect(t: Tables, dsId: nat, download: Download,
                          parseXml: string -> Option<XmlElement>, parseDate: string -> Option<Time>,
                          parseFloat: string -> Option<real>): (Tables, Option<IngestError>)
  {
    var name := download.filename;
    if EndsWith(name, ".zip") then
      var z := FilesEffect(t, dsId, download.zipFiles, parseXml, parseDate, parseFloat);
      if z.1.Some? then z else (z.0, BytesFileEffect(name))
    else if EndsWith(name, ".gz") then (t, Some(DecompressRaised))
    else (t, BytesFileEffect(name))
  }

  /** Only a zip download stores grants, and none of its outcomes come from the final
      process_file call, which raises exactly for an `.xml` name. */
  lemma DownloadOutcomes(t: Tables, dsId: nat, download: Download,
                         parseXml: string -> Option<XmlElement>, parseDate: string -> Option<Time>,
                         parseFloat: string -> Option<real>)
    ensures var r := DownloadEffect(t, dsId, download, parseXml, parseDate, parseFloat);
            && (EndsWith(download.filename, ".zip") ==>
                  r == FilesEffect(t, dsId, download.zipFiles, parseXml, parseDate, parseFloat))
            && (!EndsWith(download.filename, ".zip") ==> r.0 == t)
            && (!EndsWith(download.filename, ".zip") && EndsWith(download.filename, ".gz") ==> r.1 == Some(DecompressRaised))
            && (!EndsWith(download.filename, ".zip") && !EndsWith(download.filename, ".gz") ==>
                  (r.1.Some? <==> EndsWith(download.filename, ".xml")))
  {
    var name := download.filename;
    if EndsWith(name, ".zip") {
      assert !EndsWith(name, ".xml");
    }
  }

  method ProcessDownload(db: GrantDb, dsId: nat, download: Download,
                         parseXml: string -> Option<XmlElement>, parseDate: string -> Option<Time>,
                         parseFloat: string -> Option<real>)
    returns (err: Option<IngestError>)
    modifies db`grantees, db`grants, db`nextId
    ensures (Tables(db.grantees, db.grants, db.nextId), err)
         == DownloadEffect(Tables(old(db.grantees), old(db.grants), old(db.nextId)), dsId, download, parseXml, parseDate, parseFloat)
  {
    var name := download.filename;
    if EndsWith(name, ".zip") {
      err := ProcessZip(db, dsId, download.zipFiles, parseXml, parseDate, parseFloat);
      if err.Some? {
        return;
      }
    } else if EndsWith(name, ".gz") {
      return Some(DecompressRaised);
    }
    err := BytesFileEffect(name);
  }

  /** The loading half of ingest on the tables it changes: the year's NIH records once the
      year parses, or the NSF download. */
  function LoadEffect(t: Tables, cfg: Config, dsId: nat,
                      nihRecords: seq<NihRecord>, parseYear: string -> Option<int>,
                      parseNihDate: string -> Option<Time>, download: Download,
                      parseXml: string -> Option<XmlElement>, parseDate: string -> Option<Time>,
                      parseFloat: string -> Option<real>): (Tables, Option<IngestError>)
  {
    if cfg.agency == "NIH" then
      var yearText := SplitPart(cfg.sourceName, " ", 1);
      if yearText.None? then (t, Some(NoYear))
      else if parseYear(yearText.value).None? then (t, Some(BadYear))
      else (NihEffect(t, dsId, nihRecords, parseNihDate), None)
    else DownloadEffect(t, dsId, download, parseXml, parseDate, parseFloat)
  }

  /** Loading only appends grants, all of this data source; a year that is missing or does not
      parse stops it before anything is stored. */
  lemma LoadAppendsOwnGrants(t: Tables, cfg: Config, dsId: nat,
                             nihRecords: seq<NihRecord>, parseYear: string -> Option<int>,
                             parseNihDate: string -> Option<Time>, download: Download,
                             parseXml: string -> Option<XmlElement>, parseDate: string -> Option<Time>,
                             parseFloat: string -> Option<real>)
    ensures var t' := LoadEffect(t, cfg, dsId, nihRecords, parseYear, parseNihDate, download, parseXml, parseDate, parseFloat).0;
            && |t.grants| <= |t'.grants| && t'.grants[..|t.grants|] == t.grants
            && forall i :: |t.grants| <= i < |t'.grants| ==> t'.grants[i].dataSourceId == dsId
    ensures cfg.agency == "NIH" && SplitPart(cfg.sourceName, " ", 1).None? ==>
              LoadEffect(t, cfg, dsId, nihRecords, parseYear, parseNihDate, download, parseXml, parseDate, parseFloat) == (t, Some(NoYear))
    ensures (cfg.agency == "NIH" && SplitPart(cfg.sourceName, " ", 1).Some?
             && parseYear(SplitPart(cfg.sourceName, " ", 1).value).None?) ==>
              LoadEffect(t, cfg, dsId, nihRecords, parseYear, parseNihDate, download, parseXml, parseDate, parseFloat) == (t, Some(BadYear))
  {
    var r := LoadEffect(t, cfg, dsId, nihRecords, parseYear, parseNihDate, download, parseXml, parseDate, parseFloat);
    if cfg.agency == "NIH" {
      var yearText := SplitPart(cfg.sourceName, " ", 1);
      if yearText.Some? && parseYear(yearText.value).Some? {
        assert r.0 == NihEffect(t, dsId, nihRecords, parseNihDate);
        NihAppendsOwnGrants(t, dsId, nihRecords, parseNihDate);
      } else {
        assert r.0 == t;
      }
    } else {
      assert r == DownloadEffect(t, dsId, download, parseXml, parseDate, parseFloat);
      DownloadOutcomes(t, dsId, download, parseXml, parseDate, parseFloat);
      if EndsWith(download.filename, ".zip") {
        assert r.0 == FilesEffect(t, dsId, download.zipFiles, parseXml, parseDate, parseFloat).0;
        FilesAppendOwnGrants(t, dsId, download.zipFiles, parseXml, parseDate, parseFloat);
      } else {
        assert r.0 == t;
      }
    }
  }

  method Load(db: GrantDb, cfg: Config, dsId: nat,
              nihRecords: seq<NihRecord>, parseYear: string -> Option<int>,
              parseNihDate: string -> Option<Time>, download: Download,
              parseXml: string -> Option<XmlElement>, parseDate: string -> Option<Time>,
              parseFloat: string -> Option<real>)
    returns (err: Option<IngestError>)
    modifies db`grantees, db`grants, db`nextId
    ensures (Tables(db.grantees, db.grants, db.nextId), err)
         == LoadEffect(Tables(old(db.grantees), old(db.grants), old(db.nextId)), cfg, dsId, nihRecords, parseYear,
                       parseNihDate, download, parseXml, parseDate, parseFloat)
  {
    if cfg.agency == "NIH" {
      var yearText := SplitPart(cfg.sourceName, " ", 1);
      if yearText.None? {
        return Some(NoYear);
      }
      if parseYear(yearText.value).None? {
        return Some(BadYear);
      }
      ProcessNih(db, dsId, nihRecords, parseNihDate);
      err := None;
    } else {
      err := ProcessDownload(db, dsId, download, parseXml, parseDate, parseFloat);
    }
  }

  /** Ingester.ingest: settle the agency and the data source, remove a found source's grants,
      then load the NIH records of the year or the NSF download. `nihRecords` are the records
      the year's paging yields (Nih.GrantsByYear); the year is parsed after the grants are
      removed, as get_nih_grants_by_year runs int(year) on its first step. `prepared` is the
      state of the tables once the data source is settled; what ingest then stores is
      LoadEffect of it. */
  method Ingest(db: GrantDb, cfg: Config, now: Time,
                byName: (DataSource, nat) -> bool, byOrigin: (DataSource, nat) -> bool,
                nihRecords: seq<NihRecord>, parseYear: string -> Option<int>,
                parseNihDate: string -> Option<Time>, download: Download,
                parseXml: string -> Option<XmlElement>, parseDate: string -> Option<Time>,
                parseFloat: string -> Option<real>)
    returns (agencyId: nat, dsId: nat, err: Option<IngestError>, ghost prepared: Tables)
    modifies db`agencies, db`dataSources, db`grantees, db`grants, db`derived, db`embeddings, db`nextId
    ensures exists k :: 0 <= k < |db.agencies| && db.agencies[k] == Agency(agencyId, cfg.agency)
    ensures var k := SelectSource(old(db.dataSources), agencyId, byName, byOrigin);
            k.Some? ==> db.dataSources == old(db.dataSources) && dsId == old(db.dataSources)[k.value].id
    ensures var k := SelectSource(old(db.dataSources), agencyId, byName, byOrigin);
            k.None? ==> |db.dataSources| == |old(db.dataSources)| + 1
                        && db.dataSources[..|old(db.dataSources)|] == old(db.dataSources)
                        && db.dataSources[|old(db.dataSources)|] == DataSource(dsId, cfg.sourceName, now, Some(cfg.source), Some(agencyId))
    ensures db.favorites == old(db.favorites) && db.queries == old(db.queries)
    ensures prepared.grantees == old(db.grantees)
    ensures SelectSource(old(db.dataSources), agencyId, byName, byOrigin).None? ==> prepared.grants == old(db.grants)
    ensures var blocked := SelectSource(old(db.dataSources), agencyId, byName, byOrigin).Some?
                           && DeleteBlocked(old(db.grants), db.favorites, db.queries, dsId);
            blocked ==> err == Some(DeleteRaised) && db.grants == old(db.grants) && Tables(db.grantees, db.grants, db.nextId) == prepared
    ensures SelectSource(old(db.dataSources), agencyId, byName, byOrigin).Some?
            && !DeleteBlocked(old(db.grants), db.favorites, db.queries, dsId) ==>
              prepared.grants == KeptGrants(old(db.grants), SourceGrantIds(old(db.grants), dsId))
    ensures !(SelectSource(old(db.dataSources), agencyId, byName, byOrigin).Some?
              && DeleteBlocked(old(db.grants), db.favorites, db.queries, dsId)) ==>
              (Tables(db.grantees, db.grants, db.nextId), err)
              == LoadEffect(prepared, cfg, dsId, nihRecords, parseYear, parseNihDate, download, parseXml, parseDate, parseFloat)
  {
    agencyId, dsId, err := PrepareSource(db, cfg, now, byName, byOrigin);
    prepared := Tables(db.grantees, db.grants, db.nextId);
    if err.Some? {
      return;
    }
    ghost var ak :| 0 <= ak < |db.agencies| && db.agencies[ak] == Agency(agencyId, cfg.agency);
    err := Load(db, cfg, dsId, nihRecords, parseYear, parseNihDate, download, parseXml, parseDate, parseFloat);
    LoadAppendsOwnGrants(prepared, cfg, dsId, nihRecords, parseYear, parseNihDate, download, parseXml, parseDate, parseFloat);
    assert db.agencies[ak] == Agency(agencyId, cfg.agency);
  }

  /** The agency and data-source half of ingest: get or create the agency, then reuse the
      selected data source after deleting its grants, or add a new one. The deletion commit
      raises when a doomed grant is still referenced by a favourite or a stored query. */
  method PrepareSource(db: GrantDb, cfg: Config, now: Time,
                       byName: (DataSource, nat) -> bool, byOrigin: (DataSource, nat) -> bool)
    returns (agencyId: nat, dsId: nat, err: Option<IngestError>)
    modifies db`agencies, db`dataSources, db`grants, db`derived, db`embeddings, db`nextId
    ensures exists k :: 0 <= k < |db.agencies| && db.agencies[k] == Agency(agencyId, cfg.agency)
    ensures var k := SelectSource(old(db.dataSources), agencyId, byName, byOrigin);
            k.Some? ==> db.dataSources == old(db.dataSources) && dsId == old(db.dataSources)[k.value].id
    ensures var k := SelectSource(old(db.dataSources), agencyId, byName, byOrigin);
            k.None? ==> |db.dataSources| == |old(db.dataSources)| + 1
                        && db.dataSources[..|old(db.dataSources)|] == old(db.dataSources)
                        && db.dataSources[|old(db.dataSources)|] == DataSource(dsId, cfg.sourceName, now, Some(cfg.source), Some(agencyId))
    ensures err.None? || err == Some(DeleteRaised)
    ensures SelectSource(old(db.dataSources), agencyId, byName, byOrigin).None? ==> err.None? && db.grants == old(db.grants)
    ensures SelectSource(old(db.dataSources), agencyId, byName, byOrigin).Some? ==>
              (err.Some? <==> DeleteBlocked(old(db.grants), db.favorites, db.queries, dsId))
    ensures err.Some? ==> db.grants == old(db.grants)
    ensures SelectSource(old(db.dataSources), agencyId, byName, byOrigin).Some? && err.None? ==>
              db.grants == KeptGrants(old(db.grants), SourceGrantIds(old(db.grants), dsId))
  {
    ghost var sources0 := db.dataSources;
    agencyId := GetOrCreateAgency(db, cfg.agency);
    assert db.dataSources == sources0;
    var k := SelectSource(db.dataSources, agencyId, byName, byOrigin);
    err := None;
    if k.Some? {
      dsId := db.dataSources[k.value].id;
      var _, ok := DeleteSourceGrants(db, dsId);
      if !ok {
        err := Some(DeleteRaised);
      }
    } else {
      dsId := db.nextId;
      db.dataSources := db.dataSources + [DataSource(dsId, cfg.sourceName, now, Some(cfg.source), Some(agencyId))];
      db.nextId := db.nextId + 1;
    }
  }
}
