/** The review screen of one upload session: the key/value parser of the OCR tab, the
    normalisation of document names, the tab gating, the summary fetch, the one-page edit
    of the assembled documents JSON and the finalise lock. */
module SessionDetail {
  import opened Wrappers
  import opened Text

  // ----------------------------------------------------------------------------------------------
  // Key/value parser of the OCR tab
  // ----------------------------------------------------------------------------------------------

  /** One row of the OCR table; the key is absent for text that precedes every colon line. */
  datatype KvPair = KvPair(key: Option<string>, value: string)

  /** One trailing carriage return removed. */
  function DropCr(s: string): (r: string)
    ensures r == s || (|s| > 0 && s[|s| - 1] == '\r' && r == s[..|s| - 1])
  {
    if |s| > 0 && s[|s| - 1] == '\r' then s[..|s| - 1] else s
  }

  /** The text cut at every "\n" and every "\r\n", as split(/\r?\n/). */
  function Lines(t: string): (r: seq<string>)
    ensures |r| >= 1
  {
    var ps := Split(t, '\n');
    seq(|ps|, k requires 0 <= k < |ps| => if k < |ps| - 1 then DropCr(ps[k]) else ps[k])
  }

  /** A line break ends a line; a carriage return right before it is not part of the line. */
  lemma LinesCons(a: string, b: string)
    requires '\n' !in a
    ensures Lines(a + "\n" + b) == [DropCr(a)] + Lines(b)
  {
    SplitAtFirst(a, b, '\n');
  }

  /** A text without line breaks is one line. */
  lemma {:induction false} LinesSingle(t: string)
    requires '\n' !in t
    ensures Lines(t) == [t]
  {
    SplitPrefix(t, "", '\n');
    assert t + "" == t;
  }

  /** The key of a colon line: the trimmed text before the first ':'. */
  function KeyOf(line: string): string {
    Trim(Split(line, ':')[0])
  }

  /** The value of a colon line: the pieces after the first ':' joined back with ':', trimmed. */
  function ValueOf(line: string): string {
    Trim(Join(Split(line, ':')[1..], ":"))
  }

  /** Split-and-rejoin takes the text before the first colon as key and everything after it,
      later colons included, as value. */
  lemma KeyAndValue(a: string, b: string)
    requires ':' !in a
    ensures KeyOf(a + ":" + b) == Trim(a)
    ensures ValueOf(a + ":" + b) == Trim(b)
  {
    SplitAtFirst(a, b, ':');
    JoinSplit(b, ':');
  }

  /** A pending pair is pushed when its key or its untrimmed value is non-empty; the value is trimmed. */
  function Emit(key: Option<string>, value: string): (r: seq<KvPair>)
    ensures |r| <= 1
    ensures |r| == 1 <==> (key.Some? && key.value != "") || value != ""
    ensures |r| == 1 ==> r[0] == KvPair(key, Trim(value))
  {
    if (key.Some? && key.value != "") || value != "" then [KvPair(key, Trim(value))] else []
  }

  function ColonLines(lines: seq<string>): nat {
    if |lines| == 0 then 0 else (if ':' in lines[0] then 1 else 0) + ColonLines(lines[1..])
  }

  /** Some colon line among `lines` has key `k`. */
  predicate KeyFromLines(k: string, lines: seq<string>) {
    exists j :: 0 <= j < |lines| && ':' in lines[j] && KeyOf(lines[j]) == k
  }

  /** The pairs produced from `lines` when `key` and `value` are pending. */
  function PairsFrom(lines: seq<string>, key: Option<string>, value: string): (r: seq<KvPair>)
    ensures |r| <= 1 + ColonLines(lines)
    ensures forall k :: 0 <= k < |r| ==> IsTrimmed(r[k].value)
  {
    if |lines| == 0 then Emit(key, value)
    else if ':' in lines[0] then Emit(key, value) + PairsFrom(lines[1..], Some(KeyOf(lines[0])), ValueOf(lines[0]))
    else PairsFrom(lines[1..], key, value + " " + Trim(lines[0]))
  }

  /** One step of the parser: a colon line pushes the pending pair and opens a new one; any other
      line extends the pending value. */
  lemma Unfold(lines: seq<string>, key: Option<string>, value: string)
    requires |lines| > 0
    ensures ':' in lines[0] ==>
      PairsFrom(lines, key, value) == Emit(key, value) + PairsFrom(lines[1..], Some(KeyOf(lines[0])), ValueOf(lines[0]))
    ensures ':' !in lines[0] ==>
      PairsFrom(lines, key, value) == PairsFrom(lines[1..], key, value + " " + Trim(lines[0]))
  {
  }

  /** Every key shown is the pending key or the key of one of the colon lines. */
  lemma {:induction false} KeysFromColonLines(lines: seq<string>, key: Option<string>, value: string)
    ensures forall k :: 0 <= k < |PairsFrom(lines, key, value)| && PairsFrom(lines, key, value)[k].key.Some? ==>
              PairsFrom(lines, key, value)[k].key == key || KeyFromLines(PairsFrom(lines, key, value)[k].key.value, lines)
  {
    if |lines| > 0 {
      var colon := ':' in lines[0];
      var key' := if colon then Some(KeyOf(lines[0])) else key;
      var value' := if colon then ValueOf(lines[0]) else value + " " + Trim(lines[0]);
      var e := if colon then Emit(key, value) else [];
      assert PairsFrom(lines, key, value) == e + PairsFrom(lines[1..], key', value') by {
        Unfold(lines, key, value);
      }
      KeysFromColonLines(lines[1..], key', value');
      KeysOfConcat(lines, key, key', e, PairsFrom(lines[1..], key', value'));
    }
  }

  lemma KeysOfConcat(lines: seq<string>, key: Option<string>, key': Option<string>, e: seq<KvPair>, rest: seq<KvPair>)
    requires |lines| > 0
    requires key' == key || (':' in lines[0] && key' == Some(KeyOf(lines[0])))
    requires forall k :: 0 <= k < |e| ==> e[k].key == key
    requires forall k :: 0 <= k < |rest| && rest[k].key.Some? ==> rest[k].key == key' || KeyFromLines(rest[k].key.value, lines[1..])
    ensures forall k :: 0 <= k < |e + rest| && (e + rest)[k].key.Some? ==> (e + rest)[k].key == key || KeyFromLines((e + rest)[k].key.value, lines)
  {
    var r := e + rest;
    forall k | 0 <= k < |r| && r[k].key.Some? && r[k].key != key
      ensures KeyFromLines(r[k].key.value, lines)
    {
      var m := k - |e|;
      assert 0 <= m < |rest| && r[k] == rest[m];
      if rest[m].key == key' {
        assert ':' in lines[0] && KeyOf(lines[0]) == r[k].key.value;
      } else {
        var j :| 0 <= j < |lines[1..]| && ':' in lines[1..][j] && KeyOf(lines[1..][j]) == rest[m].key.value;
        assert lines[j + 1] == lines[1..][j];
      }
    }
  }

  /** The rows of the OCR table for one page; a missing text gives no rows. */
  function KeyValuePairs(text: Option<string>): seq<KvPair> {
    match text
    case None => []
    case Some(t) => PairsFrom(Lines(t), None, "")
  }

  lemma ColonStep(lines: seq<string>, i: nat, pairs: seq<KvPair>, key: Option<string>, value: string, all: seq<KvPair>)
    requires i < |lines| && ':' in lines[i]
    requires pairs + PairsFrom(lines[i..], key, value) == all
    ensures (pairs + Emit(key, value)) + PairsFrom(lines[i + 1..], Some(KeyOf(lines[i])), ValueOf(lines[i])) == all
  {
    assert lines[i..][1..] == lines[i + 1..];
    Unfold(lines[i..], key, value);
    ConcatAssoc(pairs, Emit(key, value), PairsFrom(lines[i + 1..], Some(KeyOf(lines[i])), ValueOf(lines[i])));
  }

  lemma PlainStep(lines: seq<string>, i: nat, pairs: seq<KvPair>, key: Option<string>, value: string, all: seq<KvPair>)
    requires i < |lines| && ':' !in lines[i]
    requires pairs + PairsFrom(lines[i..], key, value) == all
    ensures pairs + PairsFrom(lines[i + 1..], key, value + " " + Trim(lines[i])) == all
  {
    assert lines[i..][1..] == lines[i + 1..];
    Unfold(lines[i..], key, value);
  }

  /** The per-page loop of the OCR tab: the pending key and value are pushed on each colon line
      and once more at the end. */
  method ParseKeyValues(text: Option<string>) returns (pairs: seq<KvPair>)
    ensures pairs == KeyValuePairs(text)
  {
    var lines := if text.Some? then Lines(text.value) else [];
    pairs := [];
    var key: Option<string> := None;
    var value := "";
    var i := 0;
    while i < |lines|
      invariant 0 <= i <= |lines|
      invariant pairs + PairsFrom(lines[i..], key, value) == PairsFrom(lines, None, "")
    {
      var line := lines[i];
      if ':' in line {
        ColonStep(lines, i, pairs, key, value, PairsFrom(lines, None, ""));
        pairs := pairs + Emit(key, value);
        key := Some(KeyOf(line));
        value := ValueOf(line);
      } else {
        PlainStep(lines, i, pairs, key, value, PairsFrom(lines, None, ""));
        value := value + " " + Trim(line);
      }
      i := i + 1;
    }
    assert lines[i..] == [];
    pairs := pairs + Emit(key, value);
  }

  /** What a run of lines without a colon adds to the pending value: a space and the trimmed line each. */
  function Continuation(lines: seq<string>): string {
    if |lines| == 0 then "" else " " + Trim(lines[0]) + Continuation(lines[1..])
  }

  /** Lines without a colon only extend the pending value, each after one separating space. */
  lemma {:induction false} ContinuationLines(lines: seq<string>, key: Option<string>, value: string)
    requires forall j :: 0 <= j < |lines| ==> ':' !in lines[j]
    ensures PairsFrom(lines, key, value) == Emit(key, value + Continuation(lines))
  {
    if |lines| > 0 {
      var t, c := Trim(lines[0]), Continuation(lines[1..]);
      assert PairsFrom(lines, key, value) == PairsFrom(lines[1..], key, value + " " + t) by {
        Unfold(lines, key, value);
      }
      ContinuationLines(lines[1..], key, value + " " + t);
      assert value + " " + t + c == value + Continuation(lines) by {
        ConcatAssoc(value + " ", t, c);
        ConcatAssoc(value, " ", t + c);
        ConcatAssoc(" ", t, c);
      }
    } else {
      assert value + Continuation(lines) == value;
    }
  }

  /** A colon line with a non-empty key always opens a row carrying that key. */
  lemma {:induction false} KeyedRowEmitted(lines: seq<string>, k: string, value: string)
    requires k != ""
    ensures |PairsFrom(lines, Some(k), value)| > 0
    ensures PairsFrom(lines, Some(k), value)[0].key == Some(k)
  {
    if |lines| > 0 {
      Unfold(lines, Some(k), value);
      if ':' !in lines[0] {
        KeyedRowEmitted(lines[1..], k, value + " " + Trim(lines[0]));
      }
    }
  }

  /** A single line "key: value" gives exactly one row. */
  lemma OneColonLine(a: string, b: string)
    requires ':' !in a && '\n' !in a && '\n' !in b
    requires Trim(a) != ""
    ensures KeyValuePairs(Some(a + ":" + b)) == [KvPair(Some(Trim(a)), Trim(b))]
  {
    var line := a + ":" + b;
    assert line[|a|] == ':';
    assert '\n' !in line by {
      forall i | 0 <= i < |line| ensures line[i] != '\n' {
        if i < |a| { assert line[i] == a[i]; } else if i > |a| { assert line[i] == b[i - |a| - 1]; }
      }
    }
    LinesSingle(line);
    KeyAndValue(a, b);
    TrimIdempotent(b);
    Unfold([line], None, "");
    assert [line][1..] == [];
  }

  /** An empty text still gives one row, keyless and empty, because the lone empty line is
      appended to the pending value as a single space. */
  lemma EmptyTextRow()
    ensures KeyValuePairs(Some("")) == [KvPair(None, "")]
  {
    LinesSingle("");
    assert Lines("")[1..] == [];
    assert Trim("") == "";
    assert Trim(" ") == "";
  }

  // ----------------------------------------------------------------------------------------------
  // Document-name normalisation
  // ----------------------------------------------------------------------------------------------

  /** Position i holds a word character at a word boundary: the match of \b\w. */
  predicate WordStart(s: string, i: int)
    requires 0 <= i < |s|
  {
    IsWordChar(s[i]) && (i == 0 || !IsWordChar(s[i - 1]))
  }

  /** .replace(/\b\w/g, c => c.toUpperCase()) */
  function CapitalizeWords(s: string): (r: string)
    ensures |r| == |s|
    ensures forall i :: 0 <= i < |s| ==> r[i] == (if WordStart(s, i) then UpperChar(s[i]) else s[i])
  {
    seq(|s|, i requires 0 <= i < |s| => if WordStart(s, i) then UpperChar(s[i]) else s[i])
  }

  /** The shared tail of both normalisations: lower-case, underscores to spaces, capitalise words. */
  function TitleWords(s: string): (r: string)
    ensures |r| == |s|
    ensures forall i :: 0 <= i < |r| ==> r[i] != '_'
    ensures forall i :: 0 <= i < |r| ==> (WordStart(r, i) ==> !IsLower(r[i])) && (!WordStart(r, i) ==> !IsUpper(r[i]))
    ensures forall i :: 0 <= i < |r| && !IsLetter(r[i]) ==> r[i] == s[i] || (s[i] == '_' && r[i] == ' ')
    ensures ToLower(r) == ReplaceChar(ToLower(s), '_', ' ')
  {
    var lowered := ReplaceChar(ToLower(s), '_', ' ');
    var r := CapitalizeWords(lowered);
    assert forall i :: 0 <= i < |r| ==> IsWordChar(r[i]) == IsWordChar(lowered[i]);
    forall i | 0 <= i < |r|
      ensures LowerChar(r[i]) == lowered[i]
    {
      LowerOfUpper(lowered[i]);
    }
    r
  }

  /** Title-casing a string that is already title-cased changes nothing. */
  lemma TitleWordsIdempotent(s: string)
    ensures TitleWords(TitleWords(s)) == TitleWords(s)
  {
    var lowered := ReplaceChar(ToLower(s), '_', ' ');
    var t := TitleWords(s);
    assert ToLower(t) == lowered;
    assert ReplaceChar(lowered, '_', ' ') == lowered;
  }

  /** normalizeDocName: quotes of both kinds removed, then title-cased word by word. Ignoring
      case, the result is the name without quotes and with underscores as spaces; its case is
      upper at the start of each word and lower elsewhere, which fixes it completely. */
  function NormalizeDocName(name: string): (r: string)
    ensures forall i :: 0 <= i < |r| ==> r[i] != '"' && r[i] != '\'' && r[i] != '_'
    ensures forall i :: 0 <= i < |r| ==> (WordStart(r, i) ==> !IsLower(r[i])) && (!WordStart(r, i) ==> !IsUpper(r[i]))
    ensures ToLower(r) == ReplaceChar(ToLower(RemoveChars(name, {'"', '\''})), '_', ' ')
    ensures |r| <= |name|
  {
    TitleWords(RemoveChars(name, {'"', '\''}))
  }

  /** Normalising a normalised name changes nothing. */
  lemma NormalizeDocNameIdempotent(name: string)
    ensures NormalizeDocName(NormalizeDocName(name)) == NormalizeDocName(name)
  {
    var once := NormalizeDocName(name);
    RemoveAbsentChars(once, {'"', '\''});
    TitleWordsIdempotent(RemoveChars(name, {'"', '\''}));
  }

  /** normalizeText: '-' for a missing or empty text; otherwise only double quotes are removed
      before the same title-casing (lower case, '_' to ' ', each word's first letter upper case),
      so a name without single quotes normalises as a document name. */
  function NormalizeText(text: Option<string>): (r: string)
    ensures text == None || text == Some("") ==> r == "-"
    ensures text.Some? && text.value != "" && '\'' !in text.value ==> r == NormalizeDocName(text.value)
    ensures text.Some? && text.value != "" ==> forall i :: 0 <= i < |r| ==> r[i] != '"' && r[i] != '_'
    ensures text.Some? && text.value != "" ==> ToLower(r) == ReplaceChar(ToLower(RemoveChars(text.value, {'"'})), '_', ' ')
    ensures forall i :: 0 <= i < |r| ==> (WordStart(r, i) ==> !IsLower(r[i])) && (!WordStart(r, i) ==> !IsUpper(r[i]))
  {
    if text.None? || text.value == "" then "-"
    else
      var t := text.value;
      assert '\'' !in t ==> RemoveChars(t, {'"'}) == RemoveChars(t, {'"', '\''}) by {
        if '\'' !in t { SameRemoval(t); }
      }
      TitleWords(RemoveChars(t, {'"'}))
  }

  lemma {:induction false} SameRemoval(t: string)
    requires '\'' !in t
    ensures RemoveChars(t, {'"'}) == RemoveChars(t, {'"', '\''})
  {
    if |t| > 0 {
      assert '\'' !in t[1..] by { assert forall c :: c in t[1..] ==> c in t; }
      SameRemoval(t[1..]);
    }
  }

  // ----------------------------------------------------------------------------------------------
  // Pages, tabs and the summary fetch
  // ----------------------------------------------------------------------------------------------

  /** One page entry of a documents JSON: page_no, text and signature_stamp. */
  datatype Page = Page(pageNo: int, text: string, stamp: string)

  /** The value under one document type: normally an array of pages, sometimes a single page. */
  datatype Group = PageList(pages: seq<Page>) | SinglePage(page: Page)

  /** Array.isArray(x) ? x : [x] */
  function PagesOf(g: Group): (r: seq<Page>)
    ensures g.PageList? ==> r == g.pages
    ensures g.SinglePage? ==> r == [g.page]
  {
    match g
    case PageList(ps) => ps
    case SinglePage(p) => [p]
  }

  datatype Tab = Draft | Ocr | Classification | FinalOcr | Summary

  const AllTabs: seq<Tab> := [Draft, Ocr, Classification, FinalOcr, Summary]

  /** The tab filter: every tab except Summary, which needs summary data. */
  function KeepTabs(tabs: seq<Tab>, hasSummary: bool): (r: seq<Tab>)
    ensures forall t :: t in r <==> t in tabs && (t != Summary || hasSummary)
    ensures hasSummary ==> r == tabs
    ensures |r| <= |tabs|
  {
    if |tabs| == 0 then []
    else (if tabs[0] != Summary || hasSummary then [tabs[0]] else []) + KeepTabs(tabs[1..], hasSummary)
  }

  /** The tabs listed for the current summary pages. */
  function VisibleTabs(summaryPages: map<string, Group>): (r: seq<Tab>)
    ensures Summary in r <==> |summaryPages| > 0
    ensures forall t :: t != Summary ==> t in r
    ensures |summaryPages| > 0 ==> r == AllTabs
    ensures |summaryPages| == 0 ==> r == [Draft, Ocr, Classification, FinalOcr]
  {
    assert KeepTabs(AllTabs[4..], false) == [];
    assert KeepTabs(AllTabs[3..], false) == [FinalOcr];
    assert KeepTabs(AllTabs[2..], false) == [Classification, FinalOcr];
    assert KeepTabs(AllTabs[1..], false) == [Ocr, Classification, FinalOcr];
    KeepTabs(AllTabs, |summaryPages| > 0)
  }

  /** The outcome of JSON.parse on a non-empty documents_json string. */
  datatype Parsed = Unparsable | NullValue | ArrayValue(pages: seq<Page>) | ObjectValue(groups: map<string, Group>)

  /** A summary row; a missing or empty documents_json is None. */
  datatype SummaryRecord = NullRecord | Record(documentsJson: Option<Parsed>)

  /** The reply to the summary request: a failure, an array of rows, or a single row. */
  datatype SummaryReply = RequestFailed | ArrayBody(records: seq<SummaryRecord>) | SingleBody(record: SummaryRecord)

  /** The reply holds a first row whose documents_json parses to a non-empty mapping. */
  predicate HasSummary(reply: SummaryReply) {
    var records := Records(reply);
    |records| > 0 && records[0].Record? && records[0].documentsJson.Some? &&
    (records[0].documentsJson.value.ArrayValue? ||
     (records[0].documentsJson.value.ObjectValue? && |records[0].documentsJson.value.groups| > 0))
  }

  /** The rows of a reply: a single row is wrapped in an array, a failure has none. */
  function Records(reply: SummaryReply): seq<SummaryRecord> {
    if reply.ArrayBody? then reply.records else if reply.SingleBody? then [reply.record] else []
  }

  /** The summary pages and the finalised flag left by fetchSummary: the first row's mapping (a
      top-level array under "default"), finalised exactly when that mapping is non-empty, and
      nothing otherwise. */
  function SummaryState(reply: SummaryReply): (r: (map<string, Group>, bool))
    ensures r.1 <==> |r.0| > 0
    ensures r.1 <==> HasSummary(reply)
    ensures !HasSummary(reply) ==> r.0 == map[]
    ensures HasSummary(reply) ==>
      var parsed := Records(reply)[0].documentsJson.value;
      (parsed.ArrayValue? ==> r.0 == map["default" := PageList(parsed.pages)]) &&
      (parsed.ObjectValue? ==> r.0 == parsed.groups)
  {
    var records := Records(reply);
    if reply.RequestFailed? || |records| == 0 || records[0].NullRecord? || records[0].documentsJson.None? then
      (map[], false)
    else
      match records[0].documentsJson.value
      case Unparsable => (map[], false)
      case NullValue => (map[], false)
      case ArrayValue(pages) => (map["default" := PageList(pages)], true)
      case ObjectValue(groups) => (groups, |groups| > 0)
  }

  /** A top-level JSON array is shown under the single document type "default". */
  lemma ArraySummaryIsDefault(pages: seq<Page>)
    ensures SummaryState(SingleBody(Record(Some(ArrayValue(pages))))).0 == map["default" := PageList(pages)]
    ensures SummaryState(ArrayBody([Record(Some(ArrayValue(pages)))])).0 == map["default" := PageList(pages)]
  {
  }

  // ----------------------------------------------------------------------------------------------
  // Editing one page of the assembled documents JSON
  // ----------------------------------------------------------------------------------------------

  /** The index of the first page whose page_no is `pageNo`, as Array.prototype.find. */
  function FirstMatch(pages: seq<Page>, pageNo: int): (r: Option<nat>)
    ensures r.Some? ==> r.value < |pages| && pages[r.value].pageNo == pageNo &&
                        forall j :: 0 <= j < r.value ==> pages[j].pageNo != pageNo
    ensures r.None? ==> forall j :: 0 <= j < |pages| ==> pages[j].pageNo != pageNo
  {
    if |pages| == 0 then None
    else if pages[0].pageNo == pageNo then Some(0)
    else match FirstMatch(pages[1..], pageNo)
      case None => None
      case Some(i) => Some(i + 1)
  }

  /** The Save click: the text of the first page with that page_no in the group of that document
      type is replaced. It throws when the group is not an array or has no such page. */
  function SetPageText(docJson: map<string, Group>, docType: string, pageNo: int, text: string): (r: Result<map<string, Group>, string>)
    ensures r.Ok? <==> docType in docJson && docJson[docType].PageList? && FirstMatch(docJson[docType].pages, pageNo).Some?
    ensures r.Ok? ==> r.value.Keys == docJson.Keys
    ensures r.Ok? ==> forall t :: t in docJson && t != docType ==> r.value[t] == docJson[t]
    ensures r.Ok? ==>
      var old_ := docJson[docType].pages;
      var i := FirstMatch(old_, pageNo).value;
      r.value[docType].PageList? && |r.value[docType].pages| == |old_| &&
      (forall j :: 0 <= j < |old_| && j != i ==> r.value[docType].pages[j] == old_[j]) &&
      r.value[docType].pages[i] == Page(pageNo, text, old_[i].stamp)
  {
    if docType !in docJson then Err("undefined has no find")
    else match docJson[docType]
      case SinglePage(_) => Err("find is not a function")
      case PageList(ps) =>
        match FirstMatch(ps, pageNo)
        case None => Err("cannot set text of undefined")
        case Some(i) => Ok(docJson[docType := PageList(ps[i := ps[i].(text := text)])])
  }

  // ----------------------------------------------------------------------------------------------
  // The review panel state
  // ----------------------------------------------------------------------------------------------

  /** The key `${doc_id}_${page_no}` of one page row; document types share it. */
  datatype RowKey = RowKey(docId: string, pageNo: int)

  class ReviewPanel {
    var activeTab: Tab
    var isFinalized: bool
    var summaryPages: map<string, Group>
    var editMode: map<RowKey, bool>
    var editedText: map<RowKey, string>
    /** Document ids sent to the approve endpoint, in order. */
    ghost var approvals: seq<string>
    /** (doc id, documents JSON) bodies sent by saveEdits, in order. */
    ghost var saves: seq<(string, map<string, Group>)>

    /** A row in edit mode always has an edited text. */
    ghost predicate Valid()
      reads this
    {
      forall k :: k in editMode && editMode[k] ==> k in editedText
    }

    constructor ()
      ensures Valid()
      ensures activeTab == Draft && !isFinalized && summaryPages == map[]
      ensures editMode == map[] && editedText == map[] && approvals == [] && saves == []
    {
      activeTab := Draft;
      isFinalized := false;
      summaryPages := map[];
      editMode := map[];
      editedText := map[];
      approvals := [];
      saves := [];
    }

    predicate Editing(k: RowKey)
      reads this
    {
      k in editMode && editMode[k]
    }

    /** The Finalize button is shown. */
    predicate FinalizeOffered()
      reads this
    {
      !isFinalized
    }

    /** The Edit button of a row is shown. */
    predicate EditOffered(k: RowKey)
      reads this
    {
      !isFinalized && !Editing(k)
    }

    /** The Save button of a row is shown. */
    predicate SaveOffered(k: RowKey)
      reads this
    {
      !isFinalized && Editing(k)
    }

    /** The row shows a text area rather than read-only text. */
    predicate TextEditable(k: RowKey)
      reads this
    {
      Editing(k) && !isFinalized
    }

    /** fetchSummary: both fields are set from the reply; every failure leaves {} and false. */
    method FetchSummary(reply: SummaryReply)
      requires Valid()
      modifies this
      ensures Valid()
      ensures (summaryPages, isFinalized) == SummaryState(reply)
      ensures activeTab == old(activeTab) && editMode == old(editMode) && editedText == old(editedText)
      ensures approvals == old(approvals) && saves == old(saves)
    {
      var state := SummaryState(reply);
      summaryPages := state.0;
      isFinalized := state.1;
    }

    /** finalizeDocument: after a successful approval the flag is set, the summary re-fetched and
        the Summary tab opened; a failed approval changes nothing but the request log. */
    method Finalize(docId: string, approved: bool, reply: SummaryReply)
      requires Valid() && FinalizeOffered()
      modifies this
      ensures Valid()
      ensures approvals == old(approvals) + [docId]
      ensures approved ==> activeTab == Summary && (summaryPages, isFinalized) == SummaryState(reply)
      ensures !approved ==> activeTab == old(activeTab) && isFinalized == old(isFinalized) && summaryPages == old(summaryPages)
      ensures editMode == old(editMode) && editedText == old(editedText) && saves == old(saves)
    {
      approvals := approvals + [docId];
      if approved {
        isFinalized := true;
        FetchSummary(reply);
        activeTab := Summary;
      }
    }

    /** The tab-data load: a first final-OCR row with status APPROVED locks the panel and fetches the summary. */
    method TabDataLoaded(firstStatus: Option<string>, reply: SummaryReply)
      requires Valid()
      modifies this
      ensures Valid()
      ensures firstStatus == Some("APPROVED") ==> (summaryPages, isFinalized) == SummaryState(reply)
      ensures firstStatus != Some("APPROVED") ==> isFinalized == old(isFinalized) && summaryPages == old(summaryPages)
      ensures activeTab == old(activeTab) && editMode == old(editMode) && editedText == old(editedText)
      ensures approvals == old(approvals) && saves == old(saves)
    {
      if firstStatus == Some("APPROVED") {
        isFinalized := true;
        FetchSummary(reply);
      }
    }

    /** The Edit click: the row enters edit mode with the page's current text. */
    method Edit(k: RowKey, text: string)
      requires Valid() && EditOffered(k)
      modifies this
      ensures Valid()
      ensures editMode == old(editMode)[k := true] && editedText == old(editedText)[k := text]
      ensures activeTab == old(activeTab) && isFinalized == old(isFinalized) && summaryPages == old(summaryPages)
      ensures approvals == old(approvals) && saves == old(saves)
    {
      editMode := editMode[k := true];
      editedText := editedText[k := text];
    }

    /** Typing in the text area. */
    method Type(k: RowKey, text: string)
      requires Valid() && TextEditable(k)
      modifies this
      ensures Valid()
      ensures editedText == old(editedText)[k := text]
      ensures editMode == old(editMode) && activeTab == old(activeTab) && isFinalized == old(isFinalized)
      ensures summaryPages == old(summaryPages) && approvals == old(approvals) && saves == old(saves)
    {
      editedText := editedText[k := text];
    }

    /** The Save click: the edited text goes into the matching page, the whole mapping is sent,
        and the row leaves edit mode; when the lookup throws nothing happens. */
    method Save(docId: string, docJson: map<string, Group>, docType: string, pageNo: int)
      returns (r: Result<map<string, Group>, string>)
      requires Valid() && SaveOffered(RowKey(docId, pageNo))
      modifies this
      ensures Valid()
      ensures r == SetPageText(docJson, docType, pageNo, old(editedText)[RowKey(docId, pageNo)])
      ensures r.Ok? ==> saves == old(saves) + [(docId, r.value)] && editMode == old(editMode)[RowKey(docId, pageNo) := false]
      ensures r.Err? ==> saves == old(saves) && editMode == old(editMode)
      ensures editedText == old(editedText) && activeTab == old(activeTab) && isFinalized == old(isFinalized)
      ensures summaryPages == old(summaryPages) && approvals == old(approvals)
    {
      var k := RowKey(docId, pageNo);
      r := SetPageText(docJson, docType, pageNo, editedText[k]);
      if r.Ok? {
        saves := saves + [(docId, r.value)];
        editMode := editMode[k := false];
      }
    }
  }

  /** A click or keystroke on the panel. */
  datatype Action =
    | FinalizeClick(docId: string, approved: bool, reply: SummaryReply)
    | EditClick(key: RowKey, text: string)
    | TypeText(key: RowKey, text: string)
    | SaveClick(docId: string, docJson: map<string, Group>, docType: string, pageNo: int)

  /** The user's actions reach a handler only through the control the screen renders: the
      Finalize and Edit buttons, the text area and the Save button. */
  method Handle(p: ReviewPanel, a: Action)
    requires p.Valid()
    modifies p
    ensures p.Valid()
    ensures old(p.isFinalized) ==>
      p.isFinalized && p.activeTab == old(p.activeTab) && p.summaryPages == old(p.summaryPages) &&
      p.editMode == old(p.editMode) && p.editedText == old(p.editedText) &&
      p.approvals == old(p.approvals) && p.saves == old(p.saves)
    ensures !old(p.isFinalized) && a.FinalizeClick? ==> p.approvals == old(p.approvals) + [a.docId]
    ensures !old(p.isFinalized) && a.EditClick? && !old(p.Editing(a.key)) ==>
      p.editMode == old(p.editMode)[a.key := true] && p.editedText == old(p.editedText)[a.key := a.text]
    ensures !old(p.isFinalized) && a.TypeText? && old(p.Editing(a.key)) ==>
      p.editedText == old(p.editedText)[a.key := a.text]
    ensures !old(p.isFinalized) && a.SaveClick? && old(p.Editing(RowKey(a.docId, a.pageNo))) ==>
      var r := SetPageText(a.docJson, a.docType, a.pageNo, old(p.editedText)[RowKey(a.docId, a.pageNo)]);
      p.saves == old(p.saves) + (if r.Ok? then [(a.docId, r.value)] else [])
  {
    match a
    case FinalizeClick(docId, approved, reply) =>
      if p.FinalizeOffered() {
        p.Finalize(docId, approved, reply);
      }
    case EditClick(k, text) =>
      if p.EditOffered(k) {
        p.Edit(k, text);
      }
    case TypeText(k, text) =>
      if p.TextEditable(k) {
        p.Type(k, text);
      }
    case SaveClick(docId, docJson, docType, pageNo) =>
      if p.SaveOffered(RowKey(docId, pageNo)) {
        var _ := p.Save(docId, docJson, docType, pageNo);
      }
  }

  /** Once finalised, no Finalize, Edit or Save button is shown and no text is editable. */
  lemma FinalizedIsReadOnly(p: ReviewPanel, k: RowKey)
    requires p.isFinalized
    ensures !p.FinalizeOffered() && !p.EditOffered(k) && !p.SaveOffered(k) && !p.TextEditable(k)
  {
  }

  /** The lock is re-derived from the summary after approval: an approval whose summary fetch
      fails or finds nothing leaves the panel unlocked. */
  lemma ApprovalWithoutSummaryUnlocks()
    ensures !SummaryState(RequestFailed).1
    ensures !SummaryState(ArrayBody([])).1
    ensures !SummaryState(SingleBody(Record(Some(ObjectValue(map[]))))).1
  {
  }
}
