/** The final-OCR record of a document: the grouping of its classified OCR pages into the
    documents JSON, and the versioned draft/edit/approve life of the record with its
    append-only history table. */
module FinalOcr {
  import opened Wrappers
  import opened Lists

  // ----------------------------------------------------------------------------------------------
  // Grouping the classified pages
  // ----------------------------------------------------------------------------------------------

  /** One row of the classification/OCR join: (classified_name, page_no, extracted_text, signature_stamp). */
  datatype Row = Row(name: string, page: int, text: string, stamp: string)

  /** One page of the documents JSON: {"page_no", "text", "signature_stamp"}. */
  datatype Entry = Entry(pageNo: int, text: string, stamp: string)

  type Documents = map<string, seq<Entry>>

  function EntryOf(r: Row): Entry {
    Entry(r.page, r.text, r.stamp)
  }

  /** The pages of the rows named n, in row order: the reference definition of one group. */
  function EntriesNamed(rows: seq<Row>, n: string): (r: seq<Entry>)
    ensures |r| <= |rows|
  {
    if |rows| == 0 then []
    else EntriesNamed(rows[..|rows| - 1], n) + (if rows[|rows| - 1].name == n then [EntryOf(rows[|rows| - 1])] else [])
  }

  /** The dictionary `documents` after `setdefault(name, []).append(...)` on every row in turn. */
  function Grouped(rows: seq<Row>): Documents {
    if |rows| == 0 then map[]
    else
      var m := Grouped(rows[..|rows| - 1]);
      var r := rows[|rows| - 1];
      m[r.name := (if r.name in m then m[r.name] else []) + [EntryOf(r)]]
  }

  predicate NameOccurs(rows: seq<Row>, n: string) {
    exists i :: 0 <= i < |rows| && rows[i].name == n
  }

  /** Every row lands in the group of its own name and nowhere else, in row order; there is a
      group exactly for each name that occurs. */
  lemma {:induction false} GroupedIsByName(rows: seq<Row>, n: string)
    ensures n in Grouped(rows) <==> NameOccurs(rows, n)
    ensures n in Grouped(rows) ==> Grouped(rows)[n] == EntriesNamed(rows, n)
    ensures n !in Grouped(rows) ==> EntriesNamed(rows, n) == []
  {
    if |rows| > 0 {
      var init := rows[..|rows| - 1];
      GroupedIsByName(init, n);
      if NameOccurs(init, n) {
        var i :| 0 <= i < |init| && init[i].name == n;
        assert rows[i].name == n;
      }
      if NameOccurs(rows, n) && rows[|rows| - 1].name != n {
        var i :| 0 <= i < |rows| && rows[i].name == n;
        assert init[i].name == n;
      }
    }
  }

  /** The number of entries in the groups of the names ns. */
  function Total(rows: seq<Row>, ns: seq<string>): nat {
    if |ns| == 0 then 0 else |EntriesNamed(rows, ns[0])| + Total(rows, ns[1..])
  }

  /** One more row adds one entry to exactly one group. */
  lemma {:induction false} TotalAppend(rows: seq<Row>, r: Row, ns: seq<string>)
    requires Distinct(ns)
    ensures Total(rows + [r], ns) == Total(rows, ns) + (if r.name in ns then 1 else 0)
  {
    if |ns| > 0 {
      assert (rows + [r])[..|rows + [r]| - 1] == rows;
      TotalAppend(rows, r, ns[1..]);
      assert r.name in ns <==> r.name == ns[0] || r.name in ns[1..];
    }
  }

  /** The groups together hold exactly as many entries as there are rows. */
  lemma {:induction false} GroupingKeepsEveryRow(rows: seq<Row>, ns: seq<string>)
    requires Distinct(ns)
    requires forall i :: 0 <= i < |rows| ==> rows[i].name in ns
    ensures Total(rows, ns) == |rows|
  {
    if |rows| == 0 {
      EmptyTotal(ns);
    } else {
      var init := rows[..|rows| - 1];
      assert init + [rows[|rows| - 1]] == rows;
      GroupingKeepsEveryRow(init, ns);
      TotalAppend(init, rows[|rows| - 1], ns);
    }
  }

  lemma {:induction false} EmptyTotal(ns: seq<string>)
    ensures Total([], ns) == 0
  {
    if |ns| > 0 {
      EmptyTotal(ns[1..]);
    }
  }

  /** The groups listed by the names GroupRows returns hold every row exactly once. */
  lemma GroupNamesHoldAllRows(rows: seq<Row>, names: seq<string>)
    requires Distinct(names)
    requires forall n :: n in Grouped(rows) <==> n in names
    ensures Total(rows, names) == |rows|
  {
    forall i | 0 <= i < |rows| ensures rows[i].name in names {
      GroupedIsByName(rows, rows[i].name);
    }
    GroupingKeepsEveryRow(rows, names);
  }

  /** The names of the rows, each once, in order of first appearance: the key order of a Python
      dictionary filled row by row. */
  function FirstNames(rows: seq<Row>): (r: seq<string>)
    ensures Distinct(r)
    ensures forall n :: n in r <==> NameOccurs(rows, n)
  {
    if |rows| == 0 then []
    else
      var init := rows[..|rows| - 1];
      var p := FirstNames(init);
      var n := rows[|rows| - 1].name;
      assert forall m :: NameOccurs(rows, m) <==> NameOccurs(init, m) || m == n by {
        forall m ensures NameOccurs(rows, m) <==> NameOccurs(init, m) || m == n {
          if NameOccurs(init, m) {
            var i :| 0 <= i < |init| && init[i].name == m;
            assert rows[i].name == m;
          }
          if NameOccurs(rows, m) && m != n {
            var i :| 0 <= i < |rows| && rows[i].name == m;
            assert init[i].name == m;
          }
        }
      }
      if n in p then p else p + [n]
  }

  /** A name listed before another occurs in an earlier row than every row of the later name. */
  lemma {:induction false} FirstNamesInOrder(rows: seq<Row>, a: nat, b: nat, j: nat)
    requires a < b < |FirstNames(rows)|
    requires j < |rows| && rows[j].name == FirstNames(rows)[b]
    ensures exists i :: 0 <= i < j && rows[i].name == FirstNames(rows)[a]
  {
    var init := rows[..|rows| - 1];
    var p := FirstNames(init);
    var n := rows[|rows| - 1].name;
    var names := FirstNames(rows);
    if j < |init| {
      assert init[j].name == rows[j].name;
      assert NameOccurs(init, init[j].name);
      FirstNamesInOrder(init, a, b, j);
      var i :| 0 <= i < j && init[i].name == p[a];
      assert rows[i].name == names[a];
    } else {
      assert names[a] in p by {
        if n !in p {
          assert names[a] == p[a];
        }
      }
      assert NameOccurs(init, names[a]);
      var i :| 0 <= i < |init| && init[i].name == names[a];
      assert rows[i].name == names[a];
    }
  }

  lemma GroupedStep(rows: seq<Row>, i: nat)
    requires i < |rows|
    ensures Grouped(rows[..i + 1]) ==
      var m := Grouped(rows[..i]);
      m[rows[i].name := (if rows[i].name in m then m[rows[i].name] else []) + [EntryOf(rows[i])]]
  {
    assert rows[..i + 1][..i] == rows[..i];
  }

  lemma FirstNamesStep(rows: seq<Row>, i: nat)
    requires i < |rows|
    ensures FirstNames(rows[..i + 1]) ==
      var p := FirstNames(rows[..i]);
      if rows[i].name in p then p else p + [rows[i].name]
  {
    assert rows[..i + 1][..i] == rows[..i];
  }

  /** create_final_record's loop: the groups, and the names of the groups, each once, in order
      of first appearance (the key order of the dictionary). */
  method GroupRows(rows: seq<Row>) returns (documents: Documents, names: seq<string>)
    ensures documents == Grouped(rows)
    ensures names == FirstNames(rows)
    ensures forall n :: n in documents <==> n in names
  {
    documents := map[];
    names := [];
    var i := 0;
    while i < |rows|
      invariant 0 <= i <= |rows|
      invariant documents == Grouped(rows[..i])
      invariant names == FirstNames(rows[..i])
    {
      var r := rows[i];
      var group := if r.name in documents then documents[r.name] else [];
      FirstNamesStep(rows, i);
      GroupedStep(rows, i);
      GroupedIsByName(rows[..i], r.name);
      if r.name !in documents {
        names := names + [r.name];
      }
      documents := documents[r.name := group + [EntryOf(r)]];
      i := i + 1;
    }
    assert rows[..i] == rows;
    forall n ensures n in documents <==> n in names {
      GroupedIsByName(rows, n);
    }
  }

  // ----------------------------------------------------------------------------------------------
  // The versioned record and its history
  // ----------------------------------------------------------------------------------------------

  /** The documents JSON as stored: the dump of a grouping, or the text a reviewer saved. */
  datatype Json = Dumped(documents: Documents, names: seq<string>) | Saved(text: string)

  datatype Status = Draft | Approved

  /** A row of OF_final_ocr. */
  datatype Record = Record(caseId: string, filePath: string, wholeText: string, documentsJson: Json,
                           status: Status, version: nat, lastEditedBy: Option<string>)

  datatype Action = Created | Edited | ApprovedAction

  /** A row of OF_final_ocr_version. */
  datatype HistoryRow = HistoryRow(docId: string, version: nat, documentsJson: Json, editedBy: Option<string>, action: Action)

  /** The two tables. */
  datatype Tables = Tables(records: map<string, Record>, history: seq<HistoryRow>)

  /** What get_final_ocr returns. */
  datatype View = View(docId: string, documentsJson: Json, status: Status, version: nat)

  /** create_final_record's effect: the record is (re)written as version 0, DRAFT, and a
      CREATED history row with version 0 and the same JSON is appended. */
  function CreateStep(t: Tables, caseId: string, docId: string, filePath: string, wholeText: Option<string>, json: Json): (r: Tables)
    ensures docId in r.records && r.records[docId].version == 0 && r.records[docId].status == Draft
    ensures r.records[docId].documentsJson == json
    ensures r.records[docId].wholeText == (if wholeText.Some? then wholeText.value else "")
    ensures forall d :: d in t.records && d != docId ==> d in r.records && r.records[d] == t.records[d]
    ensures r.history == t.history + [HistoryRow(docId, 0, json, None, Created)]
  {
    var text := if wholeText.Some? then wholeText.value else "";
    Tables(t.records[docId := Record(caseId, filePath, text, json, Draft, 0, None)],
           t.history + [HistoryRow(docId, 0, json, None, Created)])
  }

  /** update_final_ocr's effect: the version goes up by one, the JSON is replaced, and an EDITED
      history row carries the new version, JSON and user. A missing record fails when the new
      version is read back, and nothing is committed. Whether the stored procedure refuses an
      APPROVED record cannot be seen from the Python, so an approved record is edited like any
      other and stays APPROVED. */
  function EditStep(t: Tables, docId: string, newJson: string, user: string): (r: Result<Tables, string>)
    ensures r.Err? <==> docId !in t.records
    ensures r.Ok? ==>
      var old_ := t.records[docId];
      docId in r.value.records &&
      var rec := r.value.records[docId];
      rec.version == old_.version + 1 && rec.documentsJson == Saved(newJson) &&
      rec.status == old_.status && rec.lastEditedBy == Some(user) &&
      r.value.history == t.history + [HistoryRow(docId, old_.version + 1, Saved(newJson), Some(user), Edited)]
    ensures r.Ok? ==> forall d :: d in t.records && d != docId ==> d in r.value.records && r.value.records[d] == t.records[d]
  {
    if docId !in t.records then Err("Final OCR not found")
    else
      var rec := t.records[docId];
      var rec' := rec.(documentsJson := Saved(newJson), version := rec.version + 1, lastEditedBy := Some(user));
      Ok(Tables(t.records[docId := rec'],
                t.history + [HistoryRow(docId, rec'.version, Saved(newJson), Some(user), Edited)]))
  }

  /** approve_final_ocr's effect: a missing record raises; an approved one is left alone;
      otherwise the record is locked and one APPROVED history row with the unchanged version
      and JSON is appended. */
  function ApproveStep(t: Tables, docId: string, user: string): (r: Result<Tables, string>)
    ensures r.Err? <==> docId !in t.records
    ensures r.Ok? && t.records[docId].status == Approved ==> r.value == t
    ensures r.Ok? && t.records[docId].status != Approved ==>
      var old_ := t.records[docId];
      docId in r.value.records &&
      r.value.records[docId] == old_.(status := Approved, lastEditedBy := Some(user)) &&
      r.value.history == t.history + [HistoryRow(docId, old_.version, old_.documentsJson, Some(user), ApprovedAction)]
    ensures r.Ok? ==> forall d :: d in t.records && d != docId ==> d in r.value.records && r.value.records[d] == t.records[d]
  {
    if docId !in t.records then Err("Final OCR not found")
    else
      var rec := t.records[docId];
      if rec.status == Approved then Ok(t)
      else
        Ok(Tables(t.records[docId := rec.(status := Approved, lastEditedBy := Some(user))],
                  t.history + [HistoryRow(docId, rec.version, rec.documentsJson, Some(user), ApprovedAction)]))
  }

  /** get_final_ocr: nothing for an unknown document. */
  function GetStep(t: Tables, docId: string): (r: Option<View>)
    ensures r.None? <==> docId !in t.records
    ensures r.Some? ==> r.value.docId == docId && r.value.version == t.records[docId].version &&
                        r.value.status == t.records[docId].status && r.value.documentsJson == t.records[docId].documentsJson
  {
    if docId !in t.records then None
    else
      var rec := t.records[docId];
      Some(View(docId, rec.documentsJson, rec.status, rec.version))
  }

  /** Approving twice is approving once. */
  lemma ApproveIdempotent(t: Tables, docId: string, user: string, user': string)
    requires ApproveStep(t, docId, user).Ok?
    ensures ApproveStep(ApproveStep(t, docId, user).value, docId, user') == ApproveStep(t, docId, user)
  {
  }

  /** History is append-only: no step removes or rewrites an earlier row. */
  lemma HistoryAppendOnly(t: Tables, docId: string, user: string, newJson: string)
    ensures var e := EditStep(t, docId, newJson, user); e.Ok? ==> t.history < e.value.history
    ensures var a := ApproveStep(t, docId, user); a.Ok? ==> t.history <= a.value.history
  {
  }

  /** After an edit, the record's version is the version of the newest history row. */
  lemma EditRecordsNewVersion(t: Tables, docId: string, newJson: string, user: string)
    requires EditStep(t, docId, newJson, user).Ok?
    ensures var r := EditStep(t, docId, newJson, user).value;
      r.history[|r.history| - 1].version == r.records[docId].version
  {
  }

  /** The database tables seen by the final-OCR functions. */
  class FinalOcrTables {
    var records: map<string, Record>
    var history: seq<HistoryRow>

    constructor ()
      ensures records == map[] && history == []
    {
      records := map[];
      history := [];
    }

    function State(): Tables
      reads this
    {
      Tables(records, history)
    }

    /** create_final_record: groups the rows, upserts the record (its JSON lists the groups in
        the order their names first appear) and logs the creation. */
    method CreateFinalRecord(caseId: string, docId: string, filePath: string, wholeText: Option<string>, rows: seq<Row>)
      modifies this
      ensures State() == CreateStep(old(State()), caseId, docId, filePath, wholeText, Dumped(Grouped(rows), FirstNames(rows)))
    {
      var documents, names := GroupRows(rows);
      var json := Dumped(documents, names);
      var text := if wholeText.Some? then wholeText.value else "";
      records := records[docId := Record(caseId, filePath, text, json, Draft, 0, None)];
      history := history + [HistoryRow(docId, 0, json, None, Created)];
    }

    method GetFinalOcr(docId: string) returns (r: Option<View>)
      ensures r == GetStep(State(), docId)
    {
      if docId !in records {
        return None;
      }
      var rec := records[docId];
      return Some(View(docId, rec.documentsJson, rec.status, rec.version));
    }

    /** update_final_ocr; an Err result is the exception, and then nothing changed. */
    method UpdateFinalOcr(docId: string, newJson: string, user: string) returns (r: Result<(), string>)
      modifies this
      ensures var e := EditStep(old(State()), docId, newJson, user);
        (r.Err? <==> e.Err?) && (e.Ok? ==> State() == e.value) && (e.Err? ==> State() == old(State()))
    {
      if docId !in records {
        return Err("Final OCR not found");
      }
      var rec := records[docId];
      var version := rec.version + 1;
      records := records[docId := rec.(documentsJson := Saved(newJson), version := version, lastEditedBy := Some(user))];
      history := history + [HistoryRow(docId, version, Saved(newJson), Some(user), Edited)];
      return Ok(());
    }

    /** approve_final_ocr; an Err result is the RuntimeError. */
    method ApproveFinalOcr(docId: string, user: string) returns (r: Result<(), string>)
      modifies this
      ensures var a := ApproveStep(old(State()), docId, user);
        (r.Err? <==> a.Err?) && (a.Ok? ==> State() == a.value) && (a.Err? ==> State() == old(State()))
    {
      if docId !in records {
        return Err("Final OCR not found");
      }
      var rec := records[docId];
      if rec.status == Approved {
        return Ok(());
      }
      records := records[docId := rec.(status := Approved, lastEditedBy := Some(user))];
      history := history + [HistoryRow(docId, rec.version, rec.documentsJson, Some(user), ApprovedAction)];
      return Ok(());
    }
  }
}
