/** The required-documents list of a lifecycle row, stored as one ", "-joined string: adding
    documents (merged in without duplicates) and deleting one (by name, ignoring case). */
module Lifecycle {
  import opened Wrappers
  import opened Text
  import opened Lists

  // ----------------------------------------------------------------------------------------------
  // Reading the stored list
  // ----------------------------------------------------------------------------------------------

  /** The add path: `[d.strip() for d in ISNULL(stored, '').split(",") if d.strip()]`. */
  function ExistingDocs(stored: Option<string>): (r: seq<string>)
    ensures forall k :: 0 <= k < |r| ==> r[k] != "" && IsTrimmed(r[k]) && ',' !in r[k]
    ensures stored.None? ==> r == []
  {
    var s := if stored.Some? then stored.value else "";
    var pieces := Split(s, ',');
    var trimmed := TrimAll(pieces);
    forall k | 0 <= k < |trimmed| ensures ',' !in trimmed[k] {
      TrimKeepsOut(pieces[k], ',');
    }
    Filter(trimmed, (d: string) => d != "")
  }

  /** The delete path: `[d.strip() for d in stored.split(",")] if stored else []`; empty
      pieces are kept. */
  function CurrentDocs(stored: Option<string>): (r: seq<string>)
    ensures stored.None? || stored == Some("") ==> r == []
    ensures stored.Some? && stored.value != "" ==> r == TrimAll(Split(stored.value, ','))
  {
    if stored.None? || stored.value == "" then [] else TrimAll(Split(stored.value, ','))
  }

  /** The two readings differ only in the empty pieces. */
  lemma ExistingIsNonEmptyCurrent(stored: Option<string>)
    ensures ExistingDocs(stored) == Filter(CurrentDocs(stored), (d: string) => d != "")
  {
    if stored.Some? && stored.value == "" {
      assert Split("", ',') == [""];
      assert TrimAll([""]) == [""];
    }
  }

  /** A list written back as `", ".join(docs)` reads back unchanged when its items are
      non-empty (which the add path guarantees) and comma-free. */
  lemma {:induction false} StoredRoundTrip(docs: seq<string>)
    requires forall k :: 0 <= k < |docs| ==> docs[k] != "" && IsTrimmed(docs[k]) && ',' !in docs[k]
    ensures ExistingDocs(Some(Join(docs, ", "))) == docs
    ensures CurrentDocs(Some(Join(docs, ", "))) == docs
  {
    if |docs| == 0 {
      assert Split("", ',') == [""];
      assert TrimAll([""]) == [""];
    } else {
      JoinNotEmpty(docs, ", ");
      TrimmedJoinRoundTrip(docs);
      FilterAll(docs, (d: string) => d != "");
    }
  }

  // ----------------------------------------------------------------------------------------------
  // Adding documents
  // ----------------------------------------------------------------------------------------------

  /** The list after the loop `if doc.strip() not in existing_docs: existing_docs.append(doc.strip())`. */
  function Merge(existing: seq<string>, docs: seq<string>): (r: seq<string>)
    ensures |existing| <= |r| && r[..|existing|] == existing
  {
    if |docs| == 0 then existing
    else
      var m := Merge(existing, docs[..|docs| - 1]);
      var d := Trim(docs[|docs| - 1]);
      if d in m then m else m + [d]
  }

  /** A document is in the merged list exactly when it was already there or is one of the new
      documents trimmed. */
  lemma {:induction false} MergeMembers(existing: seq<string>, docs: seq<string>, x: string)
    ensures x in Merge(existing, docs) <==> x in existing || Added(docs, x)
  {
    if |docs| > 0 {
      var init := docs[..|docs| - 1];
      MergeMembers(existing, init, x);
      AddedLast(docs, x);
    }
  }

  /** x is one of the new documents, trimmed. */
  predicate Added(docs: seq<string>, x: string) {
    exists i :: 0 <= i < |docs| && Trim(docs[i]) == x
  }

  lemma AddedLast(docs: seq<string>, x: string)
    requires |docs| > 0
    ensures Added(docs, x) <==> Added(docs[..|docs| - 1], x) || Trim(docs[|docs| - 1]) == x
  {
    var init := docs[..|docs| - 1];
    if Added(init, x) {
      var i :| 0 <= i < |init| && Trim(init[i]) == x;
      assert Trim(docs[i]) == x;
    }
    if Added(docs, x) {
      var i :| 0 <= i < |docs| && Trim(docs[i]) == x;
      if i < |init| {
        assert Trim(init[i]) == x;
      }
    }
  }

  /** A duplicate-free list stays duplicate-free. */
  lemma {:induction false} MergeDistinct(existing: seq<string>, docs: seq<string>)
    requires Distinct(existing)
    ensures Distinct(Merge(existing, docs))
  {
    if |docs| > 0 {
      MergeDistinct(existing, docs[..|docs| - 1]);
    }
  }

  /** Documents that are all present already change nothing. */
  lemma {:induction false} MergePresent(existing: seq<string>, docs: seq<string>)
    requires forall i :: 0 <= i < |docs| ==> Trim(docs[i]) in existing
    ensures Merge(existing, docs) == existing
  {
    if |docs| > 0 {
      MergePresent(existing, docs[..|docs| - 1]);
    }
  }

  /** Adding the same documents twice is adding them once. */
  lemma MergeIdempotent(existing: seq<string>, docs: seq<string>)
    ensures Merge(Merge(existing, docs), docs) == Merge(existing, docs)
  {
    var m := Merge(existing, docs);
    forall i | 0 <= i < |docs| ensures Trim(docs[i]) in m {
      assert Added(docs, Trim(docs[i]));
      MergeMembers(existing, docs, Trim(docs[i]));
    }
    MergePresent(m, docs);
  }

  /** After an add of non-blank, comma-free documents, the stored list reads back as the list
      the call returned. */
  lemma AddedListReadsBack(stored: Option<string>, docs: seq<string>)
    requires forall i :: 0 <= i < |docs| ==> !IsBlank(docs[i]) && ',' !in docs[i]
    ensures var m := Merge(ExistingDocs(stored), docs); ExistingDocs(Some(Join(m, ", "))) == m
  {
    var existing := ExistingDocs(stored);
    var m := Merge(existing, docs);
    forall k | 0 <= k < |m| ensures m[k] != "" && IsTrimmed(m[k]) && ',' !in m[k] {
      MergeMembers(existing, docs, m[k]);
      if m[k] !in existing {
        var i :| 0 <= i < |docs| && Trim(docs[i]) == m[k];
        TrimKeepsOut(docs[i], ',');
      }
    }
    StoredRoundTrip(m);
  }

  /** The loop of add_documents_to_lifecycle. */
  method MergeDocuments(existing: seq<string>, docs: seq<string>) returns (r: seq<string>)
    ensures r == Merge(existing, docs)
  {
    r := existing;
    var i := 0;
    while i < |docs|
      invariant 0 <= i <= |docs|
      invariant r == Merge(existing, docs[..i])
    {
      assert docs[..i + 1][..i] == docs[..i];
      var d := Trim(docs[i]);
      if d !in r {
        r := r + [d];
      }
      i := i + 1;
    }
    assert docs[..i] == docs;
  }

  // ----------------------------------------------------------------------------------------------
  // Deleting a document
  // ----------------------------------------------------------------------------------------------

  /** `[d for d in current_docs if d.lower() != document_name.strip().lower()]` */
  function Remove(current: seq<string>, name: string): (r: seq<string>)
    ensures SubSeq(r, current)
    ensures forall k :: 0 <= k < |r| ==> ToLower(r[k]) != ToLower(Trim(name))
    ensures forall k :: 0 <= k < |current| && ToLower(current[k]) != ToLower(Trim(name)) ==> current[k] in r
  {
    var target := ToLower(Trim(name));
    Filter(current, (d: string) => ToLower(d) != target)
  }

  /** Removing twice is removing once. */
  lemma RemoveIdempotent(current: seq<string>, name: string)
    ensures Remove(Remove(current, name), name) == Remove(current, name)
  {
    var target := ToLower(Trim(name));
    FilterAll(Remove(current, name), (d: string) => ToLower(d) != target);
  }

  // ----------------------------------------------------------------------------------------------
  // The Life_cycle table
  // ----------------------------------------------------------------------------------------------

  /** Required_Documents by lifecycle ID (NULL as None). */
  class LifecycleTable {
    var requiredDocuments: map<int, Option<string>>

    constructor (rows: map<int, Option<string>>)
      ensures requiredDocuments == rows
    {
      requiredDocuments := rows;
    }

    /** add_documents_to_lifecycle: an unknown ID raises ValueError and changes nothing;
        otherwise the merged list is stored joined with ", " and returned. */
    method AddDocumentsToLifecycle(id: int, docs: seq<string>) returns (r: Result<seq<string>, string>)
      modifies this
      ensures r.Err? <==> id !in old(requiredDocuments)
      ensures r.Err? ==> requiredDocuments == old(requiredDocuments)
      ensures r.Ok? ==> r.value == Merge(ExistingDocs(old(requiredDocuments)[id]), docs) &&
                        requiredDocuments == old(requiredDocuments)[id := Some(Join(r.value, ", "))]
    {
      if id !in requiredDocuments {
        return Err("Lifecycle not found");
      }
      var existing := ExistingDocs(requiredDocuments[id]);
      var merged := MergeDocuments(existing, docs);
      requiredDocuments := requiredDocuments[id := Some(Join(merged, ", "))];
      return Ok(merged);
    }

    /** delete_document_from_lifecycle: an unknown ID raises ValueError and changes nothing;
        otherwise the list without the name is stored joined with ", " and returned. */
    method DeleteDocumentFromLifecycle(id: int, name: string) returns (r: Result<seq<string>, string>)
      modifies this
      ensures r.Err? <==> id !in old(requiredDocuments)
      ensures r.Err? ==> requiredDocuments == old(requiredDocuments)
      ensures r.Ok? ==> r.value == Remove(CurrentDocs(old(requiredDocuments)[id]), name) &&
                        requiredDocuments == old(requiredDocuments)[id := Some(Join(r.value, ", "))]
    {
      if id !in requiredDocuments {
        return Err("Lifecycle not found");
      }
      var updated := Remove(CurrentDocs(requiredDocuments[id]), name);
      requiredDocuments := requiredDocuments[id := Some(Join(updated, ", "))];
      return Ok(updated);
    }
  }
}
