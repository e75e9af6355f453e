/** Document identifiers: "DOC-<case id>-<n>", n counting the case's jobs from 1 and padded to
    three digits (more when the number needs more). */
module DocId {
  import opened Wrappers
  import opened Text

  const DocPrefix: string := "DOC-"

  /** The number of the next document: `(count or 0) + 1`, a NULL count counting as zero. */
  function NextSeq(count: Option<nat>): (n: nat)
    ensures n >= 1
    ensures count.Some? ==> n == count.value + 1
  {
    (if count.Some? then count.value else 0) + 1
  }

  /** generate_doc_id, given the case's job count. */
  function GenerateDocId(caseId: string, count: Option<nat>): (r: string)
    ensures var head := DocPrefix + caseId + "-";
      var digits := |NatToString(NextSeq(count))|;
      |r| == |head| + (if digits >= 3 then digits else 3) && r[..|head|] == head &&
      IsDigits(r[|head|..]) && DigitsValue(r[|head|..]) == NextSeq(count)
  {
    var head := DocPrefix + caseId + "-";
    var digits := ZeroPad(NextSeq(count), 3);
    assert (head + digits)[|head|..] == digits;
    head + digits
  }

  /** The first document of a case, whose job count is zero or NULL, ends in "001". */
  lemma FirstDocId(caseId: string, count: Option<nat>)
    requires count.None? || count == Some(0)
    ensures GenerateDocId(caseId, count) == "DOC-" + caseId + "-001"
  {
    assert NatToString(1) == "1";
    assert Repeat('0', 2) == "00";
  }

  /** Within one case, distinct counts give distinct identifiers. */
  lemma DocIdInjective(caseId: string, a: Option<nat>, b: Option<nat>)
    requires GenerateDocId(caseId, a) == GenerateDocId(caseId, b)
    ensures NextSeq(a) == NextSeq(b)
  {
    var head := DocPrefix + caseId + "-";
    assert GenerateDocId(caseId, a)[|head|..] == GenerateDocId(caseId, b)[|head|..];
  }
}
