/**
 * The two document rules a claim must satisfy: every submitted document is fit to be attached,
 * and their number per category meets the campaign's rules. Both refuse everything or nothing.
 */
module EvidenceRules {
  import opened Prelude
  import DocumentLifecycle

  type DocumentId = nat
  type DraftId = nat
  type Status = DocumentLifecycle.Status

  datatype Category = ProofOfPurchase | OtherEvidence(kind: nat)

  datatype ScanStatus = ScanPending | Clean | Infected | ScanFailed | NotRun

  /** A stored document; its id is its key in the table. */
  datatype Row = Row(draft: Option<DraftId>, caseId: Option<nat>, category: Category, slot: Option<nat>, status: Status,
    scan: ScanStatus)

  /** The columns of a selected document that the rules look at. */
  datatype Document = Document(id: DocumentId, draft: Option<DraftId>, category: Category, status: Status,
    scan: ScanStatus)

  datatype Rule = Rule(category: Category, required: bool, minimumFiles: nat, maximumFiles: nat)

  function Selected(d: DocumentId, row: Row): Document {
    Document(d, row.draft, row.category, row.status, row.scan)
  }

  /** The result of selecting rows by id: each row found exactly once, in no particular order. */
  predicate Selects(table: map<DocumentId, Row>, ids: set<DocumentId>, documents: seq<Document>) {
    (forall i, j :: 0 <= i < j < |documents| ==> documents[i].id != documents[j].id) &&
    (forall d :: d in documents ==> d.id in ids && d.id in table && d == Selected(d.id, table[d.id])) &&
    (forall id :: id in ids && id in table ==> Selected(id, table[id]) in documents)
  }

  /** Verified, past the configured malware policy, and owned by the draft. */
  predicate Submittable(d: Document, draft: DraftId, scanRequired: bool) {
    d.draft == Some(draft) && d.status == DocumentLifecycle.Verified &&
    (d.scan == Clean || (d.scan == NotRun && !scanRequired))
  }

  function Tally(documents: seq<Document>, category: Category): nat {
    if documents == [] then 0
    else Tally(documents[1..], category) + if documents[0].category == category then 1 else 0
  }

  /** Within the bounds; a waiver lifts the lower ones from proof of purchase, never the upper one. */
  predicate Meets(rule: Rule, count: nat, waives: bool) {
    count <= rule.maximumFiles &&
    ((waives && rule.category == ProofOfPurchase) || (rule.minimumFiles <= count && (rule.required ==> count > 0)))
  }

  method AssertDocumentsSubmittable(
    documents: seq<Document>, submitted: seq<DocumentId>, draft: DraftId,
    scanRequired: bool) returns (failing: set<DocumentId>)
    ensures forall id :: id in failing <==>
      (exists d :: d in documents && d.id == id && !Submittable(d, draft, scanRequired)) ||
      (id in submitted && forall d :: d in documents ==> d.id != id)
  {
    failing := {};
    for i := 0 to |documents|
      invariant forall id ::
        id in failing <==> exists d :: d in documents[..i] && d.id == id && !Submittable(d, draft, scanRequired)
    {
      var d := documents[i];
      assert documents[..i + 1] == documents[..i] + [d];
      if d.draft != Some(draft) || d.status != DocumentLifecycle.Verified ||
         (d.scan != Clean && (scanRequired || d.scan != NotRun)) {
        failing := failing + {d.id};
      }
    }
    assert documents[..|documents|] == documents;
    ghost var unfit := failing;
    for i := 0 to |submitted|
      invariant forall id ::
        id in failing <==> id in unfit || (id in submitted[..i] && forall d :: d in documents ==> d.id != id)
    {
      assert submitted[..i + 1] == submitted[..i] + [submitted[i]];
      if !exists d :: d in documents && d.id == submitted[i] {
        failing := failing + {submitted[i]};
      }
    }
  }

  method AssertEvidenceRequirements(documents: seq<Document>, rules: seq<Rule>, waives: bool) returns (ok: bool)
    ensures ok <==> forall r :: r in rules ==> Meets(r, Tally(documents, r.category), waives)
  {
    for i := 0 to |rules|
      invariant forall r :: r in rules[..i] ==> Meets(r, Tally(documents, r.category), waives)
    {
      var rule := rules[i];
      var count := Tally(documents, rule.category);
      var waived := waives && rule.category == ProofOfPurchase;
      if count > rule.maximumFiles || (!waived && (count < rule.minimumFiles || (rule.required && count == 0))) {
        return false;
      }
      assert rules[..i + 1] == rules[..i] + [rule];
    }
    return true;
  }

  /** What an empty failing set means on a real selection: every submitted id is a row fit to be attached. */
  lemma NothingFails(
      table: map<DocumentId, Row>, submitted: seq<DocumentId>, documents: seq<Document>, draft: DraftId,
      scanRequired: bool)
    requires Selects(table, (set id | id in submitted), documents)
    ensures (forall d :: d in documents ==> Submittable(d, draft, scanRequired)) &&
            (forall id :: id in submitted ==> exists d :: d in documents && d.id == id)
        <==> forall id :: id in submitted ==> id in table && Submittable(Selected(id, table[id]), draft, scanRequired)
  {
    if forall id :: id in submitted ==> id in table && Submittable(Selected(id, table[id]), draft, scanRequired) {
      forall id | id in submitted ensures exists d :: d in documents && d.id == id {
        assert Selected(id, table[id]) in documents;
      }
    }
  }

  function InCategory(table: map<DocumentId, Row>, ids: set<DocumentId>, category: Category): set<DocumentId> {
    set id | id in ids && id in table && table[id].category == category
  }

  lemma RestIsSelected(table: map<DocumentId, Row>, ids: set<DocumentId>, documents: seq<Document>)
    requires Selects(table, ids, documents) && documents != []
    ensures documents[0].id in ids && documents[0].id in table &&
      documents[0] == Selected(documents[0].id, table[documents[0].id])
    ensures Selects(table, ids - {documents[0].id}, documents[1..])
  {
    var first, rest := documents[0], documents[1..];
    assert first in documents;
    forall d | d in rest ensures d in documents && d.id != first.id {
      var i :| 0 <= i < |rest| && rest[i] == d;
      assert documents[i + 1] == d;
    }
    forall id | id in ids - {first.id} && id in table ensures Selected(id, table[id]) in rest {
      var i :| 0 <= i < |documents| && documents[i] == Selected(id, table[id]);
      assert documents[i] == rest[i - 1];
    }
  }

  lemma NothingSelected(table: map<DocumentId, Row>, ids: set<DocumentId>, documents: seq<Document>, category: Category)
    requires Selects(table, ids, documents)
    ensures documents == [] ==> InCategory(table, ids, category) == {}
  {
    if id :| id in InCategory(table, ids, category) {
      assert Selected(id, table[id]) in documents;
    }
  }

  /** The loop's count is the number of distinct submitted documents in the category. */
  lemma {:induction false} TallyCountsDocuments(
      table: map<DocumentId, Row>, ids: set<DocumentId>, documents: seq<Document>, category: Category)
    requires Selects(table, ids, documents)
    ensures Tally(documents, category) == |InCategory(table, ids, category)|
    decreases |documents|
  {
    var all := InCategory(table, ids, category);
    if documents == [] {
      NothingSelected(table, ids, documents, category);
    } else {
      var id := documents[0].id;
      RestIsSelected(table, ids, documents);
      TallyCountsDocuments(table, ids - {id}, documents[1..], category);
      hide Selects;
      assert InCategory(table, ids - {id}, category) == all - {id};
      assert id in all <==> documents[0].category == category;
    }
  }
}
