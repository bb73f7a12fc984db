/**
 * The submission as imperative code: one transaction over the tables, its rollback, and the
 * recovery of a caller that lost the race for an idempotency key.
 */
module ClaimService {
  import opened Prelude
  import opened EvidenceRules
  import opened ClaimSubmission
  import DocumentLifecycle

  /** What may change between the checks and the writes: everything but the locked rows. */
  ghost predicate KeepsLocks(before: Tables, after: Tables, body: Body) {
    body.draft in before.drafts && body.draft in after.drafts &&
    after.drafts[body.draft] == before.drafts[body.draft] &&
    forall d ::
      d in body.documents && d in before.documents ==> d in after.documents && after.documents[d] == before.documents[d]
  }

  class CaseService {
    var db: Tables
    const malwareScanRequired: bool

    constructor (db: Tables, malwareScanRequired: bool)
      ensures this.db == db && this.malwareScanRequired == malwareScanRequired
    {
      this.db, this.malwareScanRequired := db, malwareScanRequired;
    }

    method ValidateConsents(consents: seq<Consent>, expected: Option<nat>) returns (ok: bool)
      ensures ok <==> ConsentsAccepted(consents, expected)
    {
      var types := set c | c in consents :: c.kind;
      if |consents| != 2 { return false; }
      assert consents == [consents[0], consents[1]];
      assert types == {consents[0].kind, consents[1].kind};
      if |types| != 2 || PrivacyNotice !in types || InformationAccuracy !in types { return false; }
      if expected.None? { return false; }
      var privacy := if consents[0].kind == PrivacyNotice then consents[0] else consents[1];
      return privacy.textVersion == expected.value;
    }

    method HasDuplicates(ids: seq<DocumentId>) returns (found: bool)
      ensures found <==> !Distinct(ids)
    {
      var seen: set<DocumentId> := {};
      for i := 0 to |ids|
        invariant seen == Ids(ids[..i]) && Distinct(ids[..i])
      {
        assert ids[..i + 1] == ids[..i] + [ids[i]];
        if ids[i] in seen {
          var j :| 0 <= j < i && ids[..i][j] == ids[i];
          return true;
        }
        seen := seen + {ids[i]};
      }
      assert ids[..|ids|] == ids;
      return false;
    }

    /** The rows with the given ids, each once. */
    method SelectDocuments(ids: seq<DocumentId>) returns (documents: seq<Document>)
      ensures Selects(db.documents, Ids(ids), documents)
    {
      documents := [];
      var rest := set d | d in ids && d in db.documents;
      ghost var all := rest;
      while rest != {}
        invariant rest <= all && Selects(db.documents, all - rest, documents)
        decreases rest
      {
        var d :| d in rest;
        assert forall e :: e in documents ==> e.id != d;
        documents := documents + [Selected(d, db.documents[d])];
        assert all - (rest - {d}) == (all - rest) + {d};
        rest := rest - {d};
      }
      assert all - {} == all;
    }

    /** Both document rules on the selected rows. */
    method CheckDocuments(ids: seq<DocumentId>, draft: DraftId, rules: seq<Rule>, waives: bool) returns (ok: bool)
      ensures ok <==>
        DocumentsFit(db.documents, ids, draft, malwareScanRequired) && RulesMet(db.documents, ids, rules, waives)
    {
      var documents := SelectDocuments(ids);
      var failing := AssertDocumentsSubmittable(documents, ids, draft, malwareScanRequired);
      assert failing == {} <==> DocumentsFit(db.documents, ids, draft, malwareScanRequired) by {
        EmptyFailing(documents, ids, draft, failing);
      }
      if failing != {} { return false; }
      ok := AssertEvidenceRequirements(documents, rules, waives);
      forall r | r in rules ensures Tally(documents, r.category) == |InCategory(db.documents, Ids(ids), r.category)| {
        TallyCountsDocuments(db.documents, Ids(ids), documents, r.category);
      }
    }

    lemma EmptyFailing(documents: seq<Document>, ids: seq<DocumentId>, draft: DraftId, failing: set<DocumentId>)
      requires Selects(db.documents, Ids(ids), documents)
      requires forall id :: id in failing <==>
        (exists d :: d in documents && d.id == id && !Submittable(d, draft, malwareScanRequired)) ||
        (id in ids && forall d :: d in documents ==> d.id != id)
      ensures failing == {} <==> DocumentsFit(db.documents, ids, draft, malwareScanRequired)
    {
      NothingFails(db.documents, ids, documents, draft, malwareScanRequired);
      if failing == {} {
        forall d | d in documents ensures Submittable(d, draft, malwareScanRequired) {
          assert d.id !in failing;
        }
        forall id | id in ids ensures exists d :: d in documents && d.id == id {
          assert id !in failing;
        }
      }
    }

    /** Everything a submission checks, in order; it changes nothing. */
    method Check(c: Command, at: int, facts: Facts) returns (outcome: Prepared)
      ensures outcome == Prepare(db, malwareScanRequired, c, at, facts)
    {
      var b := c.body;
      if !b.complete { return Answered(Err(Invalid)); }
      if b.draft !in db.drafts || db.drafts[b.draft].campaign !in db.campaigns ||
        db.drafts[b.draft].version !in db.versions
      {
        return Answered(Err(DraftExpiredOrInvalid));
      }
      var locked := db.drafts[b.draft];
      var campaign, version := db.campaigns[locked.campaign], db.versions[locked.version];
      if locked.token != b.token { return Answered(Err(DraftExpiredOrInvalid)); }
      if locked.status == Submitted {
        var winner := FindIdempotency(db, c, at);
        if winner.Some? { return Answered(Replay(winner.value, b)); }
        return Answered(Err(Conflict));
      }
      if locked.status != Active || locked.expiresAt <= at { return Answered(Err(DraftExpiredOrInvalid)); }
      if campaign.slug != c.slug || !campaign.active || version.campaign != locked.campaign {
        return Answered(Err(CampaignNotFound));
      }
      var existing := FindIdempotency(db, c, at);
      if existing.Some? { return Answered(Replay(existing.value, b)); }
      var deletes := KeyOf(c) in db.records && db.records[KeyOf(c)].expiresAt <= at;
      var consents := ValidateConsents(b.consents, version.privacyNotice);
      if !consents { return Answered(Err(Invalid)); }
      var duplicates := HasDuplicates(b.documents);
      if duplicates { return Answered(Err(Invalid)); }
      if !facts.campaignDataValid { return Answered(Err(Invalid)); }
      var fit := CheckDocuments(b.documents, b.draft, version.rules, facts.waivesPurchaseProof);
      if !fit { return Answered(Err(Invalid)); }
      return Ready(Pending(c, at, facts, deletes));
    }

    /** The first of the three candidates that no case has. */
    method AllocateReference(candidates: seq<Reference>) returns (reference: Option<Reference>)
      requires |candidates| == 3
      ensures reference == FirstFree(candidates, References(db.cases))
    {
      reference := None;
      var attempt := 0;
      while attempt < CASE_REFERENCE_ATTEMPTS
        invariant attempt <= CASE_REFERENCE_ATTEMPTS
        invariant FirstFree(candidates, References(db.cases)) == FirstFree(candidates[attempt..], References(db.cases))
      {
        var candidate := candidates[attempt];
        if candidate !in References(db.cases) { return Some(candidate); }
        attempt := attempt + 1;
      }
    }

    /**
     * One call of the service. `meanwhile` is what other transactions committed between the
     * checks and the writes; they cannot touch the locked draft and documents. A loser of the
     * race for its key leaves the tables as the others made them.
     */
    method Submit(c: Command, at: int, facts: Facts, meanwhile: Option<Tables>)
      returns (answer: Result<Response, Problem>)
      requires |facts.candidates| == 3
      requires meanwhile.Some? && c.body.draft in db.drafts ==> KeepsLocks(db, meanwhile.value, c.body)
      modifies this`db
      ensures match Prepare(old(db), malwareScanRequired, c, at, facts)
              case Answered(a) => answer == a && db == old(db)
              case Ready(p) =>
                var base := if meanwhile.Some? then meanwhile.value else old(db);
                match Finish(base, p)
                case Commit(after, response) => db == after && answer == Ok(response)
                case Abort(e) => db == base && answer == Recover(base, p, e)
    {
      var outcome := Check(c, at, facts);
      if outcome.Answered? { return outcome.answer; }
      var p := outcome.pending;
      if meanwhile.Some? { db := meanwhile.value; }
      var reference := AllocateReference(facts.candidates);
      if reference.None? { return Err(ReferencesExhausted); }

      var cases := db.cases[facts.caseId := Case(reference.value, c.body.draft, Ids(c.body.documents), at)];
      var response := Response(reference.value, at, facts.disposalTask);
      var documents := map d | d in db.documents ::
        if d in c.body.documents then LinkedTo(db.documents[d], facts.caseId) else db.documents[d];
      var drafts :=
        db.drafts[c.body.draft := db.drafts[c.body.draft].(status := Submitted, submittedCase := Some(facts.caseId))];
      var records := if p.deletes then db.records - {KeyOf(c)} else db.records;
      if KeyOf(c) in records {
        var winner := FindIdempotency(db, c, at);
        if winner.None? { return Err(UniqueViolation); }
        return Replay(winner.value, c.body);
      }
      records := records[KeyOf(c) := Record(c.body, response, facts.caseId, at + IDEMPOTENCY_TTL_MS)];
      assert documents == LinkDocuments(db.documents, Ids(c.body.documents), facts.caseId);
      assert records == db.records[KeyOf(c) := records[KeyOf(c)]];
      db := db.(cases := cases, documents := documents, drafts := drafts, records := records);
      return Ok(response);
    }
  }
}
