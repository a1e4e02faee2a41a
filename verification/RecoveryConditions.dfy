/**
 The exact conditions under which the resolvers of reconciliation issues resolve, answer or refuse, on the columns of
 the rows they read.
 */
module RecoveryConditions {
  import opened Wrappers
  import opened TrimmedText
  import opened Reconciliation

  // ---------------------------------------------------------------- reading rows, metadata and the manifest

  /** The row is the earliest one with the property. */
  ghost predicate IsFirst<T(!new)>(rows: seq<T>, p: T -> bool, x: T) {
    exists i :: 0 <= i < |rows| && rows[i] == x && p(x) && forall j :: 0 <= j < i ==> !p(rows[j])
  }

  lemma {:induction false} FirstExactly<T(!new)>(rows: seq<T>, p: T -> bool, x: T)
    ensures First(rows, p) == Some(x) <==> IsFirst(rows, p, x)
  {
    if rows != [] {
      FirstExactly(rows[1..], p, x);
      if p(rows[0]) {
        if rows[0] == x {
          assert rows[0] == x && p(x);
        }
      } else {
        if IsFirst(rows[1..], p, x) {
          var i :| 0 <= i < |rows| - 1 && rows[1..][i] == x && p(x) && forall j :: 0 <= j < i ==> !p(rows[1..][j]);
          assert forall j :: 0 < j < i + 1 ==> rows[j] == rows[1..][j - 1];
          assert rows[i + 1] == x;
        }
        if IsFirst(rows, p, x) {
          var i :| 0 <= i < |rows| && rows[i] == x && p(x) && forall j :: 0 <= j < i ==> !p(rows[j]);
          assert rows[1..][i - 1] == x;
        }
      }
    }
  }

  /** A text property is there exactly when the metadata are an object that holds a text under its name. */
  lemma TextFieldExactly(m: Json, name: string, t: string)
    ensures TextField(m, name) == Some(t) <==> m.Fields? && name in m.fields && m.fields[name] == Text(t)
    ensures FieldOf(m, name).None? <==> !(m.Fields? && name in m.fields)
  {
  }

  /** The marker of a manual repair is a true flag, or a text that is not blank. */
  lemma RepairMarkerExactly(m: Json)
    ensures HasPriorRepairMarker(m) <==>
            && m.Fields? && "manualRepair" in m.fields
            && var f := m.fields["manualRepair"];
               f == Flag(true) || (f.Text? && exists i :: 0 <= i < |f.text| && !IsSpace(f.text[i]))
  {
    var f := TextField(m, "manualRepair");
    if f.Some? {
      BlankTrimsToNothing(f.value);
    }
  }

  lemma {:induction false} BlankTrimsToNothing(s: string)
    ensures Trim(s) == "" <==> forall i :: 0 <= i < |s| ==> IsSpace(s[i])
    decreases |s|
  {
    if s != [] {
      if IsSpace(s[0]) {
        BlankTrimsToNothing(s[1..]);
        assert forall i :: 1 <= i < |s| ==> s[i] == s[1..][i - 1];
      } else if IsSpace(s[|s| - 1]) {
        BlankTrimsToNothing(s[..|s| - 1]);
        assert s[..|s| - 1][0] == s[0];
      }
    }
  }

  /** What a text is trimmed to: white space removed at both ends, and none left there. */
  ghost predicate IsTrimmed(s: string, before: string, core: string, after: string) {
    && s == before + core + after
    && (forall c :: c in before || c in after ==> IsSpace(c))
    && (core != "" ==> !IsSpace(core[0]) && !IsSpace(core[|core| - 1]))
  }

  lemma TrimmedBefore(c: char, s: string, before: string, core: string, after: string)
    requires IsTrimmed(s, before, core, after) && IsSpace(c)
    ensures IsTrimmed([c] + s, [c] + before, core, after)
  {
    assert [c] + (before + core + after) == [c] + before + core + after;
  }

  lemma TrimmedAfter(c: char, s: string, before: string, core: string, after: string)
    requires IsTrimmed(s, before, core, after) && IsSpace(c)
    ensures IsTrimmed(s + [c], before, core, after + [c])
  {
    assert before + core + after + [c] == before + core + (after + [c]);
  }

  /** Trimming removes exactly the white space at both ends. */
  lemma {:induction false} TrimExactly(s: string) returns (before: string, after: string)
    ensures IsTrimmed(s, before, Trim(s), after)
    decreases |s|
  {
    before, after := "", "";
    if s != [] && IsSpace(s[0]) {
      before, after := TrimExactly(s[1..]);
      TrimmedBefore(s[0], s[1..], before, Trim(s[1..]), after);
      before := [s[0]] + before;
      assert s == [s[0]] + s[1..];
    } else if s != [] && IsSpace(s[|s| - 1]) {
      before, after := TrimExactly(s[..|s| - 1]);
      TrimmedAfter(s[|s| - 1], s[..|s| - 1], before, Trim(s[..|s| - 1]), after);
      after := after + [s[|s| - 1]];
      assert s == s[..|s| - 1] + [s[|s| - 1]];
    }
  }

  /** A text includes another exactly when it is made of a start, the other and an end. */
  lemma IncludesExactly(s: string, part: string)
    ensures Includes(s, part) <==> exists a, b :: s == a + part + b
  {
    if Includes(s, part) {
      var i :| 0 <= i <= |s| - |part| && s[i..][..|part|] == part;
      assert s == s[..i] + part + s[i + |part|..];
    }
    if a, b :| s == a + part + b {
      assert s[|a|..][..|part|] == part;
    }
  }

  /** The manifest's first entry for the issue names this type, provider id and version. */
  ghost predicate ListsFirst(m: Manifest, id: string, issueType: string, asaasId: Option<string>, lastSeenAt: int) {
    exists i :: 0 <= i < |m.openIssues| && m.openIssues[i].id == id
                && m.openIssues[i].issueType == issueType && m.openIssues[i].asaasId == asaasId
                && m.openIssues[i].lastSeenAt == lastSeenAt
                && forall j :: 0 <= j < i ==> m.openIssues[j].id != id
  }

  lemma ListedExactly(m: Manifest, id: string, issueType: string, asaasId: Option<string>, lastSeenAt: int)
    ensures IsListed(m, id, issueType, asaasId, lastSeenAt) <==> ListsFirst(m, id, issueType, asaasId, lastSeenAt)
  {
    var p := (i: ManifestIssue) => i.id == id;
    if IsListed(m, id, issueType, asaasId, lastSeenAt) {
      FirstExactly(m.openIssues, p, Listed(m, id).value);
    }
    if ListsFirst(m, id, issueType, asaasId, lastSeenAt) {
      var i :| 0 <= i < |m.openIssues| && m.openIssues[i].id == id
               && m.openIssues[i].issueType == issueType && m.openIssues[i].asaasId == asaasId
               && m.openIssues[i].lastSeenAt == lastSeenAt
               && forall j :: 0 <= j < i ==> m.openIssues[j].id != id;
      FirstExactly(m.openIssues, p, m.openIssues[i]);
    }
  }

  // ---------------------------------------------------------------- when an issue is resolved

  /** The version that a review has read, open in one account. */
  predicate IsOpenVersion(found: Issue, contaId: string, issueType: string, asaasId: Option<string>, lastSeenAt: int) {
    && found.contaId == contaId && found.status == Open && found.issueType == issueType && found.asaasId == asaasId
    && found.lastSeenAt == lastSeenAt
  }

  predicate HasCause(m: Json, cause: string, reason: string) {
    TextField(m, "lastCauseId") == Some(cause) && TextField(m, "reason") == Some(reason)
  }

  /**
   A historical payment is resolved exactly when the provider's rows are those approved, the issue is the listed version
   with the approved cause and reason, at the review and at the commit, and at both times no local row has the payment
   or the subscription.
   */
  lemma HistoricalResolvesExactly(
    m: Manifest, item: HistoricalItem, payment: Payment, subscription: RemoteSubscription,
    links: Tables, issue: Option<Issue>, db: Db)
    requires IsRead(issue, item.issueId, m.contaId)
    ensures WasResolved(HistoricalReview(m, item, payment, subscription, links, issue, true), db) <==>
            && payment == Payment(item.paymentId, Some(item.subscriptionId), item.expectedStatus, item.expectedValue,
                                  item.expectedDueDate, Some(item.expectedPaymentDate), false,
                                  Some(item.externalReference))
            && subscription.deleted && subscription.status == "INACTIVE"
            && IsClearOfPayment(links, m.contaId, item.paymentId, None)
            && IsClearOfSubscription(links, m.contaId, item.subscriptionId, None)
            && issue.Some?
            && IsOpenVersion(issue.value, m.contaId, "PAYMENT_MISSING_LOCAL_ENTITY", Some(item.paymentId),
                             item.expectedIssueLastSeenAt)
            && HasCause(issue.value.metadata, item.expectedCauseId, item.expectedIssueReason)
            && ListsFirst(m, item.issueId, "PAYMENT_MISSING_LOCAL_ENTITY", Some(item.paymentId),
                          item.expectedIssueLastSeenAt)
            && IsClearOfPayment(db.tables, m.contaId, item.paymentId, None)
            && IsClearOfSubscription(db.tables, m.contaId, item.subscriptionId, None)
            && item.issueId in db.issues
            && IsOpenVersion(db.issues[item.issueId], m.contaId, "PAYMENT_MISSING_LOCAL_ENTITY", Some(item.paymentId),
                             item.expectedIssueLastSeenAt)
            && HasCause(db.issues[item.issueId].metadata, item.expectedCauseId, item.expectedIssueReason)
  {
    hide HasPaymentLink, HasSubscriptionLink, IsClearOfPayment, IsClearOfSubscription, IsListed, ListsFirst;
    hide Includes, TextField;
    NoPaymentLinkExactly(links, m.contaId, item.paymentId, None);
    NoPaymentLinkExactly(db.tables, m.contaId, item.paymentId, None);
    NoSubscriptionLinkExactly(links, m.contaId, item.subscriptionId, None);
    NoSubscriptionLinkExactly(db.tables, m.contaId, item.subscriptionId, None);
    ListedExactly(m, item.issueId, MISSING, Some(item.paymentId), item.expectedIssueLastSeenAt);
  }

  /** The provider's resource of a lag has ended. */
  predicate HasEnded(entityType: string, asaasId: string, payment: Payment, subscription: RemoteSubscription) {
    || (entityType == "CHARGE" && payment.id == asaasId && (payment.deleted || payment.status == "DELETED"))
    || (entityType == "SUBSCRIPTION" && subscription.id == asaasId
        && subscription.deleted && subscription.status == "INACTIVE")
  }

  /** No local row owns the resource of a lag. */
  ghost predicate IsClearOf(t: Tables, contaId: string, entityType: string, asaasId: string, entityId: Option<string>) {
    if entityType == "CHARGE" then IsClearOfPayment(t, contaId, asaasId, entityId)
    else IsClearOfSubscription(t, contaId, asaasId, entityId)
  }

  /** The same for the review, which does not take a pagamento for the entity. */
  ghost predicate IsClearAtReview(
    t: Tables, contaId: string, entityType: string, asaasId: string, entityId: Option<string>)
  {
    if entityType == "CHARGE"
    then
      && (forall r :: r in t.charges && r.contaId == contaId ==>
            r.asaasPaymentId != Some(asaasId) && !IsEntity(r.id, entityId))
      && (forall r :: r in t.cobrancas && r.contaId == contaId ==>
            r.asaasPaymentId != Some(asaasId) && r.asaasId != Some(asaasId) && !IsEntity(r.id, entityId))
      && (forall r :: r in t.pagamentos && r.contaId == contaId ==> r.asaasPaymentId != Some(asaasId))
    else IsClearOfSubscription(t, contaId, asaasId, entityId)
  }

  lemma ClearAtReviewExactly(t: Tables, contaId: string, paymentId: string, entityId: Option<string>)
    ensures !HasChargeOwner(t, contaId, paymentId, entityId) <==>
            IsClearAtReview(t, contaId, "CHARGE", paymentId, entityId)
  {
    NoChargeOwnerExactly(t, contaId, paymentId, entityId);
  }

  lemma SubscriptionReview(t: Tables, contaId: string, asaasId: string, entry: ManifestIssue)
    ensures entry.entityType == "SUBSCRIPTION" ==>
              (IsClearAtReview(t, contaId, entry.entityType, asaasId, entry.entityId) <==>
               IsClearOfSubscription(t, contaId, asaasId, entry.entityId))
  {
  }

  /**
   A lag is resolved exactly when the issue is the one of the manifest, open and in the listed version, its resource has
   ended at the provider, no local row owns it at the review and in the transaction, and the version is still the same.
   */
  lemma AbsentLagResolvesExactly(
    m: Manifest, entry: ManifestIssue, payment: Payment, subscription: RemoteSubscription,
    links: Tables, issue: Option<Issue>, db: Db)
    requires IsRead(issue, entry.id, m.contaId)
    ensures WasResolved(AbsentLagReview(m, entry, payment, subscription, links, issue, true), db) <==>
            && issue.Some?
            && IsOpenVersion(issue.value, m.contaId, "WEBHOOK_LAG", entry.asaasId, issue.value.lastSeenAt)
            && issue.value.entityType == entry.entityType && issue.value.entityId == entry.entityId
            && entry.asaasId.Some? && entry.asaasId.value != ""
            && ListsFirst(m, entry.id, "WEBHOOK_LAG", entry.asaasId, issue.value.lastSeenAt)
            && HasEnded(entry.entityType, entry.asaasId.value, payment, subscription)
            && IsClearAtReview(links, m.contaId, entry.entityType, entry.asaasId.value, entry.entityId)
            && IsClearOf(db.tables, m.contaId, entry.entityType, entry.asaasId.value, entry.entityId)
            && entry.id in db.issues
            && IsOpenVersion(db.issues[entry.id], m.contaId, "WEBHOOK_LAG", entry.asaasId, issue.value.lastSeenAt)
            && db.issues[entry.id].entityType == entry.entityType && db.issues[entry.id].entityId == entry.entityId
  {
    hide HasPaymentLink, HasSubscriptionLink, HasChargeOwner, IsClearOfPayment, IsClearOfSubscription;
    hide IsListed, ListsFirst, IsClearAtReview;
    if issue.Some? && entry.asaasId.Some? {
      var asaasId := entry.asaasId.value;
      ListedExactly(m, entry.id, LAG, entry.asaasId, issue.value.lastSeenAt);
      ClearAtReviewExactly(links, m.contaId, asaasId, entry.entityId);
      SubscriptionReview(links, m.contaId, asaasId, entry);
      NoPaymentLinkExactly(db.tables, m.contaId, asaasId, entry.entityId);
      NoSubscriptionLinkExactly(links, m.contaId, asaasId, entry.entityId);
      NoSubscriptionLinkExactly(db.tables, m.contaId, asaasId, entry.entityId);
    }
  }

  /** A cycle's chain agrees with the provider's payment and subscription. */
  predicate AgreesWith(p: Proof, asaasId: string, payment: Payment, subscription: RemoteSubscription) {
    && payment.id == asaasId
    && payment.subscription == Some(p.asaasSubscriptionId) && subscription.id == p.asaasSubscriptionId
    && payment.externalReference == Some(p.parentReference) && subscription.externalReference == Some(p.parentReference)
    && payment.status == "PENDING" && !payment.deleted && subscription.status == "ACTIVE" && !subscription.deleted
    && payment.valor == p.valor && payment.dueDate == p.dueDate
  }

  /**
   A recurring cycle is resolved exactly when one canonical chain is stored both at the first proof and in the
   transaction, agrees with the provider, and the issue is still in every column the one that was read.
   */
  lemma CycleResolvesExactly(
    seen: Issue, asaasId: string, payment: Payment, subscription: RemoteSubscription, first: Tables, db: Db)
    requires HasUniqueKeys(first) && HasUniqueKeys(db.tables)
    ensures WasResolved(CycleReview(seen, asaasId, payment, subscription, first, true), db) <==>
            && (exists p :: HasChain(first, seen.contaId, asaasId, seen.metadata, p)
                            && HasChain(db.tables, seen.contaId, asaasId, seen.metadata, p)
                            && AgreesWith(p, asaasId, payment, subscription))
            && seen.id in db.issues
            && var found := db.issues[seen.id];
               && IsOpenVersion(found, seen.contaId, seen.issueType, Some(asaasId), seen.lastSeenAt)
               && found.entityType == seen.entityType && found.entityId == seen.entityId
               && found.remoteStatus == seen.remoteStatus && found.metadata == seen.metadata
  {
    hide LoadProof, HasChain, HasUniqueKeys;
    var proof := LoadProof(first, seen.contaId, asaasId, seen.metadata);
    if proof.Some? {
      ProofLoadsExactly(first, seen.contaId, asaasId, seen.metadata, proof.value);
      ProofLoadsExactly(db.tables, seen.contaId, asaasId, seen.metadata, proof.value);
    }
    forall p ensures HasChain(first, seen.contaId, asaasId, seen.metadata, p) <==> proof == Some(p) {
      ProofLoadsExactly(first, seen.contaId, asaasId, seen.metadata, p);
    }
  }

  // ---------------------------------------------------------------- payments outside a cycle

  /** The rows that a review of a linked payment finds first: its charge and its cobranca. */
  ghost predicate AreFound(t: Tables, contaId: string, asaasId: string, charge: Charge, cobranca: Cobranca) {
    && IsFirst(t.charges, (r: Charge) => r.contaId == contaId && r.asaasPaymentId == Some(asaasId), charge)
    && IsFirst(t.cobrancas, (r: Cobranca) => IsCobrancaOf(r, contaId, asaasId), cobranca)
  }

  /** The operation of the account holds the payment as its fee or as its first payment, as the reference says. */
  ghost predicate HasOperation(t: Tables, contaId: string, asaasId: string, e: Enrollment) {
    exists o :: o in t.operations && o.id == e.operationId && o.contaId == contaId
                && (e.isFee ==> o.asaasEnrollmentFeePaymentId == Some(asaasId))
                && (!e.isFee ==> o.asaasFirstPaymentId == Some(asaasId))
  }

  lemma OperationExactly(t: Tables, contaId: string, asaasId: string, e: Enrollment)
    ensures HasOperation(t, contaId, asaasId, e) <==>
            exists o :: o in t.operations && IsOperationOf(o, contaId, e, asaasId)
  {
    if o :| o in t.operations && IsOperationOf(o, contaId, e, asaasId) {
      assert o.id == e.operationId && o.contaId == contaId;
    }
    if HasOperation(t, contaId, asaasId, e) {
      var o :| o in t.operations && o.id == e.operationId && o.contaId == contaId
               && (e.isFee ==> o.asaasEnrollmentFeePaymentId == Some(asaasId))
               && (!e.isFee ==> o.asaasFirstPaymentId == Some(asaasId));
      assert IsOperationOf(o, contaId, e, asaasId);
    }
  }

  /** A cobranca belongs to a payment of its account under either of its two provider ids. */
  lemma CobrancaOfExactly(c: Cobranca, contaId: string, asaasId: string)
    ensures IsCobrancaOf(c, contaId, asaasId) <==>
            c.contaId == contaId && Some(asaasId) in {c.asaasPaymentId, c.asaasId}
  {
  }

  /** They name each other and the operation, are open, and agree with the provider; outside a recurring cycle. */
  ghost predicate AreLinked(
    t: Tables, contaId: string, asaasId: string, metadata: Json, payment: Payment,
    charge: Charge, cobranca: Cobranca, e: Enrollment)
  {
    && charge.cobrancaId == Some(cobranca.id) && TextField(metadata, "resolvedLocalEntityId") == Some(cobranca.id)
    && charge.status == "OPEN" && cobranca.status == "PENDENTE"
    && !Includes(charge.externalReference, ":subscription:payment:")
    && charge.externalReference == "enrollment-op:" + e.operationId + (if e.isFee then ":fee" else ":subscription")
    && IsPart(e.operationId)
    && HasOperation(t, contaId, asaasId, e)
    && payment.id == asaasId && payment.externalReference == Some(charge.externalReference)
    && payment.status == "PENDING" && !payment.deleted
  }

  /** The same rows are still linked and open in the transaction. */
  ghost predicate AreStillLinked(t: Tables, contaId: string, asaasId: string, charge: Charge, cobranca: Cobranca) {
    exists c, b ::
      && IsFirst(t.charges, (r: Charge) =>
                   r.id == charge.id && r.contaId == contaId && r.asaasPaymentId == Some(asaasId), c)
      && IsFirst(t.cobrancas, (r: Cobranca) => r.id == cobranca.id && IsCobrancaOf(r, contaId, asaasId), b)
      && c.cobrancaId == Some(b.id) && c.externalReference == charge.externalReference
      && c.status == "OPEN" && b.status == "PENDENTE"
  }

  /** The review outside a cycle leads to exactly the plan about the rows found, when they are linked. */
  lemma LinkedPlansExactly(
    m: Manifest, entry: ManifestIssue, payment: Payment, subscription: RemoteSubscription,
    links: Tables, first: Tables, issue: Option<Issue>, p: Plan)
    requires p.Linked?
    ensures LinkedReview(m, entry, payment, subscription, links, first, issue, true) == Ok(Go(p)) <==>
            && issue == Some(p.seen) && p.seen.status == Open && p.seen.issueType == "PAYMENT_MISSING_LOCAL_ENTITY"
            && p.seen.entityType == entry.entityType && p.seen.entityId == entry.entityId
            && p.seen.asaasId == entry.asaasId && entry.asaasId == Some(p.asaasId) && p.asaasId != ""
            && ListsFirst(m, entry.id, "PAYMENT_MISSING_LOCAL_ENTITY", entry.asaasId, p.seen.lastSeenAt)
            && HasPriorRepairMarker(p.seen.metadata)
            && TextField(p.seen.metadata, "lastCauseId") == Some(p.causeId) && p.causeId != ""
            && AreFound(links, m.contaId, p.asaasId, p.charge, p.cobranca)
            && exists e :: AreLinked(links, m.contaId, p.asaasId, p.seen.metadata, payment, p.charge, p.cobranca, e)
  {
    hide HasPriorRepairMarker, Includes, IsListed, ListsFirst, TextField, EnrollmentOperation, LoadProof;
    hide IsFirst, First;
    if issue.Some? && entry.asaasId.Some? {
      var asaasId := entry.asaasId.value;
      ListedExactly(m, entry.id, MISSING, entry.asaasId, issue.value.lastSeenAt);
      FirstExactly(links.charges, (r: Charge) => r.contaId == m.contaId && r.asaasPaymentId == Some(asaasId), p.charge);
      FirstExactly(links.cobrancas, (r: Cobranca) => IsCobrancaOf(r, m.contaId, asaasId), p.cobranca);
      var operation := EnrollmentOperation(p.charge.externalReference);
      if operation.Some? {
        EnrollmentReferenceIsExact(p.charge.externalReference, operation.value);
        OperationExactly(links, m.contaId, asaasId, operation.value);
        assert LinkedReview(m, entry, payment, subscription, links, first, issue, true) == Ok(Go(p)) ==>
            AreLinked(links, m.contaId, asaasId, p.seen.metadata, payment, p.charge, p.cobranca, operation.value);
      }
      if e :| AreLinked(links, m.contaId, asaasId, p.seen.metadata, payment, p.charge, p.cobranca, e) {
        EnrollmentReferenceIsExact(p.charge.externalReference, e);
        OperationExactly(links, m.contaId, asaasId, e);
      }
    }
  }

  /** Such a plan commits exactly while the rows are linked and the issue has the version and metadata read. */
  lemma LinkedCommitsExactly(db: Db, p: Plan)
    requires p.Linked?
    ensures Commits(db, p) <==>
            && AreStillLinked(db.tables, p.seen.contaId, p.asaasId, p.charge, p.cobranca)
            && p.seen.id in db.issues
            && var found := db.issues[p.seen.id];
               && IsOpenVersion(found, p.seen.contaId, "PAYMENT_MISSING_LOCAL_ENTITY", Some(p.asaasId),
                                p.seen.lastSeenAt)
               && found.metadata == p.seen.metadata
               && TextField(found.metadata, "lastCauseId") == Some(p.causeId)
               && TextField(found.metadata, "resolvedLocalEntityId") == Some(p.cobranca.id)
  {
    hide First, IsFirst, TextField;
    var contaId, asaasId, t := p.seen.contaId, p.asaasId, db.tables;
    var isCharge := (r: Charge) =>
      r.id == p.charge.id && r.contaId == p.seen.contaId && r.asaasPaymentId == Some(p.asaasId);
    var isCobranca := (r: Cobranca) => r.id == p.cobranca.id && IsCobrancaOf(r, p.seen.contaId, p.asaasId);
    forall c ensures First(t.charges, isCharge) == Some(c) <==> IsFirst(t.charges, isCharge, c) {
      FirstExactly(t.charges, isCharge, c);
    }
    forall b ensures First(t.cobrancas, isCobranca) == Some(b) <==> IsFirst(t.cobrancas, isCobranca, b) {
      FirstExactly(t.cobrancas, isCobranca, b);
    }
  }

  // ---------------------------------------------------------------- canceled orders

  /** An issue from before orders kept their provider id: its customer was ambiguous. */
  predicate IsLegacy(seen: Issue) {
    && seen.asaasId.None? && seen.remoteStatus == Some("BUYER_CUSTOMER_NOT_CONFIRMED")
    && TextField(seen.metadata, "lookupError") == Some("MULTIPLE_BUYER_CUSTOMERS")
  }

  /** The order of the issue is closed with this payment; one of a legacy issue canceled with the payment deleted. */
  ghost predicate IsOrderClosed(t: Tables, contaId: string, orderId: string, paymentId: string, isLegacy: bool) {
    exists o :: IsFirst(t.orders, (r: Order) => r.id == orderId && r.contaId == contaId, o)
                && o.asaasPaymentId == Some(paymentId) && o.paymentProvider == Some("ASAAS")
                && (o.status == "CANCELLED" || (o.status == "EXPIRED" && !isLegacy))
                && (isLegacy ==> o.paymentStatus == Some("DELETED"))
  }

  lemma OrderClosedExactly(t: Tables, contaId: string, orderId: string, paymentId: string, isLegacy: bool)
    ensures IsOrderClosed(t, contaId, orderId, paymentId, isLegacy) <==>
            OrderAt(t, contaId, orderId).Some? && IsClosed(OrderAt(t, contaId, orderId).value, paymentId, isLegacy)
  {
    hide First, IsFirst;
    var p := (r: Order) => r.id == orderId && r.contaId == contaId;
    forall o ensures OrderAt(t, contaId, orderId) == Some(o) <==> IsFirst(t.orders, p, o) {
      FirstExactly(t.orders, p, o);
    }
  }

  /** The issue names the order and its payment exactly, and an approved reason. */
  predicate IsExactIdentity(seen: Issue, orderId: string, paymentId: string) {
    && orderId != "" && seen.entityId == Some(orderId) && paymentId != ""
    && (seen.asaasId == Some(paymentId) || (seen.asaasId.None? && IsLegacy(seen)))
    && TextField(seen.metadata, "orderId") == Some(orderId) && TextField(seen.metadata, "paymentId") == Some(paymentId)
    && TextField(seen.metadata, "externalReference") == Some("event-map-order:" + orderId)
    && (TextField(seen.metadata, "reason") == Some("BUYER_CUSTOMER_NOT_CONFIRMED")
        || (IsLegacy(seen) && FieldOf(seen.metadata, "reason").None? && FieldOf(seen.metadata, "lastCauseId").None?))
  }

  /**
   A cancellation is resolved exactly when the issue is open in the version of the manifest and names its order and
   payment, the provider's payment is the deleted one of the order without an alternative, the order is closed at the
   review and in the transaction, and the issue is still in every column the one that was read.
   */
  lemma CancellationResolvesExactly(
    m: Manifest, entry: ManifestIssue, payment: Payment, listing: seq<Payment>,
    links: Tables, issue: Option<Issue>, db: Db)
    requires IsRead(issue, entry.id, m.contaId)
    ensures WasResolved(CancellationReview(m, entry, payment, listing, links, issue, true), db) <==>
            && issue.Some? && entry.entityId.Some?
            && var seen := issue.value;
               var orderId := entry.entityId.value;
               && IsOpenVersion(seen, m.contaId, "BILLING_OPERATION_UNCERTAIN", entry.asaasId, entry.lastSeenAt)
               && seen.entityType == "PAYMENT"
               && IsExactIdentity(seen, orderId, payment.id)
               && payment.externalReference == Some("event-map-order:" + orderId)
               && (payment.deleted || payment.status == "DELETED")
               && |listing| <= 1
               && (forall c :: c in listing ==>
                     c.id == payment.id && c.externalReference == payment.externalReference
                     && c.deleted == payment.deleted && c.status == payment.status)
               && (IsGiven(TextField(seen.metadata, "lastCauseId")) || IsLegacy(seen))
               && IsOrderClosed(links, m.contaId, orderId, payment.id, IsLegacy(seen))
               && IsOrderClosed(db.tables, m.contaId, orderId, payment.id, IsLegacy(seen))
               && entry.id in db.issues
               && var found := db.issues[entry.id];
                  && IsOpenVersion(found, m.contaId, "BILLING_OPERATION_UNCERTAIN", entry.asaasId, entry.lastSeenAt)
                  && found.entityType == "PAYMENT" && found.entityId == seen.entityId
                  && found.remoteStatus == seen.remoteStatus && found.metadata == seen.metadata
  {
    hide OrderAt, IsClosed, IsOrderClosed, TextField, FieldOf;
    if issue.Some? && entry.entityId.Some? {
      var isLegacy := IsLegacy(issue.value);
      OrderClosedExactly(links, m.contaId, entry.entityId.value, payment.id, isLegacy);
      OrderClosedExactly(db.tables, m.contaId, entry.entityId.value, payment.id, isLegacy);
    }
  }

  // ---------------------------------------------------------------- answers without a transaction

  /** An issue is read by its id, in its own account only. */
  lemma IssueAtExactly(issues: map<string, Issue>, id: string, contaId: string, issue: Issue)
    ensures IssueAt(issues, id, contaId) == Some(issue) <==>
            id in issues && issues[id] == issue && issue.contaId == contaId
  {
  }

  /** The provider's rows of a historical payment are as approved, and nothing local has them. */
  ghost predicate IsApproved(
    m: Manifest, item: HistoricalItem, payment: Payment, subscription: RemoteSubscription, links: Tables)
  {
    && payment == Payment(item.paymentId, Some(item.subscriptionId), item.expectedStatus, item.expectedValue,
                          item.expectedDueDate, Some(item.expectedPaymentDate), false, Some(item.externalReference))
    && subscription.deleted && subscription.status == "INACTIVE"
    && IsClearOfPayment(links, m.contaId, item.paymentId, None)
    && IsClearOfSubscription(links, m.contaId, item.subscriptionId, None)
  }

  /** The issue was resolved as a closed enrollment's history. */
  ghost predicate IsMarked(issue: Option<Issue>) {
    && issue.Some? && issue.value.status == Resolved && issue.value.resolution.Some?
    && exists a, b :: issue.value.resolution.value == a + "histórico de matrícula encerrada" + b
  }

  /**
   A historical payment counts as already resolved exactly when its issue is resolved with the marker, and as stale
   exactly when it is anything else but the open issue of the payment.
   */
  lemma HistoricalAnswers(
    m: Manifest, item: HistoricalItem, payment: Payment, subscription: RemoteSubscription,
    links: Tables, issue: Option<Issue>, apply: bool)
    ensures var r := HistoricalReview(m, item, payment, subscription, links, issue, apply);
            && (r == Ok(Stop(AlreadyResolved)) <==>
                IsApproved(m, item, payment, subscription, links) && IsMarked(issue))
            && (r == Ok(Stop(SkippedStale)) <==>
                && IsApproved(m, item, payment, subscription, links) && !IsMarked(issue)
                && !(issue.Some? && issue.value.status == Open
                     && issue.value.issueType == "PAYMENT_MISSING_LOCAL_ENTITY"
                     && issue.value.asaasId == Some(item.paymentId)))
  {
    hide HasPaymentLink, HasSubscriptionLink, IsClearOfPayment, IsClearOfSubscription, IsListed, Includes, TextField;
    NoPaymentLinkExactly(links, m.contaId, item.paymentId, None);
    NoSubscriptionLinkExactly(links, m.contaId, item.subscriptionId, None);
    if issue.Some? && issue.value.resolution.Some? {
      IncludesExactly(issue.value.resolution.value, CLOSED_ENROLLMENT);
    }
  }

  /** The issue is the one of the manifest's entry. */
  predicate IsOfEntry(issue: Option<Issue>, entry: ManifestIssue, issueType: string) {
    && issue.Some? && issue.value.issueType == issueType && issue.value.entityType == entry.entityType
    && issue.value.entityId == entry.entityId && issue.value.asaasId == entry.asaasId
    && entry.asaasId.Some? && entry.asaasId.value != ""
  }

  /** What a lag's review answers without a transaction, for each answer exactly when. */
  lemma AbsentLagAnswers(
    m: Manifest, entry: ManifestIssue, payment: Payment, subscription: RemoteSubscription,
    links: Tables, issue: Option<Issue>, apply: bool)
    ensures var r := AbsentLagReview(m, entry, payment, subscription, links, issue, apply);
            && (r == Thrown(IssueMismatch) <==> !IsOfEntry(issue, entry, "WEBHOOK_LAG"))
            && (r == Ok(Stop(AlreadyResolved)) <==>
                IsOfEntry(issue, entry, "WEBHOOK_LAG") && issue.value.status == Resolved)
            && (r == Ok(Stop(SkippedStale)) <==>
                && IsOfEntry(issue, entry, "WEBHOOK_LAG")
                && (issue.value.status == Ignored
                    || (issue.value.status == Open
                        && (|| !ListsFirst(m, entry.id, "WEBHOOK_LAG", entry.asaasId, issue.value.lastSeenAt)
                            || (entry.entityType != "CHARGE" && entry.entityType != "SUBSCRIPTION")
                            || (IsAnswered(entry, payment, subscription)
                                && !IsClearAtReview(links, m.contaId, entry.entityType, entry.asaasId.value,
                                                    entry.entityId))))))
            && (r == Thrown(NotTerminal) <==>
                && IsOfEntry(issue, entry, "WEBHOOK_LAG") && issue.value.status == Open
                && ListsFirst(m, entry.id, "WEBHOOK_LAG", entry.asaasId, issue.value.lastSeenAt)
                && IsAnswered(entry, payment, subscription)
                && IsClearAtReview(links, m.contaId, entry.entityType, entry.asaasId.value, entry.entityId)
                && !HasEnded(entry.entityType, entry.asaasId.value, payment, subscription))
  {
    hide HasSubscriptionLink, HasChargeOwner, IsClearOfSubscription, IsListed, ListsFirst, IsClearAtReview;
    if issue.Some? && entry.asaasId.Some? {
      var asaasId := entry.asaasId.value;
      ListedExactly(m, entry.id, LAG, entry.asaasId, issue.value.lastSeenAt);
      ClearAtReviewExactly(links, m.contaId, asaasId, entry.entityId);
      SubscriptionReview(links, m.contaId, asaasId, entry);
      NoSubscriptionLinkExactly(links, m.contaId, asaasId, entry.entityId);
    }
  }

  /** The provider answers with the resource that was asked for. */
  predicate IsAnswered(entry: ManifestIssue, payment: Payment, subscription: RemoteSubscription) {
    || (entry.entityType == "CHARGE" && Some(payment.id) == entry.asaasId)
    || (entry.entityType == "SUBSCRIPTION" && Some(subscription.id) == entry.asaasId)
  }

  /** The same for linked payments, whose further reasons all throw. */
  lemma LinkedAnswers(
    m: Manifest, entry: ManifestIssue, payment: Payment, subscription: RemoteSubscription,
    links: Tables, first: Tables, issue: Option<Issue>, apply: bool)
    ensures var r := LinkedReview(m, entry, payment, subscription, links, first, issue, apply);
            var isOfEntry := IsOfEntry(issue, entry, "PAYMENT_MISSING_LOCAL_ENTITY");
            && (r == Thrown(IssueMismatch) <==> !isOfEntry)
            && (r == Ok(Stop(AlreadyResolved)) <==> isOfEntry && issue.value.status == Resolved)
            && (r == Ok(Stop(SkippedStale)) <==>
                && isOfEntry
                && (issue.value.status == Ignored
                    || (issue.value.status == Open
                        && !ListsFirst(m, entry.id, "PAYMENT_MISSING_LOCAL_ENTITY", entry.asaasId,
                                       issue.value.lastSeenAt))))
  {
    hide Includes, IsListed, ListsFirst, LoadProof, EnrollmentOperation, HasPriorRepairMarker, TextField, First;
    hide IsOperationOf;
    if issue.Some? {
      ListedExactly(m, entry.id, MISSING, entry.asaasId, issue.value.lastSeenAt);
    }
  }

  /** And for cancellations: stale is also an exactly named issue that has been seen again. */
  lemma CancellationAnswers(
    m: Manifest, entry: ManifestIssue, payment: Payment, listing: seq<Payment>,
    links: Tables, issue: Option<Issue>, apply: bool)
    ensures var r := CancellationReview(m, entry, payment, listing, links, issue, apply);
            var isOfEntry := issue.Some? && issue.value.issueType == "BILLING_OPERATION_UNCERTAIN"
                             && issue.value.entityType == "PAYMENT" && issue.value.asaasId == entry.asaasId
                             && issue.value.entityId == entry.entityId && IsGiven(entry.entityId);
            && (r == Thrown(IssueMismatch) <==> !isOfEntry)
            && (r == Ok(Stop(AlreadyResolved)) <==> isOfEntry && issue.value.status == Resolved)
            && (r == Ok(Stop(SkippedStale)) <==>
                && isOfEntry
                && (issue.value.status == Ignored
                    || (issue.value.status == Open && issue.value.lastSeenAt != entry.lastSeenAt
                        && TextField(issue.value.metadata, "paymentId").Some?
                        && IsExactIdentity(issue.value, entry.entityId.value,
                                           TextField(issue.value.metadata, "paymentId").value))))
  {
    hide OrderAt, IsClosed, IsSameDeleted, TextField, FieldOf;
  }

  /** A dry run is ready exactly when an applied one reaches its transaction. */
  lemma DryRunIsReady(
    m: Manifest, item: HistoricalItem, entry: ManifestIssue, payment: Payment, subscription: RemoteSubscription,
    links: Tables, issue: Option<Issue>)
    ensures HistoricalReview(m, item, payment, subscription, links, issue, false) == Ok(Stop(Ready)) <==>
            IsPlan(HistoricalReview(m, item, payment, subscription, links, issue, true))
    ensures AbsentLagReview(m, entry, payment, subscription, links, issue, false) == Ok(Stop(Ready)) <==>
            IsPlan(AbsentLagReview(m, entry, payment, subscription, links, issue, true))
  {
    hide HasPaymentLink, HasSubscriptionLink, HasChargeOwner, Includes, IsListed, TextField;
  }

  /** Linked payments and cancellations also need a cause, which a dry run does not look for. */
  lemma LinkedDryRunIsReady(
    m: Manifest, entry: ManifestIssue, payment: Payment, subscription: RemoteSubscription,
    links: Tables, first: Tables, issue: Option<Issue>)
    ensures LinkedReview(m, entry, payment, subscription, links, first, issue, false) == Ok(Stop(Ready)) <==>
            var applied := LinkedReview(m, entry, payment, subscription, links, first, issue, true);
            IsPlan(applied) || applied == Thrown(NoCause)
  {
    hide Includes, IsListed, LoadProof, EnrollmentOperation, HasPriorRepairMarker, TextField, IsOperationOf, First;
  }

  lemma CancellationDryRunIsReady(
    m: Manifest, entry: ManifestIssue, payment: Payment, listing: seq<Payment>, links: Tables, issue: Option<Issue>)
    ensures CancellationReview(m, entry, payment, listing, links, issue, false) == Ok(Stop(Ready)) <==>
            var applied := CancellationReview(m, entry, payment, listing, links, issue, true);
            IsPlan(applied) || applied == Thrown(NoCause)
  {
    hide TextField, FieldOf, IsSameDeleted, OrderAt, IsClosed;
  }
}
