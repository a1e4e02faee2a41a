/**
 The recovery of reconciliation issues: each resolver reviews an issue from what it read, and then resolves it in a
 transaction that checks the local state again and compares the issue with what was read.
 */
module Reconciliation {
  import opened Wrappers
  import opened TrimmedText

  datatype Json =
    | Null | Flag(flag: bool) | Number(number: int) | Text(text: string)
    | List(items: seq<Json>) | Fields(fields: map<string, Json>)

  datatype IssueStatus = Open | Resolved | Ignored

  datatype Issue = Issue(
    id: string, contaId: string, issueType: string, entityType: string, entityId: Option<string>,
    asaasId: Option<string>, status: IssueStatus, lastSeenAt: int, remoteStatus: Option<string>,
    metadata: Json, resolvedAt: Option<int>, resolution: Option<string>)

  // ---------------------------------------------------------------- local tables

  datatype Charge = Charge(
    id: string, contaId: string, asaasPaymentId: Option<string>, cobrancaId: Option<string>,
    externalReference: string, status: string, valor: Option<int>, dueDate: Option<string>)

  /** Amounts are in cents and dates are days as text. */
  datatype Cobranca = Cobranca(
    id: string, contaId: string, matriculaId: string, asaasPaymentId: Option<string>, asaasId: Option<string>,
    status: string, valor: int, vencimento: string)

  datatype Pagamento = Pagamento(id: string, contaId: string, asaasPaymentId: Option<string>)

  datatype Subscription = Subscription(
    id: string, contaId: string, asaasSubscriptionId: Option<string>, status: string, matriculaId: string,
    externalReference: string)

  /** A standalone subscription, a billing agreement, an enrollment or a future agreement. */
  datatype Holder = Holder(id: string, contaId: string, asaasSubscriptionId: Option<string>)

  datatype Operation = Operation(
    id: string, contaId: string, status: string, matriculaId: Option<string>, asaasSubscriptionId: Option<string>,
    asaasFirstPaymentId: Option<string>, asaasEnrollmentFeePaymentId: Option<string>)

  datatype Order = Order(
    id: string, contaId: string, status: string, asaasPaymentId: Option<string>, paymentProvider: Option<string>,
    paymentStatus: Option<string>)

  datatype Tables = Tables(
    charges: seq<Charge>, cobrancas: seq<Cobranca>, pagamentos: seq<Pagamento>, subscriptions: seq<Subscription>,
    standalones: seq<Holder>, agreements: seq<Holder>, matriculas: seq<Holder>, operations: seq<Operation>,
    futureAgreements: seq<Holder>, orders: seq<Order>)

  // ---------------------------------------------------------------- the provider's answers and the manifest

  datatype Payment = Payment(
    id: string, subscription: Option<string>, status: string, valor: int, dueDate: string,
    paymentDate: Option<string>, deleted: bool, externalReference: Option<string>)

  datatype RemoteSubscription = RemoteSubscription(
    id: string, status: string, deleted: bool, externalReference: Option<string>)

  datatype ManifestIssue = ManifestIssue(
    id: string, issueType: string, entityType: string, entityId: Option<string>, asaasId: Option<string>,
    lastSeenAt: int)

  datatype Manifest = Manifest(contaId: string, openIssues: seq<ManifestIssue>)

  datatype HistoricalItem = HistoricalItem(
    issueId: string, paymentId: string, subscriptionId: string, externalReference: string, reason: string,
    expectedStatus: string, expectedValue: int, expectedDueDate: string, expectedPaymentDate: string,
    expectedIssueReason: string, expectedIssueLastSeenAt: int, expectedCauseId: string)

  datatype AuditContext = AuditContext(operatorLabel: string, runId: string)

  // ---------------------------------------------------------------- outcomes

  datatype Outcome = Ready | ResolvedNow | AlreadyResolved | SkippedStale

  datatype RecoveryError =
    | RemoteMismatch | LocalLink | IssueMismatch | IssueUnlisted | IssueChanged | NotTerminal
    | NoRepairDecision | NoCanonicalLink | NoCause | OrderNotClosed | NotExactIdentity | Alternatives

  /** What the canonical chain of a recurring cycle looks like, as it is compared and audited. */
  datatype Proof = Proof(
    chargeId: string, cobrancaId: string, chargeStatus: string, cobrancaStatus: string, externalReference: string,
    parentReference: string, operationId: string, enrollmentId: string, subscriptionId: string,
    asaasSubscriptionId: string, valor: int, dueDate: string)

  /** What a review carries into its transaction; `seen` is the issue it read. */
  datatype Plan =
    | Historical(seen: Issue, paymentId: string, subscriptionId: string, causeId: string, expectedReason: string,
                 reason: string)
    | AbsentLag(seen: Issue, asaasId: string, isPayment: bool)
    | Cycle(seen: Issue, paymentId: string, proof: Proof)
    | Linked(seen: Issue, asaasId: string, charge: Charge, cobranca: Cobranca, causeId: string)
    | Cancellation(seen: Issue, orderId: string, paymentId: string, isLegacy: bool)

  datatype Review = Stop(outcome: Outcome) | Go(plan: Plan)

  /** The audit row of a resolver. Rows that other writers add under the same action are not part of this log. */
  datatype AuditRow = AuditRow(contaId: string, issueId: string, code: string, context: AuditContext, metadata: Plan)

  datatype Db = Db(issues: map<string, Issue>, audit: seq<AuditRow>, tables: Tables)

  // ---------------------------------------------------------------- text and JSON

  predicate Includes(s: string, part: string) {
    exists i :: 0 <= i <= |s| - |part| && s[i..][..|part|] == part
  }

  function FieldOf(m: Json, name: string): Option<Json> {
    if m.Fields? && name in m.fields then Some(m.fields[name]) else None
  }

  function TextField(m: Json, name: string): Option<string> {
    var f := FieldOf(m, name);
    if f.Some? && f.value.Text? then Some(f.value.text) else None
  }

  predicate IsGiven(o: Option<string>) {
    o.Some? && o.value != ""
  }

  predicate HasPriorRepairMarker(m: Json) {
    FieldOf(m, "manualRepair") == Some(Flag(true))
    || (TextField(m, "manualRepair").Some? && Trim(TextField(m, "manualRepair").value) != "")
  }

  function First<T>(rows: seq<T>, p: T -> bool): (r: Option<T>)
    ensures r.Some? ==> r.value in rows && p(r.value)
    ensures r.None? ==> forall x :: x in rows ==> !p(x)
  {
    if rows == [] then None else if p(rows[0]) then Some(rows[0]) else First(rows[1..], p)
  }

  // ---------------------------------------------------------------- local links

  predicate HasPaymentLink(t: Tables, contaId: string, paymentId: string, entityId: Option<string>) {
    || (exists r :: r in t.charges && r.contaId == contaId
                    && (r.asaasPaymentId == Some(paymentId) || (IsGiven(entityId) && Some(r.id) == entityId)))
    || (exists r :: r in t.cobrancas && r.contaId == contaId
                    && (r.asaasPaymentId == Some(paymentId) || r.asaasId == Some(paymentId)
                        || (IsGiven(entityId) && Some(r.id) == entityId)))
    || (exists r :: r in t.pagamentos && r.contaId == contaId
                    && (r.asaasPaymentId == Some(paymentId) || (IsGiven(entityId) && Some(r.id) == entityId)))
  }

  predicate HasHolder(rows: seq<Holder>, contaId: string, subscriptionId: string, entityId: Option<string>) {
    exists r :: r in rows && r.contaId == contaId
                && (r.asaasSubscriptionId == Some(subscriptionId) || (IsGiven(entityId) && Some(r.id) == entityId))
  }

  predicate HasSubscriptionLink(t: Tables, contaId: string, subscriptionId: string, entityId: Option<string>) {
    || (exists r :: r in t.subscriptions && r.contaId == contaId
                    && (r.asaasSubscriptionId == Some(subscriptionId) || (IsGiven(entityId) && Some(r.id) == entityId)))
    || HasHolder(t.standalones, contaId, subscriptionId, entityId)
    || HasHolder(t.agreements, contaId, subscriptionId, entityId)
    || HasHolder(t.matriculas, contaId, subscriptionId, entityId)
    || (exists r :: r in t.operations && r.contaId == contaId && r.asaasSubscriptionId == Some(subscriptionId))
    || HasHolder(t.futureAgreements, contaId, subscriptionId, None)
  }

  /** The lag review's own look at the payment tables, which does not search payments by the issue's entity. */
  predicate HasChargeOwner(t: Tables, contaId: string, paymentId: string, entityId: Option<string>) {
    HasPaymentLink(t.(pagamentos := []), contaId, paymentId, entityId)
    || exists r :: r in t.pagamentos && r.contaId == contaId && r.asaasPaymentId == Some(paymentId)
  }

  // ---------------------------------------------------------------- local owners

  /** The row is the entity that the issue names. */
  predicate IsEntity(id: string, entityId: Option<string>) {
    entityId.Some? && entityId.value != "" && id == entityId.value
  }

  /** No charge, cobranca or pagamento of the account is the entity or has the payment under any of its provider ids. */
  ghost predicate IsClearOfPayment(t: Tables, contaId: string, paymentId: string, entityId: Option<string>) {
    && (forall r :: r in t.charges && r.contaId == contaId ==>
          r.asaasPaymentId != Some(paymentId) && !IsEntity(r.id, entityId))
    && (forall r :: r in t.cobrancas && r.contaId == contaId ==>
          r.asaasPaymentId != Some(paymentId) && r.asaasId != Some(paymentId) && !IsEntity(r.id, entityId))
    && (forall r :: r in t.pagamentos && r.contaId == contaId ==>
          r.asaasPaymentId != Some(paymentId) && !IsEntity(r.id, entityId))
  }

  ghost predicate IsClearOfHolders(
    rows: seq<Holder>, contaId: string, subscriptionId: string, entityId: Option<string>)
  {
    forall r :: r in rows && r.contaId == contaId ==>
      r.asaasSubscriptionId != Some(subscriptionId) && !IsEntity(r.id, entityId)
  }

  /** No row of the six tables that can hold a subscription has it; the first four have no row that is the entity. */
  ghost predicate IsClearOfSubscription(t: Tables, contaId: string, subscriptionId: string, entityId: Option<string>) {
    && (forall r :: r in t.subscriptions && r.contaId == contaId ==>
          r.asaasSubscriptionId != Some(subscriptionId) && !IsEntity(r.id, entityId))
    && IsClearOfHolders(t.standalones, contaId, subscriptionId, entityId)
    && IsClearOfHolders(t.agreements, contaId, subscriptionId, entityId)
    && IsClearOfHolders(t.matriculas, contaId, subscriptionId, entityId)
    && (forall r :: r in t.operations && r.contaId == contaId ==> r.asaasSubscriptionId != Some(subscriptionId))
    && (forall r :: r in t.futureAgreements && r.contaId == contaId ==> r.asaasSubscriptionId != Some(subscriptionId))
  }

  /** The search for a payment finds nothing exactly when the tables are clear of it and of the entity. */
  lemma NoPaymentLinkExactly(t: Tables, contaId: string, paymentId: string, entityId: Option<string>)
    ensures !HasPaymentLink(t, contaId, paymentId, entityId) <==> IsClearOfPayment(t, contaId, paymentId, entityId)
  {
  }

  lemma NoHolderExactly(rows: seq<Holder>, contaId: string, subscriptionId: string, entityId: Option<string>)
    ensures !HasHolder(rows, contaId, subscriptionId, entityId) <==>
            IsClearOfHolders(rows, contaId, subscriptionId, entityId)
  {
  }

  /** The same for a subscription. */
  lemma NoSubscriptionLinkExactly(t: Tables, contaId: string, subscriptionId: string, entityId: Option<string>)
    ensures !HasSubscriptionLink(t, contaId, subscriptionId, entityId) <==>
            IsClearOfSubscription(t, contaId, subscriptionId, entityId)
  {
    hide HasHolder, IsClearOfHolders;
    NoHolderExactly(t.standalones, contaId, subscriptionId, entityId);
    NoHolderExactly(t.agreements, contaId, subscriptionId, entityId);
    NoHolderExactly(t.matriculas, contaId, subscriptionId, entityId);
    NoHolderExactly(t.futureAgreements, contaId, subscriptionId, None);
    assert IsClearOfHolders(t.futureAgreements, contaId, subscriptionId, None) <==>
           forall r :: r in t.futureAgreements && r.contaId == contaId ==> r.asaasSubscriptionId != Some(subscriptionId)
      by { ClearWithoutEntity(t.futureAgreements, contaId, subscriptionId); }
  }

  lemma ClearWithoutEntity(rows: seq<Holder>, contaId: string, subscriptionId: string)
    ensures IsClearOfHolders(rows, contaId, subscriptionId, None) <==>
            forall r :: r in rows && r.contaId == contaId ==> r.asaasSubscriptionId != Some(subscriptionId)
  {
  }

  /** The review of a lag looks at the same rows, but does not take a pagamento for the entity. */
  lemma NoChargeOwnerExactly(t: Tables, contaId: string, paymentId: string, entityId: Option<string>)
    ensures !HasChargeOwner(t, contaId, paymentId, entityId) <==>
            && IsClearOfPayment(t.(pagamentos := []), contaId, paymentId, entityId)
            && forall r :: r in t.pagamentos && r.contaId == contaId ==> r.asaasPaymentId != Some(paymentId)
  {
    hide HasPaymentLink, IsClearOfPayment;
    NoPaymentLinkExactly(t.(pagamentos := []), contaId, paymentId, entityId);
  }

  // ---------------------------------------------------------------- references

  const PREFIX := "enrollment-op:"
  const CYCLE := ":subscription:payment:"

  /** The longest start of a text without a colon. */
  function UntilColon(s: string): (r: string)
    ensures |r| <= |s| && r == s[..|r|] && ':' !in r && (|r| < |s| ==> s[|r|] == ':')
  {
    if s == [] || s[0] == ':' then [] else [s[0]] + UntilColon(s[1..])
  }

  predicate IsPart(s: string) {
    s != "" && ':' !in s
  }

  /** The operation named by the reference of a payment of a recurring cycle. */
  function CycleOperation(reference: string, paymentId: string): Option<string> {
    if !IsPart(paymentId) || |reference| < |PREFIX| || reference[..|PREFIX|] != PREFIX then None
    else
      var id := UntilColon(reference[|PREFIX|..]);
      if id != "" && reference[|PREFIX|..] == id + CYCLE + paymentId then Some(id) else None
  }

  datatype Enrollment = Enrollment(operationId: string, isFee: bool)

  /** The operation and the kind of payment named by the reference of a first payment or an enrollment fee. */
  function EnrollmentOperation(reference: string): Option<Enrollment> {
    if |reference| < |PREFIX| || reference[..|PREFIX|] != PREFIX then None
    else
      var id := UntilColon(reference[|PREFIX|..]);
      if id == "" then None
      else if reference[|PREFIX|..] == id + ":fee" then Some(Enrollment(id, true))
      else if reference[|PREFIX|..] == id + ":subscription" then Some(Enrollment(id, false))
      else None
  }

  lemma {:induction false} UntilColonIs(a: string, rest: string)
    requires ':' !in a && rest != "" && rest[0] == ':'
    ensures UntilColon(a + rest) == a
  {
    if a == "" {
      assert a + rest == rest;
    } else {
      assert (a + rest)[1..] == a[1..] + rest;
      UntilColonIs(a[1..], rest);
    }
  }

  /** A reference names an operation and the payment exactly when it is the canonical text of the two. */
  lemma CycleReferenceIsExact(reference: string, paymentId: string, id: string)
    ensures CycleOperation(reference, paymentId) == Some(id) <==>
            IsPart(id) && IsPart(paymentId) && reference == PREFIX + id + CYCLE + paymentId
  {
    hide UntilColon;
    var rest := CYCLE + paymentId;
    assert PREFIX + (id + rest) == PREFIX + id + CYCLE + paymentId;
    assert id + rest == id + CYCLE + paymentId;
    assert (PREFIX + (id + rest))[|PREFIX|..] == id + rest && (PREFIX + (id + rest))[..|PREFIX|] == PREFIX;
    if IsPart(id) {
      UntilColonIs(id, rest);
    }
    if |reference| >= |PREFIX| {
      assert reference == reference[..|PREFIX|] + reference[|PREFIX|..];
    }
  }

  /** The same for first payments and enrollment fees. */
  lemma EnrollmentReferenceIsExact(reference: string, e: Enrollment)
    ensures EnrollmentOperation(reference) == Some(e) <==>
            IsPart(e.operationId)
            && reference == PREFIX + e.operationId + if e.isFee then ":fee" else ":subscription"
  {
    var id, rest := e.operationId, if e.isFee then ":fee" else ":subscription";
    assert PREFIX + (id + rest) == PREFIX + id + rest;
    if IsPart(id) && reference == PREFIX + id + rest {
      assert reference[|PREFIX|..] == id + rest;
      assert reference[..|PREFIX|] == PREFIX;
      UntilColonIs(id, rest);
      assert |":fee"| != |":subscription"|;
    }
    if EnrollmentOperation(reference) == Some(e) {
      assert reference == reference[..|PREFIX|] + reference[|PREFIX|..];
    }
  }

  // ---------------------------------------------------------------- the chain of a recurring cycle

  predicate IsLinkedTo(c: Cobranca, paymentId: string) {
    && (c.asaasPaymentId == Some(paymentId) || c.asaasId == Some(paymentId))
    && (IsGiven(c.asaasPaymentId) ==> c.asaasPaymentId == Some(paymentId))
    && (IsGiven(c.asaasId) ==> c.asaasId == Some(paymentId))
  }

  function LoadProof(t: Tables, contaId: string, paymentId: string, metadata: Json): Option<Proof> {
    var charge := First(t.charges, (r: Charge) => r.contaId == contaId && r.asaasPaymentId == Some(paymentId));
    if charge.None? then None
    else
      var charge := charge.value;
      var operationId := CycleOperation(charge.externalReference, paymentId);
      if operationId.None? || charge.status != "OPEN" || !IsGiven(charge.cobrancaId) || charge.dueDate.None? then None
      else
        var parent := PREFIX + operationId.value + ":subscription";
        var cobranca := First(t.cobrancas, (r: Cobranca) => Some(r.id) == charge.cobrancaId && r.contaId == contaId);
        var operation := First(t.operations, (r: Operation) => r.id == operationId.value && r.contaId == contaId);
        if cobranca.None? || operation.None? then None
        else
          var cobranca, operation := cobranca.value, operation.value;
          if || TextField(metadata, "resolvedLocalEntityId") != Some(cobranca.id)
             || cobranca.status !in ["PENDENTE", "A_VENCER"] || !IsLinkedTo(cobranca, paymentId)
             || operation.status != "COMMITTED" || !IsGiven(operation.matriculaId)
             || !IsGiven(operation.asaasSubscriptionId)
             || operation.matriculaId != Some(cobranca.matriculaId)
             || (if charge.valor.Some? then charge.valor.value else 0) != cobranca.valor || cobranca.valor <= 0
             || charge.dueDate.value != cobranca.vencimento
          then None
          else
            var subscription := First(t.subscriptions, (r: Subscription) =>
                                  r.contaId == contaId && r.asaasSubscriptionId == operation.asaasSubscriptionId);
            var enrollment := First(t.matriculas, (r: Holder) =>
                                Some(r.id) == operation.matriculaId && r.contaId == contaId);
            if || enrollment.None? || subscription.None? || subscription.value.status != "ACTIVE"
               || subscription.value.matriculaId != enrollment.value.id
               || subscription.value.externalReference != parent
            then None
            else Some(ProofOf(Chain(charge, cobranca, operation, subscription.value, enrollment.value)))
  }

  /** The rows of a cycle from its charge to its enrollment. */
  datatype Chain = Chain(
    charge: Charge, cobranca: Cobranca, operation: Operation, subscription: Subscription, enrollment: Holder)

  function ProofOf(c: Chain): Proof {
    Proof(c.charge.id, c.cobranca.id, c.charge.status, c.cobranca.status, c.charge.externalReference,
          c.subscription.externalReference, c.operation.id, c.enrollment.id, c.subscription.id,
          if c.operation.asaasSubscriptionId.Some? then c.operation.asaasSubscriptionId.value else "",
          c.cobranca.valor, c.cobranca.vencimento)
  }

  /** The rows are there, all in one account. */
  predicate IsStored(t: Tables, contaId: string, c: Chain) {
    && c.charge in t.charges && c.cobranca in t.cobrancas && c.operation in t.operations
    && c.subscription in t.subscriptions && c.enrollment in t.matriculas
    && c.charge.contaId == contaId && c.cobranca.contaId == contaId && c.operation.contaId == contaId
    && c.subscription.contaId == contaId && c.enrollment.contaId == contaId
  }

  /** The rows name each other consistently, are all live, and agree on amount and due date. */
  predicate IsCanonical(c: Chain, paymentId: string, resolvedId: Option<string>) {
    && c.charge.asaasPaymentId == Some(paymentId) && c.charge.status == "OPEN"
    && IsPart(c.operation.id) && IsPart(paymentId)
    && c.charge.externalReference == PREFIX + c.operation.id + CYCLE + paymentId
    && c.charge.cobrancaId == Some(c.cobranca.id) && c.cobranca.id != "" && resolvedId == Some(c.cobranca.id)
    && c.cobranca.status in ["PENDENTE", "A_VENCER"]
    && Some(paymentId) in {c.cobranca.asaasPaymentId, c.cobranca.asaasId}
    && c.cobranca.asaasPaymentId in {None, Some(""), Some(paymentId)}
    && c.cobranca.asaasId in {None, Some(""), Some(paymentId)}
    && c.charge.valor == Some(c.cobranca.valor) && c.cobranca.valor > 0
    && c.charge.dueDate == Some(c.cobranca.vencimento)
    && c.operation.status == "COMMITTED" && c.operation.matriculaId == Some(c.enrollment.id) && c.enrollment.id != ""
    && c.cobranca.matriculaId == c.enrollment.id == c.subscription.matriculaId
    && IsGiven(c.operation.asaasSubscriptionId) && c.subscription.asaasSubscriptionId == c.operation.asaasSubscriptionId
    && c.subscription.status == "ACTIVE"
    && c.subscription.externalReference == PREFIX + c.operation.id + ":subscription"
  }

  /** Primary keys, and the unique payment and subscription columns. */
  ghost predicate HasUniqueKeys(t: Tables) {
    && (forall a, b :: a in t.charges && b in t.charges && IsSameCharge(a, b) ==> a == b)
    && (forall a, b :: a in t.cobrancas && b in t.cobrancas && a.id == b.id ==> a == b)
    && (forall a, b :: a in t.operations && b in t.operations && a.id == b.id ==> a == b)
    && (forall a, b :: a in t.subscriptions && b in t.subscriptions && IsSameSubscription(a, b) ==> a == b)
    && (forall a, b :: a in t.matriculas && b in t.matriculas && a.id == b.id ==> a == b)
  }

  predicate IsSameCharge(a: Charge, b: Charge) {
    a.asaasPaymentId.Some? && a.asaasPaymentId == b.asaasPaymentId
  }

  predicate IsSameSubscription(a: Subscription, b: Subscription) {
    a.asaasSubscriptionId.Some? && a.asaasSubscriptionId == b.asaasSubscriptionId
  }

  ghost predicate HasChain(t: Tables, contaId: string, paymentId: string, metadata: Json, p: Proof) {
    exists c :: IsStored(t, contaId, c) && IsCanonical(c, paymentId, TextField(metadata, "resolvedLocalEntityId"))
                && Describes(p, c)
  }

  /** The proof names each row of the chain, and holds what is compared and audited of it. */
  predicate Describes(p: Proof, c: Chain) {
    && p.chargeId == c.charge.id && p.cobrancaId == c.cobranca.id && p.operationId == c.operation.id
    && p.enrollmentId == c.enrollment.id && p.subscriptionId == c.subscription.id
    && c.operation.asaasSubscriptionId == Some(p.asaasSubscriptionId)
    && p.chargeStatus == c.charge.status && p.cobrancaStatus == c.cobranca.status
    && p.externalReference == c.charge.externalReference && p.parentReference == c.subscription.externalReference
    && p.valor == c.cobranca.valor && p.dueDate == c.cobranca.vencimento
  }

  lemma DescribedExactly(p: Proof, c: Chain)
    requires c.operation.asaasSubscriptionId.Some?
    ensures Describes(p, c) <==> ProofOf(c) == p
  {
  }

  /** A proof that loads is the proof of a canonical chain of stored rows. */
  lemma LoadedProofIsCanonical(t: Tables, contaId: string, paymentId: string, metadata: Json)
    ensures var p := LoadProof(t, contaId, paymentId, metadata);
            p.Some? ==> HasChain(t, contaId, paymentId, metadata, p.value)
  {
    hide UntilColon, CycleOperation;
    if LoadProof(t, contaId, paymentId, metadata).Some? {
      var charge := First(t.charges, (r: Charge) => r.contaId == contaId && r.asaasPaymentId == Some(paymentId)).value;
      var operationId := CycleOperation(charge.externalReference, paymentId).value;
      CycleReferenceIsExact(charge.externalReference, paymentId, operationId);
      var cobranca := First(t.cobrancas, (r: Cobranca) =>
                        Some(r.id) == charge.cobrancaId && r.contaId == contaId).value;
      var operation := First(t.operations, (r: Operation) => r.id == operationId && r.contaId == contaId).value;
      var subscription := First(t.subscriptions, (r: Subscription) =>
                            r.contaId == contaId && r.asaasSubscriptionId == operation.asaasSubscriptionId).value;
      var enrollment := First(t.matriculas, (r: Holder) =>
                          Some(r.id) == operation.matriculaId && r.contaId == contaId).value;
      var c := Chain(charge, cobranca, operation, subscription, enrollment);
      assert IsStored(t, contaId, c);
      assert IsCanonical(c, paymentId, TextField(metadata, "resolvedLocalEntityId"));
    }
  }

  lemma ChainLoads(t: Tables, contaId: string, paymentId: string, metadata: Json, c: Chain)
    requires HasUniqueKeys(t)
    requires IsStored(t, contaId, c) && IsCanonical(c, paymentId, TextField(metadata, "resolvedLocalEntityId"))
    ensures LoadProof(t, contaId, paymentId, metadata) == Some(ProofOf(c))
  {
    hide UntilColon, CycleOperation, First, TextField;
    CycleReferenceIsExact(c.charge.externalReference, paymentId, c.operation.id);
    assert First(t.charges, (r: Charge) =>
                   r.contaId == contaId && r.asaasPaymentId == Some(paymentId)) == Some(c.charge);
    assert First(t.cobrancas, (r: Cobranca) =>
                   Some(r.id) == c.charge.cobrancaId && r.contaId == contaId) == Some(c.cobranca);
    assert First(t.operations, (r: Operation) => r.id == c.operation.id && r.contaId == contaId) == Some(c.operation);
    assert First(t.subscriptions, (r: Subscription) =>
                   r.contaId == contaId
                   && r.asaasSubscriptionId == c.operation.asaasSubscriptionId) == Some(c.subscription);
    assert First(t.matriculas, (r: Holder) =>
                   Some(r.id) == c.operation.matriculaId && r.contaId == contaId) == Some(c.enrollment);
  }

  /** Where the keys are unique, a proof loads exactly when the canonical chain is stored. */
  lemma ProofLoadsExactly(t: Tables, contaId: string, paymentId: string, metadata: Json, p: Proof)
    requires HasUniqueKeys(t)
    ensures LoadProof(t, contaId, paymentId, metadata) == Some(p) <==> HasChain(t, contaId, paymentId, metadata, p)
  {
    hide LoadProof, HasUniqueKeys;
    LoadedProofIsCanonical(t, contaId, paymentId, metadata);
    if HasChain(t, contaId, paymentId, metadata, p) {
      var c :| IsStored(t, contaId, c) && IsCanonical(c, paymentId, TextField(metadata, "resolvedLocalEntityId"))
               && Describes(p, c);
      DescribedExactly(p, c);
      ChainLoads(t, contaId, paymentId, metadata, c);
    }
  }

  // ---------------------------------------------------------------- reviews

  function IssueAt(issues: map<string, Issue>, id: string, contaId: string): Option<Issue> {
    if id in issues && issues[id].contaId == contaId then Some(issues[id]) else None
  }

  /** The first entry of the manifest for an issue. */
  function Listed(m: Manifest, id: string): Option<ManifestIssue> {
    First(m.openIssues, (i: ManifestIssue) => i.id == id)
  }

  predicate IsListed(m: Manifest, id: string, issueType: string, asaasId: Option<string>, lastSeenAt: int) {
    var entry := Listed(m, id);
    entry.Some? && entry.value.issueType == issueType && entry.value.asaasId == asaasId
    && entry.value.lastSeenAt == lastSeenAt
  }

  const MISSING := "PAYMENT_MISSING_LOCAL_ENTITY"
  const LAG := "WEBHOOK_LAG"
  const UNCERTAIN := "BILLING_OPERATION_UNCERTAIN"
  const CLOSED_ENROLLMENT := "histórico de matrícula encerrada"

  /** `links` are the local tables and `issue` the issue, as they were when each was read. */
  function HistoricalReview(
    m: Manifest, item: HistoricalItem, payment: Payment, subscription: RemoteSubscription,
    links: Tables, issue: Option<Issue>, apply: bool): Result<Review, RecoveryError>
  {
    if || payment.id != item.paymentId || payment.subscription != Some(item.subscriptionId)
       || payment.status != item.expectedStatus || payment.valor != item.expectedValue
       || payment.dueDate != item.expectedDueDate || payment.paymentDate != Some(item.expectedPaymentDate)
       || payment.deleted
       || payment.externalReference != Some(item.externalReference) || !subscription.deleted
       || subscription.status != "INACTIVE"
    then Thrown(RemoteMismatch)
    else if HasPaymentLink(links, m.contaId, item.paymentId, None) then Thrown(LocalLink)
    else if HasSubscriptionLink(links, m.contaId, item.subscriptionId, None) then Thrown(LocalLink)
    else if || issue.None? || issue.value.issueType != MISSING || issue.value.asaasId != Some(item.paymentId)
            || issue.value.status != Open
    then
      Ok(Stop(
        if issue.Some? && issue.value.status == Resolved && issue.value.resolution.Some?
           && Includes(issue.value.resolution.value, CLOSED_ENROLLMENT)
        then AlreadyResolved else SkippedStale))
    else if !IsListed(m, item.issueId, MISSING, Some(item.paymentId), item.expectedIssueLastSeenAt)
    then Thrown(IssueUnlisted)
    else
      var cause := TextField(issue.value.metadata, "lastCauseId");
      if || TextField(issue.value.metadata, "reason") != Some(item.expectedIssueReason)
         || cause != Some(item.expectedCauseId) || issue.value.lastSeenAt != item.expectedIssueLastSeenAt
      then Thrown(IssueChanged)
      else if !apply then Ok(Stop(Ready))
      else
        Ok(Go(Historical(issue.value, item.paymentId, item.subscriptionId, cause.value,
                         item.expectedIssueReason, item.reason)))
  }

  function AbsentLagReview(
    m: Manifest, entry: ManifestIssue, payment: Payment, subscription: RemoteSubscription,
    links: Tables, issue: Option<Issue>, apply: bool): Result<Review, RecoveryError>
  {
    if || issue.None? || issue.value.issueType != LAG || issue.value.entityType != entry.entityType
       || issue.value.entityId != entry.entityId || issue.value.asaasId != entry.asaasId
       || !IsGiven(issue.value.asaasId)
    then Thrown(IssueMismatch)
    else
      var seen := issue.value;
      var asaasId := seen.asaasId.value;
      if seen.status == Resolved then Ok(Stop(AlreadyResolved))
      else if seen.status != Open then Ok(Stop(SkippedStale))
      else if !IsListed(m, entry.id, LAG, seen.asaasId, seen.lastSeenAt) then Ok(Stop(SkippedStale))
      else if seen.entityType == "CHARGE" then
        if payment.id != asaasId then Thrown(RemoteMismatch)
        else if HasChargeOwner(links, m.contaId, asaasId, seen.entityId) then Ok(Stop(SkippedStale))
        else if !payment.deleted && payment.status != "DELETED" then Thrown(NotTerminal)
        else Ok(if apply then Go(AbsentLag(seen, asaasId, true)) else Stop(Ready))
      else if seen.entityType == "SUBSCRIPTION" then
        if subscription.id != asaasId then Thrown(RemoteMismatch)
        else if HasSubscriptionLink(links, m.contaId, asaasId, seen.entityId) then Ok(Stop(SkippedStale))
        else if !subscription.deleted || subscription.status != "INACTIVE" then Thrown(NotTerminal)
        else Ok(if apply then Go(AbsentLag(seen, asaasId, false)) else Stop(Ready))
      else Ok(Stop(SkippedStale))
  }

  /** The review of a recurring cycle, from the tables of its first proof. */
  function CycleReview(
    seen: Issue, asaasId: string, payment: Payment, subscription: RemoteSubscription,
    first: Tables, apply: bool): Result<Review, RecoveryError>
  {
    var proof := LoadProof(first, seen.contaId, asaasId, seen.metadata);
    if proof.None? then Thrown(NoCanonicalLink)
    else
      var p := proof.value;
      if || payment.id != asaasId || payment.subscription != Some(p.asaasSubscriptionId)
         || payment.externalReference != Some(p.parentReference) || payment.status != "PENDING" || payment.deleted
         || payment.valor != p.valor || payment.dueDate != p.dueDate || subscription.id != p.asaasSubscriptionId
         || subscription.externalReference != Some(p.parentReference) || subscription.status != "ACTIVE"
         || subscription.deleted
      then Thrown(RemoteMismatch)
      else Ok(if apply then Go(Cycle(seen, asaasId, p)) else Stop(Ready))
  }

  /**
   `links` are the local tables as the payment's charge and operation were read, `first` those of a cycle's first
   proof.
   */
  function LinkedReview(
    m: Manifest, entry: ManifestIssue, payment: Payment, subscription: RemoteSubscription,
    links: Tables, first: Tables, issue: Option<Issue>, apply: bool): Result<Review, RecoveryError>
  {
    if || issue.None? || issue.value.issueType != MISSING || issue.value.entityType != entry.entityType
       || issue.value.entityId != entry.entityId || issue.value.asaasId != entry.asaasId
       || !IsGiven(issue.value.asaasId)
    then Thrown(IssueMismatch)
    else
      var seen := issue.value;
      var asaasId := seen.asaasId.value;
      if seen.status == Resolved then Ok(Stop(AlreadyResolved))
      else if seen.status != Open then Ok(Stop(SkippedStale))
      else if !IsListed(m, entry.id, MISSING, seen.asaasId, seen.lastSeenAt) then Ok(Stop(SkippedStale))
      else if !HasPriorRepairMarker(seen.metadata) || TextField(seen.metadata, "resolvedLocalEntityId").None?
      then Thrown(NoRepairDecision)
      else
        var charge := First(links.charges, (r: Charge) => r.contaId == m.contaId && r.asaasPaymentId == Some(asaasId));
        var cobranca := First(links.cobrancas, (r: Cobranca) => IsCobrancaOf(r, m.contaId, asaasId));
        if charge.Some? && Includes(charge.value.externalReference, CYCLE)
        then CycleReview(seen, asaasId, payment, subscription, first, apply)
        else if charge.None? || cobranca.None? then Thrown(NoCanonicalLink)
        else
          var charge, cobranca := charge.value, cobranca.value;
          var reference := EnrollmentOperation(charge.externalReference);
          if || charge.cobrancaId != Some(cobranca.id)
             || TextField(seen.metadata, "resolvedLocalEntityId") != Some(cobranca.id) || reference.None?
             || charge.status != "OPEN" || cobranca.status != "PENDENTE"
          then Thrown(NoCanonicalLink)
          else if forall o :: o in links.operations ==> !IsOperationOf(o, m.contaId, reference.value, asaasId)
          then Thrown(NoCanonicalLink)
          else if || payment.id != asaasId || payment.externalReference != Some(charge.externalReference)
                  || payment.status != "PENDING" || payment.deleted
          then Thrown(RemoteMismatch)
          else if !apply then Ok(Stop(Ready))
          else
            var cause := TextField(seen.metadata, "lastCauseId");
            if !IsGiven(cause) then Thrown(NoCause) else Ok(Go(Linked(seen, asaasId, charge, cobranca, cause.value)))
  }

  predicate IsCobrancaOf(c: Cobranca, contaId: string, asaasId: string) {
    c.contaId == contaId && (c.asaasPaymentId == Some(asaasId) || c.asaasId == Some(asaasId))
  }

  predicate IsOperationOf(o: Operation, contaId: string, e: Enrollment, asaasId: string) {
    && o.id == e.operationId && o.contaId == contaId
    && (if e.isFee then o.asaasEnrollmentFeePaymentId else o.asaasFirstPaymentId) == Some(asaasId)
  }

  predicate IsClosed(o: Order, paymentId: string, isLegacy: bool) {
    && o.status in ["CANCELLED", "EXPIRED"] && o.asaasPaymentId == Some(paymentId) && o.paymentProvider == Some("ASAAS")
    && (isLegacy ==> o.status == "CANCELLED" && o.paymentStatus == Some("DELETED"))
  }

  function OrderAt(t: Tables, contaId: string, id: string): Option<Order> {
    First(t.orders, (r: Order) => r.id == id && r.contaId == contaId)
  }

  /** `listing` is the provider's complete listing of the payments with the order's reference. */
  function CancellationReview(
    m: Manifest, entry: ManifestIssue, payment: Payment, listing: seq<Payment>,
    links: Tables, issue: Option<Issue>, apply: bool): Result<Review, RecoveryError>
  {
    if || issue.None? || issue.value.issueType != UNCERTAIN || issue.value.entityType != "PAYMENT"
       || issue.value.asaasId != entry.asaasId || !IsGiven(issue.value.entityId)
       || issue.value.entityId != entry.entityId
    then Thrown(IssueMismatch)
    else
      var seen := issue.value;
      var data := seen.metadata;
      var orderId := seen.entityId.value;
      if seen.status == Resolved then Ok(Stop(AlreadyResolved))
      else if seen.status != Open then Ok(Stop(SkippedStale))
      else
        var isLegacy := && seen.asaasId.None? && TextField(data, "lookupError") == Some("MULTIPLE_BUYER_CUSTOMERS")
                        && seen.remoteStatus == Some("BUYER_CUSTOMER_NOT_CONFIRMED");
        var hasNoReason := FieldOf(data, "reason").None? && isLegacy && FieldOf(data, "lastCauseId").None?;
        var paymentId := if seen.asaasId.Some? then seen.asaasId
                         else if isLegacy then TextField(data, "paymentId")
                         else None;
        var reference := "event-map-order:" + orderId;
        if TextField(data, "reason") != Some("BUYER_CUSTOMER_NOT_CONFIRMED") && !hasNoReason then Thrown(IssueChanged)
        else if || !IsGiven(paymentId) || TextField(data, "orderId") != Some(orderId)
                || TextField(data, "paymentId") != paymentId || TextField(data, "externalReference") != Some(reference)
        then Thrown(NotExactIdentity)
        else if entry.lastSeenAt != seen.lastSeenAt then Ok(Stop(SkippedStale))
        else
          var order := OrderAt(links, m.contaId, orderId);
          if order.None? || !IsClosed(order.value, paymentId.value, isLegacy) then Thrown(OrderNotClosed)
          else if || payment.id != paymentId.value || payment.externalReference != Some(reference)
                  || (!payment.deleted && payment.status != "DELETED")
          then Thrown(RemoteMismatch)
          else if |listing| > 1 || exists c :: c in listing && !IsSameDeleted(c, payment) then Thrown(Alternatives)
          else if !apply then Ok(Stop(Ready))
          else if !IsGiven(TextField(data, "lastCauseId")) && !isLegacy then Thrown(NoCause)
          else Ok(Go(Cancellation(seen, orderId, paymentId.value, isLegacy)))
  }

  predicate IsSameDeleted(c: Payment, payment: Payment) {
    && c.id == payment.id && c.externalReference == payment.externalReference && c.deleted == payment.deleted
    && c.status == payment.status && (c.deleted || c.status == "DELETED")
  }

  // ---------------------------------------------------------------- the transactions

  /** The check of the local state inside the transaction. */
  predicate StillHolds(p: Plan, t: Tables) {
    match p
    case Historical(seen, paymentId, subscriptionId, _, _, _) =>
      !HasPaymentLink(t, seen.contaId, paymentId, None) && !HasSubscriptionLink(t, seen.contaId, subscriptionId, None)
    case AbsentLag(seen, asaasId, isPayment) =>
      if isPayment then !HasPaymentLink(t, seen.contaId, asaasId, seen.entityId)
      else !HasSubscriptionLink(t, seen.contaId, asaasId, seen.entityId)
    case Cycle(seen, paymentId, proof) =>
      LoadProof(t, seen.contaId, paymentId, seen.metadata) == Some(proof)
    case Linked(seen, asaasId, charge, cobranca, _) =>
      var nowCharge := First(t.charges, (r: Charge) =>
                         r.id == charge.id && r.contaId == seen.contaId && r.asaasPaymentId == Some(asaasId));
      var nowCobranca := First(t.cobrancas, (r: Cobranca) =>
                           r.id == cobranca.id && IsCobrancaOf(r, seen.contaId, asaasId));
      && nowCharge.Some? && nowCobranca.Some? && nowCharge.value.cobrancaId == Some(nowCobranca.value.id)
      && nowCharge.value.externalReference == charge.externalReference
      && nowCharge.value.status == "OPEN" && nowCobranca.value.status == "PENDENTE"
    case Cancellation(seen, orderId, paymentId, isLegacy) =>
      var order := OrderAt(t, seen.contaId, orderId);
      order.Some? && IsClosed(order.value, paymentId, isLegacy)
  }

  /** The condition of the update of the issue. */
  predicate IsVersion(p: Plan, found: Issue) {
    var seen := p.seen;
    && found.contaId == seen.contaId && found.status == Open && found.lastSeenAt == seen.lastSeenAt
    && match p
       case Historical(_, paymentId, _, causeId, expectedReason, _) =>
         && found.issueType == MISSING && found.asaasId == Some(paymentId)
         && TextField(found.metadata, "lastCauseId") == Some(causeId)
         && TextField(found.metadata, "reason") == Some(expectedReason)
       case AbsentLag(_, asaasId, _) =>
         && found.issueType == LAG && found.entityType == seen.entityType && found.entityId == seen.entityId
         && found.asaasId == Some(asaasId)
       case Cycle(_, paymentId, _) =>
         && found.issueType == seen.issueType && found.entityType == seen.entityType && found.entityId == seen.entityId
         && found.asaasId == Some(paymentId) && found.remoteStatus == seen.remoteStatus
         && found.metadata == seen.metadata
       case Linked(_, asaasId, _, cobranca, causeId) =>
         && found.issueType == MISSING && found.asaasId == Some(asaasId) && found.metadata == seen.metadata
         && TextField(found.metadata, "lastCauseId") == Some(causeId)
         && TextField(found.metadata, "resolvedLocalEntityId") == Some(cobranca.id)
       case Cancellation(_, orderId, _, _) =>
         && found.issueType == UNCERTAIN && found.entityType == "PAYMENT" && found.entityId == Some(orderId)
         && found.asaasId == seen.asaasId && found.remoteStatus == seen.remoteStatus && found.metadata == seen.metadata
  }

  function ResolutionText(p: Plan): string {
    match p
    case Historical(_, _, _, _, _, reason) =>
      var text := "Operador confirmou " + CLOSED_ENROLLMENT + ": " + Trim(reason);
      if |text| > 1000 then text[..1000] else text
    case AbsentLag(_, _, _) =>
      "Recurso Asaas terminal confirmado e ausência da entidade local validada; sem reconstrução financeira."
    case Cycle(_, _, _) =>
      "Ciclo recorrente existente confirmado pela cadeia canônica de matrícula e assinatura; sem reconstrução financeira."
    case Linked(_, _, _, _, _) =>
      "Entidade Charge/Cobranca existente confirmada pela referência canônica da operação de matrícula."
    case Cancellation(_, _, _, _) =>
      "Pedido de evento cancelado e pagamento Asaas excluído confirmado por identidade exata."
  }

  function ResolutionCode(p: Plan): string {
    match p
    case Historical(_, _, _, _, _, _) => "HISTORICAL_CANCELED_ENROLLMENT_NO_LOCAL_RECONSTRUCTION"
    case AbsentLag(_, _, _) => "ABSENT_LOCAL_ENTITY_AND_REMOTE_TERMINAL_VERIFIED"
    case Cycle(_, _, _) => "EXISTING_CANONICAL_SUBSCRIPTION_CYCLE_CONFIRMED"
    case Linked(_, _, _, _, _) => "EXISTING_CANONICAL_FINANCIAL_ENTITIES_CONFIRMED"
    case Cancellation(_, _, _, _) => "EXACT_CANCELED_EVENT_ORDER_AND_DELETED_PAYMENT"
  }

  predicate Commits(db: Db, p: Plan) {
    StillHolds(p, db.tables) && p.seen.id in db.issues && IsVersion(p, db.issues[p.seen.id])
  }

  /** The data of the update of the issue. */
  function Closed(found: Issue, p: Plan, now: int): Issue {
    found.(status := Resolved, resolvedAt := Some(now), resolution := Some(ResolutionText(p)))
  }

  /** The one step from open to resolved, with its one audit row. */
  function Committed(db: Db, p: Plan, context: AuditContext, now: int): Db
    requires p.seen.id in db.issues
  {
    var id := p.seen.id;
    db.(issues := db.issues[id := Closed(db.issues[id], p, now)],
        audit := db.audit + [AuditRow(p.seen.contaId, id, ResolutionCode(p), context, p)])
  }

  function Recovered(db: Db, p: Plan, context: AuditContext, now: int): Db {
    if Commits(db, p) then Committed(db, p, context, now) else db
  }

  /** What one resolver may do, given its review: nothing, unless the review leads to a plan that commits. */
  predicate IsRecovery(
    before: Db, after: Db, r: Result<Outcome, RecoveryError>, review: Result<Review, RecoveryError>,
    context: AuditContext, now: int)
  {
    match review
    case Thrown(e) => r == Thrown(e) && after == before
    case Ok(Stop(outcome)) => r == Ok(outcome) && after == before
    case Ok(Go(p)) =>
      if Commits(before, p) then r == Ok(ResolvedNow) && after == Committed(before, p, context, now)
      else r == Ok(SkippedStale) && after == before
  }

  /**
   The database as a resolver's serializable transaction finds it; what its review read before is a parameter. The issue
   row is still current when the transaction commits. The local tables are those of its snapshot: writers at a lower
   isolation level may have committed since.
   */
  class FinanceDatabase {
    var issues: map<string, Issue>
    var audit: seq<AuditRow>
    var tables: Tables

    function Now(): Db
      reads this
    {
      Db(issues, audit, tables)
    }

    /** The conditional update of the issue and, when it changed a row, the audit row. */
    method ResolveIfUnchanged(p: Plan, context: AuditContext, now: int) returns (outcome: Outcome)
      modifies this`issues, this`audit
      ensures var changes := p.seen.id in old(issues) && IsVersion(p, old(issues)[p.seen.id]);
              && outcome == (if changes then ResolvedNow else SkippedStale)
              && Now() == if changes then Committed(old(Now()), p, context, now) else old(Now())
      ensures outcome == ResolvedNow ==>
              && p.seen.id in old(issues)
              && issues == old(issues)[p.seen.id := old(issues)[p.seen.id].(
                             status := Resolved, resolvedAt := Some(now), resolution := Some(ResolutionText(p)))]
              && audit == old(audit) + [AuditRow(p.seen.contaId, p.seen.id, ResolutionCode(p), context, p)]
    {
      hide IsVersion, ResolutionText, ResolutionCode;
      var id := p.seen.id;
      if id !in issues || !IsVersion(p, issues[id]) {
        return SkippedStale;
      }
      issues := issues[id := Closed(issues[id], p, now)];
      audit := audit + [AuditRow(p.seen.contaId, id, ResolutionCode(p), context, p)];
      return ResolvedNow;
    }

    method ResolveHistoricalPayment(
      m: Manifest, item: HistoricalItem, payment: Payment, subscription: RemoteSubscription,
      links: Tables, issue: Option<Issue>, apply: bool, context: AuditContext, now: int)
      returns (r: Result<Outcome, RecoveryError>)
      requires issue.Some? ==> issue.value.contaId == m.contaId
      modifies this`issues, this`audit
      ensures IsRecovery(old(Now()), Now(), r, HistoricalReview(m, item, payment, subscription, links, issue, apply),
                         context, now)
      ensures !apply ==> Now() == old(Now()) && r != Ok(ResolvedNow)
    {
      hide IsVersion, ResolutionText, ResolutionCode, HasPaymentLink, HasSubscriptionLink;
      var review := HistoricalReview(m, item, payment, subscription, links, issue, apply);
      match review
      case Thrown(e) => return Thrown(e);
      case Ok(Stop(outcome)) => return Ok(outcome);
      case Ok(Go(p)) =>
        if HasPaymentLink(tables, m.contaId, item.paymentId, None)
           || HasSubscriptionLink(tables, m.contaId, item.subscriptionId, None) {
          return Ok(SkippedStale);
        }
        var outcome := ResolveIfUnchanged(p, context, now);
        return Ok(outcome);
    }

    method ResolveAbsentTerminalLagIssue(
      m: Manifest, entry: ManifestIssue, payment: Payment, subscription: RemoteSubscription,
      links: Tables, issue: Option<Issue>, apply: bool, context: AuditContext, now: int)
      returns (r: Result<Outcome, RecoveryError>)
      requires issue.Some? ==> issue.value.contaId == m.contaId
      modifies this`issues, this`audit
      ensures IsRecovery(old(Now()), Now(), r, AbsentLagReview(m, entry, payment, subscription, links, issue, apply),
                         context, now)
      ensures !apply ==> Now() == old(Now()) && r != Ok(ResolvedNow)
    {
      hide IsVersion, ResolutionText, ResolutionCode, HasPaymentLink, HasSubscriptionLink, HasChargeOwner;
      var review := AbsentLagReview(m, entry, payment, subscription, links, issue, apply);
      match review
      case Thrown(e) => return Thrown(e);
      case Ok(Stop(outcome)) => return Ok(outcome);
      case Ok(Go(p)) =>
        var ownerExists := if p.isPayment then HasPaymentLink(tables, m.contaId, p.asaasId, p.seen.entityId)
                           else HasSubscriptionLink(tables, m.contaId, p.asaasId, p.seen.entityId);
        if ownerExists {
          return Ok(SkippedStale);
        }
        var outcome := ResolveIfUnchanged(p, context, now);
        return Ok(outcome);
    }

    method ResolveCanonicalCyclePaymentIssue(
      seen: Issue, asaasId: string, payment: Payment, subscription: RemoteSubscription,
      first: Tables, apply: bool, context: AuditContext, now: int)
      returns (r: Result<Outcome, RecoveryError>)
      modifies this`issues, this`audit
      ensures IsRecovery(old(Now()), Now(), r, CycleReview(seen, asaasId, payment, subscription, first, apply),
                         context, now)
      ensures !apply ==> Now() == old(Now()) && r != Ok(ResolvedNow)
    {
      hide IsVersion, ResolutionText, ResolutionCode, LoadProof;
      var review := CycleReview(seen, asaasId, payment, subscription, first, apply);
      match review
      case Thrown(e) => return Thrown(e);
      case Ok(Stop(outcome)) => return Ok(outcome);
      case Ok(Go(p)) =>
        if LoadProof(tables, seen.contaId, asaasId, seen.metadata) != Some(p.proof) {
          return Ok(SkippedStale);
        }
        var outcome := ResolveIfUnchanged(p, context, now);
        return Ok(outcome);
    }

    method ResolveAlreadyLinkedPaymentIssue(
      m: Manifest, entry: ManifestIssue, payment: Payment, subscription: RemoteSubscription,
      links: Tables, first: Tables, issue: Option<Issue>, apply: bool, context: AuditContext, now: int)
      returns (r: Result<Outcome, RecoveryError>)
      requires issue.Some? ==> issue.value.contaId == m.contaId
      modifies this`issues, this`audit
      ensures IsRecovery(old(Now()), Now(), r,
                         LinkedReview(m, entry, payment, subscription, links, first, issue, apply), context, now)
      ensures !apply ==> Now() == old(Now()) && r != Ok(ResolvedNow)
    {
      hide IsVersion, ResolutionText, ResolutionCode, CycleReview, LinkedReview;
      var review := LinkedReview(m, entry, payment, subscription, links, first, issue, apply);
      LinkedPlans(m, entry, payment, subscription, links, first, issue, apply);
      match review
      case Thrown(e) => return Thrown(e);
      case Ok(Stop(outcome)) => return Ok(outcome);
      case Ok(Go(p)) =>
        if p.Cycle? {
          r := ResolveCanonicalCyclePaymentIssue(issue.value, issue.value.asaasId.value, payment, subscription,
                                                 first, apply, context, now);
          return;
        }
        var charge := First(tables.charges, (r: Charge) =>
                        r.id == p.charge.id && r.contaId == p.seen.contaId && r.asaasPaymentId == Some(p.asaasId));
        var cobranca := First(tables.cobrancas, (r: Cobranca) =>
                          r.id == p.cobranca.id && IsCobrancaOf(r, p.seen.contaId, p.asaasId));
        if || charge.None? || cobranca.None? || charge.value.cobrancaId != Some(cobranca.value.id)
           || charge.value.externalReference != p.charge.externalReference
           || charge.value.status != "OPEN" || cobranca.value.status != "PENDENTE" {
          return Ok(SkippedStale);
        }
        var outcome := ResolveIfUnchanged(p, context, now);
        return Ok(outcome);
    }

    method ResolveVerifiedEventCancellation(
      m: Manifest, entry: ManifestIssue, payment: Payment, listing: seq<Payment>,
      links: Tables, issue: Option<Issue>, apply: bool, context: AuditContext, now: int)
      returns (r: Result<Outcome, RecoveryError>)
      requires issue.Some? ==> issue.value.contaId == m.contaId
      modifies this`issues, this`audit
      ensures IsRecovery(old(Now()), Now(), r, CancellationReview(m, entry, payment, listing, links, issue, apply),
                         context, now)
      ensures !apply ==> Now() == old(Now()) && r != Ok(ResolvedNow)
    {
      hide IsVersion, ResolutionText, ResolutionCode, CancellationReview;
      CancellationPlan(m, entry, payment, listing, links, issue, apply);
      var review := CancellationReview(m, entry, payment, listing, links, issue, apply);
      match review
      case Thrown(e) => return Thrown(e);
      case Ok(Stop(outcome)) => return Ok(outcome);
      case Ok(Go(p)) =>
        var order := OrderAt(tables, m.contaId, p.orderId);
        if order.None? || !IsClosed(order.value, p.paymentId, p.isLegacy) {
          return Ok(SkippedStale);
        }
        var outcome := ResolveIfUnchanged(p, context, now);
        return Ok(outcome);
    }
  }

  /** The plans of an already linked payment: its cycle's, or one about its charge and cobranca. */
  lemma LinkedPlans(
    m: Manifest, entry: ManifestIssue, payment: Payment, subscription: RemoteSubscription,
    links: Tables, first: Tables, issue: Option<Issue>, apply: bool)
    ensures var review := LinkedReview(m, entry, payment, subscription, links, first, issue, apply);
            review.Ok? && review.value.Go? ==>
              && issue.Some? && issue.value.asaasId.Some? && review.value.plan.seen == issue.value
              && (review.value.plan.Cycle? || review.value.plan.Linked?)
              && (review.value.plan.Cycle? ==>
                    review == CycleReview(issue.value, issue.value.asaasId.value, payment, subscription, first, apply))
    ensures var review := LinkedReview(m, entry, payment, subscription, links, first, issue, apply);
            !apply && review.Ok? ==> review.value.Stop? && review.value.outcome != ResolvedNow
  {
    hide EnrollmentOperation, Includes, LoadProof;
  }

  // ---------------------------------------------------------------- what a resolution shows

  /**
   What a resolved cycle shows: in the transaction's snapshot the chain is stored and agrees with the provider's
   answers.
   */
  lemma CycleAgreesInTransaction(
    seen: Issue, asaasId: string, payment: Payment, subscription: RemoteSubscription, first: Tables, db: Db)
    requires var review := CycleReview(seen, asaasId, payment, subscription, first, true);
             review.Ok? && review.value.Go? && Commits(db, review.value.plan)
    ensures exists c :: IsAgreedChain(db.tables, seen, c, payment, subscription)
  {
    hide LoadProof, IsVersion;
    var p := CycleReview(seen, asaasId, payment, subscription, first, true).value.plan;
    LoadedProofIsCanonical(db.tables, seen.contaId, asaasId, seen.metadata);
    assert HasChain(db.tables, seen.contaId, asaasId, seen.metadata, p.proof);
    var c :| IsStored(db.tables, seen.contaId, c)
             && IsCanonical(c, asaasId, TextField(seen.metadata, "resolvedLocalEntityId"))
             && Describes(p.proof, c);
    assert IsAgreedChain(db.tables, seen, c, payment, subscription);
  }

  ghost predicate IsAgreedChain(t: Tables, seen: Issue, c: Chain, payment: Payment, subscription: RemoteSubscription) {
    && IsStored(t, seen.contaId, c)
    && IsCanonical(c, payment.id, TextField(seen.metadata, "resolvedLocalEntityId"))
    && !payment.deleted && payment.status == "PENDING" && payment.valor == c.cobranca.valor
    && payment.dueDate == c.cobranca.vencimento && payment.subscription == c.subscription.asaasSubscriptionId
    && Some(subscription.id) == c.subscription.asaasSubscriptionId && subscription.status == "ACTIVE"
    && !subscription.deleted
    && payment.externalReference == subscription.externalReference == Some(c.subscription.externalReference)
  }

  /** The issue that was read is the one asked for. */
  predicate IsRead(issue: Option<Issue>, id: string, contaId: string) {
    issue.Some? ==> issue.value.id == id && issue.value.contaId == contaId
  }

  /** A review that was followed by a resolution: the plan it made commits. */
  predicate WasResolved(review: Result<Review, RecoveryError>, db: Db) {
    review.Ok? && review.value.Go? && Commits(db, review.value.plan)
  }

  /**
   What a resolved historical payment shows: the remote rows and the issue as approved, and no local row in the
   snapshot.
   */
  lemma HistoricalEvidence(
    m: Manifest, item: HistoricalItem, payment: Payment, subscription: RemoteSubscription,
    links: Tables, issue: Option<Issue>, db: Db)
    requires IsRead(issue, item.issueId, m.contaId)
    requires WasResolved(HistoricalReview(m, item, payment, subscription, links, issue, true), db)
    ensures payment == Payment(item.paymentId, Some(item.subscriptionId), item.expectedStatus, item.expectedValue,
                               item.expectedDueDate, Some(item.expectedPaymentDate), false,
                               Some(item.externalReference))
    ensures subscription.deleted && subscription.status == "INACTIVE"
    ensures item.issueId in db.issues
    ensures var found := db.issues[item.issueId];
            && found.contaId == m.contaId && found.status == Open && found.issueType == MISSING
            && found.asaasId == Some(item.paymentId) && found.lastSeenAt == item.expectedIssueLastSeenAt
            && TextField(found.metadata, "lastCauseId") == Some(item.expectedCauseId)
            && IsListed(m, item.issueId, MISSING, found.asaasId, found.lastSeenAt)
    ensures IsClearOfPayment(db.tables, m.contaId, item.paymentId, None)
    ensures IsClearOfSubscription(db.tables, m.contaId, item.subscriptionId, None)
  {
    hide HasPaymentLink, HasSubscriptionLink, IsClearOfPayment, IsClearOfSubscription, Includes, IsListed, TextField;
    NoPaymentLinkExactly(db.tables, m.contaId, item.paymentId, None);
    NoSubscriptionLinkExactly(db.tables, m.contaId, item.subscriptionId, None);
  }

  /** What a resolved lag shows: the provider's resource has ended, and no local row owned it in the snapshot. */
  lemma AbsentLagEvidence(
    m: Manifest, entry: ManifestIssue, payment: Payment, subscription: RemoteSubscription,
    links: Tables, issue: Option<Issue>, db: Db)
    requires IsRead(issue, entry.id, m.contaId)
    requires WasResolved(AbsentLagReview(m, entry, payment, subscription, links, issue, true), db)
    ensures entry.id in db.issues
    ensures var found := db.issues[entry.id];
            && found.contaId == m.contaId && found.status == Open && found.issueType == LAG
            && found.entityType == entry.entityType && found.entityId == entry.entityId
            && found.asaasId == entry.asaasId
            && IsGiven(entry.asaasId) && IsListed(m, entry.id, LAG, found.asaasId, found.lastSeenAt)
            && (if found.entityType == "CHARGE"
                then && payment.id == found.asaasId.value && (payment.deleted || payment.status == "DELETED")
                     && IsClearOfPayment(db.tables, m.contaId, payment.id, found.entityId)
                else && found.entityType == "SUBSCRIPTION"
                     && subscription.id == found.asaasId.value && subscription.deleted
                     && subscription.status == "INACTIVE"
                     && IsClearOfSubscription(db.tables, m.contaId, subscription.id, found.entityId))
  {
    hide HasPaymentLink, HasSubscriptionLink, HasChargeOwner, IsClearOfPayment, IsClearOfSubscription, IsListed;
    NoPaymentLinkExactly(db.tables, m.contaId, payment.id, entry.entityId);
    NoSubscriptionLinkExactly(db.tables, m.contaId, subscription.id, entry.entityId);
  }

  /**
   What a resolved payment outside a cycle shows: in the snapshot an open charge and its pending cobranca have this
   payment, and the charge's reference is the provider's and names an operation that was read with the payment.
   */
  lemma LinkedEvidence(
    m: Manifest, entry: ManifestIssue, payment: Payment, subscription: RemoteSubscription,
    links: Tables, first: Tables, issue: Option<Issue>, db: Db)
    requires IsRead(issue, entry.id, m.contaId)
    requires WasResolved(LinkedReview(m, entry, payment, subscription, links, first, issue, true), db)
    requires LinkedReview(m, entry, payment, subscription, links, first, issue, true).value.plan.Linked?
    ensures exists charge, cobranca, operation, e ::
              IsLinkedChain(m, db.tables, links, payment, db.issues[entry.id].metadata, charge, cobranca, operation, e)
  {
    hide LinkedReview, TextField, EnrollmentOperation;
    LinkedPlanFacts(m, entry, payment, subscription, links, first, issue);
    var p := LinkedReview(m, entry, payment, subscription, links, first, issue, true).value.plan;
    var charge := First(db.tables.charges, (r: Charge) =>
                    r.id == p.charge.id && r.contaId == p.seen.contaId && r.asaasPaymentId == Some(p.asaasId)).value;
    var cobranca := First(db.tables.cobrancas, (r: Cobranca) =>
                      r.id == p.cobranca.id && IsCobrancaOf(r, p.seen.contaId, p.asaasId)).value;
    var e := EnrollmentOperation(charge.externalReference).value;
    var operation :| operation in links.operations && IsOperationOf(operation, m.contaId, e, p.asaasId);
    EnrollmentReferenceIsExact(charge.externalReference, e);
    assert IsLinkedChain(m, db.tables, links, payment, db.issues[entry.id].metadata, charge, cobranca, operation, e);
  }

  lemma LinkedPlanFacts(
    m: Manifest, entry: ManifestIssue, payment: Payment, subscription: RemoteSubscription,
    links: Tables, first: Tables, issue: Option<Issue>)
    ensures var review := LinkedReview(m, entry, payment, subscription, links, first, issue, true);
            review.Ok? && review.value.Go? && review.value.plan.Linked? ==>
              var p := review.value.plan;
              && issue == Some(p.seen) && p.asaasId == payment.id
              && TextField(p.seen.metadata, "resolvedLocalEntityId") == Some(p.cobranca.id)
              && payment.status == "PENDING" && !payment.deleted
              && payment.externalReference == Some(p.charge.externalReference)
              && EnrollmentOperation(p.charge.externalReference).Some?
              && exists o :: o in links.operations
                             && IsOperationOf(o, m.contaId, EnrollmentOperation(p.charge.externalReference).value,
                                              payment.id)
  {
    hide HasPriorRepairMarker, Includes, LoadProof, IsListed, TextField, EnrollmentOperation;
  }

  ghost predicate IsLinkedChain(
    m: Manifest, t: Tables, links: Tables, payment: Payment, metadata: Json,
    charge: Charge, cobranca: Cobranca, operation: Operation, e: Enrollment)
  {
    && charge in t.charges && cobranca in t.cobrancas && operation in links.operations
    && charge.contaId == m.contaId && charge.asaasPaymentId == Some(payment.id) && charge.status == "OPEN"
    && charge.cobrancaId == Some(cobranca.id) && IsCobrancaOf(cobranca, m.contaId, payment.id)
    && cobranca.status == "PENDENTE"
    && TextField(metadata, "resolvedLocalEntityId") == Some(cobranca.id)
    && payment.status == "PENDING" && !payment.deleted && payment.externalReference == Some(charge.externalReference)
    && charge.externalReference == PREFIX + operation.id + (if e.isFee then ":fee" else ":subscription")
    && IsOperationOf(operation, m.contaId, e, payment.id)
  }

  /**
   What a resolved cancellation shows: the order is closed in the snapshot, and its own payment is the only one and
   deleted.
   */
  lemma CancellationEvidence(
    m: Manifest, entry: ManifestIssue, payment: Payment, listing: seq<Payment>,
    links: Tables, issue: Option<Issue>, db: Db)
    requires IsRead(issue, entry.id, m.contaId)
    requires WasResolved(CancellationReview(m, entry, payment, listing, links, issue, true), db)
    ensures IsGiven(entry.entityId) && entry.id in db.issues
    ensures exists order :: order in db.tables.orders && IsCanceledOrder(m, order, entry, payment)
    ensures payment.externalReference == Some("event-map-order:" + entry.entityId.value)
    ensures |listing| <= 1 && forall c :: c in listing ==> IsSameDeleted(c, payment)
    ensures var found := db.issues[entry.id];
            && found.contaId == m.contaId && found.status == Open && found.issueType == UNCERTAIN
            && found.entityId == entry.entityId && found.asaasId == entry.asaasId
            && found.lastSeenAt == entry.lastSeenAt
            && TextField(found.metadata, "paymentId") == Some(payment.id)
            && TextField(found.metadata, "orderId") == entry.entityId
  {
    hide CancellationReview, IsSameDeleted, TextField, FieldOf;
    CancellationPlan(m, entry, payment, listing, links, issue, true);
    CancellationFacts(m, entry, payment, listing, links, issue);
    var p := CancellationReview(m, entry, payment, listing, links, issue, true).value.plan;
    var order := OrderAt(db.tables, m.contaId, p.orderId).value;
    assert IsCanceledOrder(m, order, entry, payment);
  }

  lemma CancellationFacts(
    m: Manifest, entry: ManifestIssue, payment: Payment, listing: seq<Payment>, links: Tables, issue: Option<Issue>)
    ensures var review := CancellationReview(m, entry, payment, listing, links, issue, true);
            review.Ok? && review.value.Go? && review.value.plan.Cancellation? ==>
              var p := review.value.plan;
              && payment.id == p.paymentId && (payment.deleted || payment.status == "DELETED")
              && payment.externalReference == Some("event-map-order:" + p.orderId)
              && |listing| <= 1 && (forall c :: c in listing ==> IsSameDeleted(c, payment))
              && TextField(p.seen.metadata, "paymentId") == Some(p.paymentId)
              && TextField(p.seen.metadata, "orderId") == Some(p.orderId)
  {
    hide IsSameDeleted, TextField, FieldOf, OrderAt, IsClosed;
  }

  ghost predicate IsCanceledOrder(m: Manifest, order: Order, entry: ManifestIssue, payment: Payment) {
    && Some(order.id) == entry.entityId && order.contaId == m.contaId && order.status in ["CANCELLED", "EXPIRED"]
    && order.asaasPaymentId == Some(payment.id) && order.paymentProvider == Some("ASAAS")
    && (payment.deleted || payment.status == "DELETED")
  }

  // ---------------------------------------------------------------- running the recovery again

  lemma IncludesAt(s: string, part: string, i: nat)
    requires i + |part| <= |s| && s[i..i + |part|] == part
    ensures Includes(s, part)
  {
    assert s[i..][..|part|] == s[i..i + |part|];
  }

  /** The text of a historical resolution keeps its marker, however long the reason. */
  lemma HistoricalTextIsMarked(p: Plan)
    requires p.Historical?
    ensures Includes(ResolutionText(p), CLOSED_ENROLLMENT)
  {
    hide Trim;
    var start := "Operador confirmou ";
    var text := start + CLOSED_ENROLLMENT + ": " + Trim(p.reason);
    assert text[|start|..|start| + |CLOSED_ENROLLMENT|] == CLOSED_ENROLLMENT;
    assert |text| > 1000 ==> text[..1000][|start|..|start| + |CLOSED_ENROLLMENT|] == CLOSED_ENROLLMENT;
    IncludesAt(ResolutionText(p), CLOSED_ENROLLMENT, |start|);
  }

  /** The issue after a commit: resolved by the plan, and otherwise as found. */
  lemma IssueAfterCommit(db: Db, p: Plan, context: AuditContext, now: int)
    requires Commits(db, p)
    ensures IssueAt(Committed(db, p, context, now).issues, p.seen.id, p.seen.contaId) ==
            Some(Closed(db.issues[p.seen.id], p, now))
  {
    hide StillHolds, ResolutionText, ResolutionCode;
  }

  /** The issue is read again, at any later time, as the resolution left it. */
  ghost predicate IsLeft(later: Db, db: Db, p: Plan, context: AuditContext, now: int)
    requires p.seen.id in db.issues
  {
    IssueAt(later.issues, p.seen.id, p.seen.contaId) ==
    IssueAt(Committed(db, p, context, now).issues, p.seen.id, p.seen.contaId)
  }

  /**
   The same recovery, run again on the issue that it resolved, recognizes it and reaches no transaction; with a local
   row that has appeared since, it throws before it looks at the issue.
   */
  lemma HistoricalRerun(
    m: Manifest, item: HistoricalItem, payment: Payment, subscription: RemoteSubscription,
    links: Tables, issue: Option<Issue>, db: Db, context: AuditContext, now: int, later: Db, apply: bool)
    requires IsRead(issue, item.issueId, m.contaId)
    requires WasResolved(HistoricalReview(m, item, payment, subscription, links, issue, true), db)
    requires IsLeft(later, db, HistoricalReview(m, item, payment, subscription, links, issue, true).value.plan,
                    context, now)
    ensures var again := IssueAt(later.issues, item.issueId, m.contaId);
            HistoricalReview(m, item, payment, subscription, later.tables, again, apply) ==
            if HasPaymentLink(later.tables, m.contaId, item.paymentId, None)
               || HasSubscriptionLink(later.tables, m.contaId, item.subscriptionId, None)
            then Thrown(LocalLink) else Ok(Stop(AlreadyResolved))
    ensures later.tables == db.tables ==>
              !HasPaymentLink(later.tables, m.contaId, item.paymentId, None)
              && !HasSubscriptionLink(later.tables, m.contaId, item.subscriptionId, None)
  {
    hide HasPaymentLink, HasSubscriptionLink, Includes, ResolutionText, ResolutionCode;
    var p := HistoricalReview(m, item, payment, subscription, links, issue, true).value.plan;
    HistoricalTextIsMarked(p);
    IssueAfterCommit(db, p, context, now);
  }

  /** The same for a lag, whatever the provider and the local tables say by then. */
  lemma AbsentLagRerun(
    m: Manifest, entry: ManifestIssue, payment: Payment, subscription: RemoteSubscription,
    links: Tables, issue: Option<Issue>, db: Db, context: AuditContext, now: int,
    later: Db, payment2: Payment, subscription2: RemoteSubscription, apply: bool)
    requires IsRead(issue, entry.id, m.contaId)
    requires WasResolved(AbsentLagReview(m, entry, payment, subscription, links, issue, true), db)
    requires IsLeft(later, db, AbsentLagReview(m, entry, payment, subscription, links, issue, true).value.plan,
                    context, now)
    ensures var again := IssueAt(later.issues, entry.id, m.contaId);
            AbsentLagReview(m, entry, payment2, subscription2, later.tables, again, apply) == Ok(Stop(AlreadyResolved))
  {
    hide AbsentLagReview, StillHolds, ResolutionText, ResolutionCode;
    AbsentLagPlan(m, entry, payment, subscription, links, issue);
    var p := AbsentLagReview(m, entry, payment, subscription, links, issue, true).value.plan;
    IssueAfterCommit(db, p, context, now);
    AbsentLagOfResolved(m, entry, payment2, subscription2, later.tables, IssueAt(later.issues, entry.id, m.contaId),
                        apply);
  }

  lemma AbsentLagPlan(
    m: Manifest, entry: ManifestIssue, payment: Payment, subscription: RemoteSubscription,
    links: Tables, issue: Option<Issue>)
    ensures var review := AbsentLagReview(m, entry, payment, subscription, links, issue, true);
            review.Ok? && review.value.Go? ==>
              var p := review.value.plan;
              && p.AbsentLag? && issue == Some(p.seen) && p.seen.status == Open && Some(p.asaasId) == entry.asaasId
              && IsGiven(entry.asaasId) && p.seen.entityType == entry.entityType && p.seen.entityId == entry.entityId
  {
    hide HasSubscriptionLink, HasChargeOwner, IsListed;
  }

  lemma AbsentLagOfResolved(
    m: Manifest, entry: ManifestIssue, payment: Payment, subscription: RemoteSubscription,
    links: Tables, issue: Option<Issue>, apply: bool)
    requires issue.Some? && issue.value.status == Resolved && issue.value.issueType == LAG
    requires issue.value.entityType == entry.entityType && issue.value.entityId == entry.entityId
    requires issue.value.asaasId == entry.asaasId && IsGiven(entry.asaasId)
    ensures AbsentLagReview(m, entry, payment, subscription, links, issue, apply) == Ok(Stop(AlreadyResolved))
  {
    hide HasSubscriptionLink, HasChargeOwner, IsListed;
  }

  /** The same for a cancellation. */
  lemma CancellationRerun(
    m: Manifest, entry: ManifestIssue, payment: Payment, listing: seq<Payment>,
    links: Tables, issue: Option<Issue>, db: Db, context: AuditContext, now: int,
    later: Db, payment2: Payment, listing2: seq<Payment>, apply: bool)
    requires IsRead(issue, entry.id, m.contaId)
    requires WasResolved(CancellationReview(m, entry, payment, listing, links, issue, true), db)
    requires IsLeft(later, db, CancellationReview(m, entry, payment, listing, links, issue, true).value.plan,
                    context, now)
    ensures var again := IssueAt(later.issues, entry.id, m.contaId);
            CancellationReview(m, entry, payment2, listing2, later.tables, again, apply) == Ok(Stop(AlreadyResolved))
  {
    hide CancellationReview, StillHolds, ResolutionText, ResolutionCode;
    CancellationPlan(m, entry, payment, listing, links, issue, true);
    var p := CancellationReview(m, entry, payment, listing, links, issue, true).value.plan;
    IssueAfterCommit(db, p, context, now);
    CancellationOfResolved(m, entry, payment2, listing2, later.tables, IssueAt(later.issues, entry.id, m.contaId),
                           apply);
  }

  lemma CancellationPlan(
    m: Manifest, entry: ManifestIssue, payment: Payment, listing: seq<Payment>, links: Tables, issue: Option<Issue>,
    apply: bool)
    ensures var review := CancellationReview(m, entry, payment, listing, links, issue, apply);
            !apply && review.Ok? ==> review.value.Stop? && review.value.outcome != ResolvedNow
    ensures var review := CancellationReview(m, entry, payment, listing, links, issue, apply);
            review.Ok? && review.value.Go? ==>
              var p := review.value.plan;
              && p.Cancellation? && issue == Some(p.seen) && p.seen.status == Open && p.seen.asaasId == entry.asaasId
              && Some(p.orderId) == entry.entityId && IsGiven(entry.entityId) && p.seen.lastSeenAt == entry.lastSeenAt
  {
    hide IsSameDeleted, OrderAt, IsClosed, TextField, FieldOf;
  }

  lemma CancellationOfResolved(
    m: Manifest, entry: ManifestIssue, payment: Payment, listing: seq<Payment>, links: Tables, issue: Option<Issue>,
    apply: bool)
    requires issue.Some? && issue.value.status == Resolved && issue.value.issueType == UNCERTAIN
    requires issue.value.entityType == "PAYMENT" && issue.value.entityId == entry.entityId && IsGiven(entry.entityId)
    requires issue.value.asaasId == entry.asaasId
    ensures CancellationReview(m, entry, payment, listing, links, issue, apply) == Ok(Stop(AlreadyResolved))
  {
    hide IsSameDeleted, OrderAt, IsClosed, TextField, FieldOf;
  }

  /**
   The resolver of already linked payments does not compare the issue's entity when it commits: run again it recognizes
   its own resolution exactly when the entity was still the one of the manifest at the commit, and throws otherwise.
   */
  lemma LinkedRerun(
    m: Manifest, entry: ManifestIssue, payment: Payment, subscription: RemoteSubscription,
    links: Tables, first: Tables, issue: Option<Issue>, db: Db, context: AuditContext, now: int,
    later: Db, payment2: Payment, subscription2: RemoteSubscription, first2: Tables, apply: bool)
    requires IsRead(issue, entry.id, m.contaId)
    requires WasResolved(LinkedReview(m, entry, payment, subscription, links, first, issue, true), db)
    requires IsLeft(later, db, LinkedReview(m, entry, payment, subscription, links, first, issue, true).value.plan,
                    context, now)
    ensures var p := LinkedReview(m, entry, payment, subscription, links, first, issue, true).value.plan;
            var again := IssueAt(later.issues, entry.id, m.contaId);
            var found := db.issues[p.seen.id];
            LinkedReview(m, entry, payment2, subscription2, later.tables, first2, again, apply)
            == if found.entityType == entry.entityType && found.entityId == entry.entityId
               then Ok(Stop(AlreadyResolved)) else Thrown(IssueMismatch)
    ensures var p := LinkedReview(m, entry, payment, subscription, links, first, issue, true).value.plan;
            p.Cycle? ==>
              db.issues[p.seen.id].entityType == entry.entityType && db.issues[p.seen.id].entityId == entry.entityId
  {
    hide LinkedReview, StillHolds, ResolutionText, ResolutionCode;
    var p := LinkedReview(m, entry, payment, subscription, links, first, issue, true).value.plan;
    LinkedPlans(m, entry, payment, subscription, links, first, issue, true);
    LinkedPlanIds(m, entry, payment, subscription, links, first, issue);
    IssueAfterCommit(db, p, context, now);
    LinkedOfResolved(m, entry, payment2, subscription2, later.tables, first2,
                     IssueAt(later.issues, entry.id, m.contaId), apply);
  }

  lemma LinkedOfResolved(
    m: Manifest, entry: ManifestIssue, payment: Payment, subscription: RemoteSubscription,
    links: Tables, first: Tables, issue: Option<Issue>, apply: bool)
    requires issue.Some? && issue.value.status == Resolved && issue.value.issueType == MISSING
    requires issue.value.asaasId == entry.asaasId && IsGiven(entry.asaasId)
    ensures LinkedReview(m, entry, payment, subscription, links, first, issue, apply)
            == if issue.value.entityType == entry.entityType && issue.value.entityId == entry.entityId
               then Ok(Stop(AlreadyResolved)) else Thrown(IssueMismatch)
  {
    hide CycleReview, EnrollmentOperation, Includes, IsListed, TextField, HasPriorRepairMarker;
  }

  /** The rows of the example below: one charge with its cobranca and operation, as the manifest's entry expects. */
  function ExampleReference(): string {
    PREFIX + "o" + ":fee"
  }

  function ExampleIssue(): Issue {
    var data := Fields(map["manualRepair" := Flag(true), "resolvedLocalEntityId" := Text("c"),
                           "lastCauseId" := Text("e")]);
    Issue("i", "t", MISSING, "PAYMENT", None, Some("p"), Open, 0, None, data, None, None)
  }

  function ExampleEntry(): ManifestIssue {
    ManifestIssue("i", MISSING, "PAYMENT", None, Some("p"), 0)
  }

  function ExampleCharge(): Charge {
    Charge("h", "t", Some("p"), Some("c"), ExampleReference(), "OPEN", None, None)
  }

  function ExampleCobranca(): Cobranca {
    Cobranca("c", "t", "", Some("p"), None, "PENDENTE", 1, "")
  }

  function ExampleTables(): Tables {
    Tables([ExampleCharge()], [ExampleCobranca()], [], [], [], [], [],
           [Operation("o", "t", "", None, None, None, Some("p"))], [], [])
  }

  function ExampleReview(): Result<Review, RecoveryError> {
    LinkedReview(
      Manifest("t", [ExampleEntry()]), ExampleEntry(),
      Payment("p", None, "PENDING", 1, "", None, false, Some(ExampleReference())),
      RemoteSubscription("", "", false, None), ExampleTables(), ExampleTables(), Some(ExampleIssue()), true)
  }

  lemma ExampleIsPlanned()
    ensures ExampleReview() == Ok(Go(Linked(ExampleIssue(), "p", ExampleCharge(), ExampleCobranca(), "e")))
  {
    var t := ExampleTables();
    EnrollmentReferenceIsExact(ExampleReference(), Enrollment("o", true));
    hide EnrollmentOperation, HasPriorRepairMarker, IsListed, First;
    HasMarker(ExampleIssue().metadata);
    ListedAlone(Manifest("t", [ExampleEntry()]), ExampleEntry());
    assert IsOperationOf(t.operations[0], "t", Enrollment("o", true), "p");
    FirstOfOne(ExampleCharge(), (r: Charge) => r.contaId == "t" && r.asaasPaymentId == Some("p"));
    FirstOfOne(ExampleCobranca(), (r: Cobranca) => IsCobrancaOf(r, "t", "p"));
  }

  /** Such a commit exists: the entity of the issue was filled in after the review, at the same time. */
  lemma LinkedRerunMayThrow()
    ensures var issue := ExampleIssue().(entityId := Some("x"));
            && WasResolved(ExampleReview(), Db(map["i" := issue], [], ExampleTables()))
            && IsRead(Some(ExampleIssue()), ExampleEntry().id, "t")
            && issue.entityId != ExampleEntry().entityId
  {
    ExampleIsPlanned();
    hide ExampleReview, First;
    FirstOfOne(ExampleCharge(), (r: Charge) => r.id == "h" && r.contaId == "t" && r.asaasPaymentId == Some("p"));
    FirstOfOne(ExampleCobranca(), (r: Cobranca) => r.id == "c" && IsCobrancaOf(r, "t", "p"));
  }

  lemma HasMarker(m: Json)
    requires FieldOf(m, "manualRepair") == Some(Flag(true))
    ensures HasPriorRepairMarker(m)
  {
  }

  lemma FirstOfOne<T>(row: T, p: T -> bool)
    requires p(row)
    ensures First([row], p) == Some(row)
  {
  }

  lemma ListedAlone(m: Manifest, entry: ManifestIssue)
    requires m.openIssues == [entry]
    ensures IsListed(m, entry.id, entry.issueType, entry.asaasId, entry.lastSeenAt)
  {
  }

  lemma LinkedPlanIds(
    m: Manifest, entry: ManifestIssue, payment: Payment, subscription: RemoteSubscription,
    links: Tables, first: Tables, issue: Option<Issue>)
    ensures var review := LinkedReview(m, entry, payment, subscription, links, first, issue, true);
            review.Ok? && review.value.Go? ==>
              var p := review.value.plan;
              && p.seen.issueType == MISSING && p.seen.entityType == entry.entityType
              && p.seen.entityId == entry.entityId
              && p.seen.asaasId == entry.asaasId && IsGiven(p.seen.asaasId)
              && p.seen.asaasId.value == (if p.Cycle? then p.paymentId else if p.Linked? then p.asaasId else "")
  {
    hide LoadProof, EnrollmentOperation, Includes, IsListed, TextField, HasPriorRepairMarker;
  }

  // ---------------------------------------------------------------- whole runs

  /** The transaction of one resolver, or any write of anyone else to issues and local tables. */
  datatype Step =
    | Recover(plan: Plan, context: AuditContext, now: int)
    | Write(issues: map<string, Issue>, tables: Tables)

  function After(db: Db, s: Step): Db {
    match s
    case Recover(p, context, now) => Recovered(db, p, context, now)
    case Write(issues, tables) => db.(issues := issues, tables := tables)
  }

  function Run(db: Db, steps: seq<Step>): Db
    decreases |steps|
  {
    if steps == [] then db else Run(After(db, steps[0]), steps[1..])
  }

  predicate IsOpen(db: Db, id: string) {
    id in db.issues && db.issues[id].status == Open
  }

  function RowsOf(audit: seq<AuditRow>, id: string): nat {
    if audit == [] then 0
    else RowsOf(audit[..|audit| - 1], id) + if audit[|audit| - 1].issueId == id then 1 else 0
  }

  /** The steps of a run that open an issue, those of other writers that close it, and the resolutions. */
  function Openings(db: Db, steps: seq<Step>, id: string): nat
    decreases |steps|
  {
    if steps == [] then 0
    else
      var next := After(db, steps[0]);
      Openings(next, steps[1..], id) + if !IsOpen(db, id) && IsOpen(next, id) then 1 else 0
  }

  function Closings(db: Db, steps: seq<Step>, id: string): nat
    decreases |steps|
  {
    if steps == [] then 0
    else
      var next := After(db, steps[0]);
      Closings(next, steps[1..], id) + if steps[0].Write? && IsOpen(db, id) && !IsOpen(next, id) then 1 else 0
  }

  function Bit(b: bool): nat {
    if b then 1 else 0
  }

  /** One step: a row is written exactly when a recovery moves the issue from open to resolved. */
  lemma RowsOfStep(db: Db, s: Step, id: string)
    ensures var next := After(db, s);
            RowsOf(next.audit, id) == RowsOf(db.audit, id) + Bit(s.Recover? && IsOpen(db, id) && !IsOpen(next, id))
    ensures s.Recover? && IsOpen(After(db, s), id) ==> IsOpen(db, id)
  {
    hide StillHolds, ResolutionText, ResolutionCode;
    if s.Recover? && Commits(db, s.plan) {
      var next := Committed(db, s.plan, s.context, s.now);
      assert next.audit[..|next.audit| - 1] == db.audit;
    }
  }

  /**
   Conservation over every interleaving of any resolvers, however stale their reviews, with arbitrary other writers:
   an issue's new audit rows are its openings, plus one if it was open at first, less the closings by others, less one
   if it is open in the end. In particular there is never more than one row for each opening.
   */
  lemma {:induction false} OneRowForEachOpening(db: Db, steps: seq<Step>, id: string)
    ensures RowsOf(Run(db, steps).audit, id) + Closings(db, steps, id) + Bit(IsOpen(Run(db, steps), id))
            == RowsOf(db.audit, id) + Openings(db, steps, id) + Bit(IsOpen(db, id))
    decreases |steps|
  {
    if steps != [] {
      hide After, IsOpen;
      RowsOfStep(db, steps[0], id);
      OneRowForEachOpening(After(db, steps[0]), steps[1..], id);
      WritesOpen(db, steps[0], id);
    }
  }

  lemma WritesOpen(db: Db, s: Step, id: string)
    ensures var next := After(db, s);
            !IsOpen(db, id) && IsOpen(next, id) ==> s.Write?
  {
    RowsOfStep(db, s, id);
  }

  /** Only an open issue leads a review to a plan, so a closed one never reaches a transaction. */
  lemma PlansSeeOpenIssues(
    m: Manifest, item: HistoricalItem, entry: ManifestIssue, payment: Payment, subscription: RemoteSubscription,
    listing: seq<Payment>, links: Tables, first: Tables, issue: Option<Issue>, apply: bool)
    requires issue.Some? ==> issue.value.status != Open
    ensures !IsPlan(HistoricalReview(m, item, payment, subscription, links, issue, apply))
    ensures !IsPlan(AbsentLagReview(m, entry, payment, subscription, links, issue, apply))
    ensures !IsPlan(LinkedReview(m, entry, payment, subscription, links, first, issue, apply))
    ensures !IsPlan(CancellationReview(m, entry, payment, listing, links, issue, apply))
  {
    hide HasPaymentLink, HasSubscriptionLink, HasChargeOwner, Includes, IsListed, CycleReview, EnrollmentOperation;
    hide HasPriorRepairMarker, TextField, FieldOf, IsSameDeleted, OrderAt, IsClosed, IsOperationOf;
  }

  predicate IsPlan(review: Result<Review, RecoveryError>) {
    review.Ok? && review.value.Go?
  }

  lemma {:induction false} StaysClosed(db: Db, steps: seq<Step>, id: string)
    requires !IsOpen(db, id) && Openings(db, steps, id) == 0
    ensures !IsOpen(Run(db, steps), id)
    decreases |steps|
  {
    hide After, IsOpen;
    if steps != [] {
      StaysClosed(After(db, steps[0]), steps[1..], id);
    }
  }

  /**
   Once an issue is resolved, no recovery of any kind that reads it at any later time reaches a transaction, with any
   evidence, unless someone else has opened it again.
   */
  lemma ResolvedIssueIsLeftAlone(
    db: Db, p: Plan, context: AuditContext, now: int, steps: seq<Step>,
    m: Manifest, item: HistoricalItem, entry: ManifestIssue, payment: Payment, subscription: RemoteSubscription,
    listing: seq<Payment>, links: Tables, first: Tables, apply: bool)
    requires Commits(db, p) && Openings(Recovered(db, p, context, now), steps, p.seen.id) == 0
    ensures var later := Run(Recovered(db, p, context, now), steps);
            var issue := IssueAt(later.issues, p.seen.id, m.contaId);
            && !IsPlan(HistoricalReview(m, item, payment, subscription, links, issue, apply))
            && !IsPlan(AbsentLagReview(m, entry, payment, subscription, links, issue, apply))
            && !IsPlan(LinkedReview(m, entry, payment, subscription, links, first, issue, apply))
            && !IsPlan(CancellationReview(m, entry, payment, listing, links, issue, apply))
  {
    hide HistoricalReview, AbsentLagReview, LinkedReview, CancellationReview, StillHolds, IsPlan, Run;
    hide ResolutionText, ResolutionCode;
    var resolved := Recovered(db, p, context, now);
    assert !IsOpen(resolved, p.seen.id);
    StaysClosed(resolved, steps, p.seen.id);
    var issue := IssueAt(Run(resolved, steps).issues, p.seen.id, m.contaId);
    PlansSeeOpenIssues(m, item, entry, payment, subscription, listing, links, first, issue, apply);
  }

  /** Other writers give an issue they open again a newer time, and never move the time of an issue back. */
  predicate OthersMoveForward(db: Db, steps: seq<Step>, id: string)
    decreases |steps|
  {
    steps == [] ||
    (&& (steps[0].Write? && id in db.issues ==>
           && id in steps[0].issues && steps[0].issues[id].lastSeenAt >= db.issues[id].lastSeenAt
           && (db.issues[id].status != Open && steps[0].issues[id].status == Open ==>
                 steps[0].issues[id].lastSeenAt > db.issues[id].lastSeenAt))
     && OthersMoveForward(After(db, steps[0]), steps[1..], id))
  }

  /** The issue is not open any more at the time that a plan has seen, or is newer. */
  predicate IsPast(db: Db, p: Plan) {
    && p.seen.id in db.issues
    && var found := db.issues[p.seen.id];
       found.lastSeenAt > p.seen.lastSeenAt || (found.lastSeenAt == p.seen.lastSeenAt && found.status != Open)
  }

  /** A plan whose issue has been closed or seen again since its review never commits, whatever runs in between. */
  lemma {:induction false} StalePlanNeverCommits(db: Db, steps: seq<Step>, p: Plan, context: AuditContext, now: int)
    requires IsPast(db, p) && OthersMoveForward(db, steps, p.seen.id)
    ensures Recovered(Run(db, steps), p, context, now) == Run(db, steps)
    ensures IsPast(Run(db, steps), p)
    decreases |steps|
  {
    hide StillHolds, ResolutionText, ResolutionCode;
    if steps != [] {
      StalePlanNeverCommits(After(db, steps[0]), steps[1..], p, context, now);
    }
  }

  /** Every commit makes all plans of the same version stale, its own included, whichever resolver reviewed them. */
  lemma CommitMakesPlansStale(db: Db, p: Plan, q: Plan, context: AuditContext, now: int)
    requires Commits(db, p) && q.seen.id == p.seen.id && q.seen.lastSeenAt <= p.seen.lastSeenAt
    ensures IsPast(Recovered(db, p, context, now), q)
  {
    hide StillHolds, ResolutionText, ResolutionCode;
  }
}
