/**
 Upserts of one provider invoice: a paid invoice stays paid, its amount only grows, and a write that was
 prepared from an earlier read has the effect of one atomic upsert or none.
 */
module InvoiceUpsert {
  import opened Wrappers

  datatype InvoiceStatus = Draft | Open | Paid | Void | Uncollectible | Unknown

  /** `details` stands for the columns that every upsert simply overwrites. */
  datatype Invoice = Invoice(
    contaId: string, status: InvoiceStatus, amountPaid: int, paidAt: Option<int>,
    failedAt: Option<int>, nextAttemptAt: Option<int>, errorCode: Option<string>, errorMessage: Option<string>,
    lastEventId: string, details: string)

  /** None is a property left undefined; Some(None) is an explicit null. */
  datatype Input = Input(
    contaId: string, status: InvoiceStatus, amountPaid: int, paidAt: Option<int>,
    failedAt: Option<Option<int>>, nextAttemptAt: Option<Option<int>>,
    errorCode: Option<Option<string>>, errorMessage: Option<Option<string>>,
    lastEventId: string, details: string)

  datatype InvoiceError = OtherConta | InvoiceChanged

  function Max(a: int, b: int): int {
    if a >= b then a else b
  }

  function Created(u: Input): Invoice {
    Invoice(u.contaId, u.status, u.amountPaid, u.paidAt, GetOr(u.failedAt, None), GetOr(u.nextAttemptAt, None),
            GetOr(u.errorCode, None), GetOr(u.errorMessage, None), u.lastEventId, u.details)
  }

  /** The data built from the invoice read, written over the invoice found. */
  function Overwritten(found: Invoice, read: Invoice, u: Input): Invoice {
    if read.status == Paid then
      found.(status := Paid, amountPaid := Max(read.amountPaid, u.amountPaid),
             paidAt := if read.paidAt.Some? then read.paidAt else if u.paidAt.Some? then u.paidAt else found.paidAt,
             failedAt := None, nextAttemptAt := None, errorCode := None, errorMessage := None,
             lastEventId := u.lastEventId, details := u.details)
    else
      found.(status := u.status, amountPaid := u.amountPaid,
             paidAt := if u.paidAt.Some? then u.paidAt else found.paidAt,
             failedAt := GetOr(u.failedAt, found.failedAt),
             nextAttemptAt := GetOr(u.nextAttemptAt, found.nextAttemptAt),
             errorCode := GetOr(u.errorCode, found.errorCode),
             errorMessage := GetOr(u.errorMessage, found.errorMessage),
             lastEventId := u.lastEventId, details := u.details)
  }

  /** The condition of the update: the row still has the columns the data was built from. */
  predicate IsUnchanged(found: Invoice, read: Invoice, u: Input) {
    && found.contaId == u.contaId && found.status == read.status && found.amountPaid == read.amountPaid
    && found.paidAt == read.paidAt && found.lastEventId == read.lastEventId
  }

  /** The upsert when `read` was the row at the start and `found` is the row when the write runs. */
  function SplitUpsert(found: Option<Invoice>, read: Option<Invoice>, u: Input): Result<Invoice, InvoiceError> {
    if read.Some? && read.value.contaId != u.contaId then Thrown(OtherConta)
    else if read.None? then
      if found.None? then Ok(Created(u)) else Thrown(InvoiceChanged)
    else if found.Some? && IsUnchanged(found.value, read.value, u)
    then Ok(Overwritten(found.value, read.value, u)) else Thrown(InvoiceChanged)
  }

  /** The upsert as one atomic step. */
  function Upsert(row: Option<Invoice>, u: Input): Result<Invoice, InvoiceError> {
    SplitUpsert(row, row, u)
  }

  function RowAfter(row: Option<Invoice>, r: Result<Invoice, InvoiceError>): Option<Invoice> {
    match r case Ok(invoice) => Some(invoice) case Thrown(_) => row
  }

  function Run(row: Option<Invoice>, inputs: seq<Input>): Option<Invoice>
    decreases |inputs|
  {
    if inputs == [] then row else Run(RowAfter(row, Upsert(row, inputs[0])), inputs[1..])
  }

  /** A write prepared from an earlier read either throws and changes nothing, or acts as one atomic upsert. */
  lemma SplitIsAtomic(found: Option<Invoice>, read: Option<Invoice>, u: Input)
    ensures SplitUpsert(found, read, u).Ok? ==> SplitUpsert(found, read, u) == Upsert(found, u)
    ensures RowAfter(found, SplitUpsert(found, read, u)) == found
            || RowAfter(found, SplitUpsert(found, read, u)) == RowAfter(found, Upsert(found, u))
  {
  }

  /** The inputs that act on an invoice owned by the account: those of its own account. */
  function Effective(inputs: seq<Input>, contaId: string): seq<Input> {
    if inputs == [] then []
    else (if inputs[0].contaId == contaId then [inputs[0]] else []) + Effective(inputs[1..], contaId)
  }

  /** The largest of an amount and the amounts of the inputs. */
  function RunningMax(amount: int, inputs: seq<Input>): (r: int)
    ensures r >= amount && forall i :: 0 <= i < |inputs| ==> inputs[i].amountPaid <= r
    ensures r == amount || exists i :: 0 <= i < |inputs| && inputs[i].amountPaid == r
    decreases |inputs|
  {
    if inputs == [] then amount
    else
      var r := RunningMax(Max(amount, inputs[0].amountPaid), inputs[1..]);
      assert forall i :: 1 <= i < |inputs| ==> inputs[i] == inputs[1..][i - 1];
      r
  }

  /** A payment time, or if it is not set the first one that the inputs set. */
  function FirstTime(t: Option<int>, inputs: seq<Input>): (r: Option<int>)
    ensures t.Some? ==> r == t
    ensures r.None? <==> t.None? && forall i :: 0 <= i < |inputs| ==> inputs[i].paidAt.None?
    decreases |inputs|
  {
    if inputs == [] then t
    else
      assert forall i :: 1 <= i < |inputs| ==> inputs[i] == inputs[1..][i - 1];
      FirstTime(if t.Some? then t else inputs[0].paidAt, inputs[1..])
  }

  predicate HasNoFailure(i: Invoice) {
    i.failedAt.None? && i.nextAttemptAt.None? && i.errorCode.None? && i.errorMessage.None?
  }

  /**
   Any later upserts leave a paid invoice paid, at the running maximum, with its payment time and without failures.
   */
  lemma {:induction false} PaidStaysPaid(row: Invoice, inputs: seq<Input>)
    requires row.status == Paid
    ensures Run(Some(row), inputs).Some?
    ensures var r := Run(Some(row), inputs).value;
            var effective := Effective(inputs, row.contaId);
            && r.status == Paid && r.contaId == row.contaId
            && r.amountPaid == RunningMax(row.amountPaid, effective)
            && r.paidAt == FirstTime(row.paidAt, effective)
            && (if effective == [] then r == row else HasNoFailure(r))
    decreases |inputs|
  {
    if inputs != [] {
      var u, rest := inputs[0], inputs[1..];
      var effective := Effective(inputs, row.contaId);
      if u.contaId == row.contaId {
        var next := Upsert(Some(row), u).value;
        PaidStaysPaid(next, rest);
        assert effective[1..] == Effective(rest, row.contaId);
        assert HasNoFailure(next);
      } else {
        PaidStaysPaid(row, rest);
        assert effective == Effective(rest, row.contaId);
      }
    }
  }

  /** The owner of an invoice, once there is one, decides over every later run, and never changes. */
  lemma {:induction false} OwnerNeverChanges(row: Invoice, inputs: seq<Input>)
    ensures Run(Some(row), inputs).Some? && Run(Some(row), inputs).value.contaId == row.contaId
    decreases |inputs|
  {
    if inputs != [] {
      OwnerNeverChanges(RowAfter(Some(row), Upsert(Some(row), inputs[0])).value, inputs[1..]);
    }
  }

  /** An invoice ends paid exactly when it was paid or one of the upserts of its owner was. */
  lemma {:induction false} PaidExactlyOnce(row: Invoice, inputs: seq<Input>)
    ensures Run(Some(row), inputs).Some?
    ensures Run(Some(row), inputs).value.status == Paid <==>
            row.status == Paid
            || exists i :: 0 <= i < |inputs| && inputs[i].contaId == row.contaId && inputs[i].status == Paid
    decreases |inputs|
  {
    if inputs != [] {
      var next := RowAfter(Some(row), Upsert(Some(row), inputs[0])).value;
      PaidExactlyOnce(next, inputs[1..]);
      assert next.contaId == row.contaId;
      assert forall i :: 1 <= i < |inputs| ==> inputs[i] == inputs[1..][i - 1];
      assert next.status == Paid <==>
             row.status == Paid || (inputs[0].contaId == row.contaId && inputs[0].status == Paid);
      if i :| 0 <= i < |inputs| && inputs[i].contaId == row.contaId && inputs[i].status == Paid {
        if i > 0 { assert inputs[1..][i - 1] == inputs[i]; }
      }
    }
  }

  /** Whether a column is empty after an upsert of an unpaid invoice: given as null, or not given and empty before. */
  predicate LeavesEmpty<T>(given: Option<Option<T>>, before: Option<T>) {
    given == Some(None) || (given.None? && before.None?)
  }

  /** Whether an upsert of an unpaid or new invoice leaves none of the four failure columns filled. */
  predicate LeavesNoFailure(row: Option<Invoice>, u: Input) {
    && LeavesEmpty(u.failedAt, if row.Some? then row.value.failedAt else None)
    && LeavesEmpty(u.nextAttemptAt, if row.Some? then row.value.nextAttemptAt else None)
    && LeavesEmpty(u.errorCode, if row.Some? then row.value.errorCode else None)
    && LeavesEmpty(u.errorMessage, if row.Some? then row.value.errorMessage else None)
  }

  /** The payment time after an upsert of an unpaid or new invoice: the one given, or else the one from before. */
  function PaymentTime(row: Option<Invoice>, u: Input): Option<int> {
    if u.paidAt.Some? then u.paidAt else if row.Some? then row.value.paidAt else None
  }

  /**
   A run from no invoice: the first upsert creates it for its account. From the first paid upsert of that account
   on, the amount is the largest paid amount since and a payment time stays once it is set. The failure columns are
   empty exactly when a later upsert followed or the first paid one left none.
   */
  lemma PaidFromFirst(before: seq<Input>, paid: Input, after: seq<Input>)
    requires before != [] ==> before[0].contaId == paid.contaId
    requires paid.status == Paid
    requires forall i :: 0 <= i < |before| && before[i].contaId == paid.contaId ==> before[i].status != Paid
    ensures var r := Run(None, before + [paid] + after);
            var effective := Effective(after, paid.contaId);
            && r.Some? && r.value.status == Paid && r.value.contaId == paid.contaId
            && r.value.amountPaid == RunningMax(paid.amountPaid, effective)
            && r.value.paidAt == FirstTime(PaymentTime(Run(None, before), paid), effective)
            && (HasNoFailure(r.value) <==> effective != [] || LeavesNoFailure(Run(None, before), paid))
  {
    var row := Run(None, before);
    if before != [] {
      OwnerNeverChanges(Created(before[0]), before[1..]);
      PaidExactlyOnce(Created(before[0]), before[1..]);
      assert Run(None, before) == Run(Some(Created(before[0])), before[1..]);
      assert forall i :: 0 <= i < |before| - 1 ==> before[1..][i] == before[i + 1];
    }
    var next := Upsert(row, paid).value;
    assert next.amountPaid == paid.amountPaid;
    RunAppend(None, before, [paid] + after);
    assert before + [paid] + after == before + ([paid] + after);
    assert ([paid] + after)[1..] == after;
    PaidStaysPaid(next, after);
  }

  /** A paid upsert that leaves the failure columns out keeps the failure of an earlier upsert on the paid invoice. */
  lemma PaidKeepsEarlierFailure(u: Input, failedAt: int, code: string)
    ensures var open := u.(status := Open, failedAt := Some(Some(failedAt)), errorCode := Some(Some(code)));
            var paid := u.(status := Paid, failedAt := None, nextAttemptAt := None,
                           errorCode := None, errorMessage := None);
            var r := Run(None, [open, paid]);
            && r.Some? && r.value.status == Paid
            && r.value.failedAt == Some(failedAt) && r.value.errorCode == Some(code) && !HasNoFailure(r.value)
  {
    var open := u.(status := Open, failedAt := Some(Some(failedAt)), errorCode := Some(Some(code)));
    var paid := u.(status := Paid, failedAt := None, nextAttemptAt := None, errorCode := None, errorMessage := None);
    assert [open, paid][1..] == [paid];
    var first := Some(Created(open));
    assert Run(first, [paid]) == Run(RowAfter(first, Upsert(first, paid)), []);
  }

  /**
   What an upsert of its owner leaves on an unpaid or new invoice, column by column: what it gives, and for the payment
   time and the failure columns, where it gives nothing, what was there before.
   */
  lemma ColumnsOfUpsert(row: Option<Invoice>, u: Input)
    requires row.Some? ==> row.value.contaId == u.contaId && row.value.status != Paid
    ensures Upsert(row, u).Ok?
    ensures var r := Upsert(row, u).value;
            && r.contaId == u.contaId && r.status == u.status && r.amountPaid == u.amountPaid
            && r.paidAt == PaymentTime(row, u)
            && r.lastEventId == u.lastEventId && r.details == u.details
            && (forall t :: u.failedAt == Some(t) ==> r.failedAt == t)
            && (forall t :: u.nextAttemptAt == Some(t) ==> r.nextAttemptAt == t)
            && (forall c :: u.errorCode == Some(c) ==> r.errorCode == c)
            && (forall c :: u.errorMessage == Some(c) ==> r.errorMessage == c)
            && (u.failedAt.None? ==> r.failedAt == if row.Some? then row.value.failedAt else None)
            && (u.nextAttemptAt.None? ==> r.nextAttemptAt == if row.Some? then row.value.nextAttemptAt else None)
            && (u.errorCode.None? ==> r.errorCode == if row.Some? then row.value.errorCode else None)
            && (u.errorMessage.None? ==> r.errorMessage == if row.Some? then row.value.errorMessage else None)
  {
  }

  /**
   After any run the overwritten columns are those of the owner's last upsert, and so are status and amount unless the
   invoice is paid.
   */
  lemma {:induction false} LastUpsertDecides(row: Invoice, inputs: seq<Input>)
    requires Effective(inputs, row.contaId) != []
    ensures Run(Some(row), inputs).Some?
    ensures var r := Run(Some(row), inputs).value;
            var effective := Effective(inputs, row.contaId);
            var last := effective[|effective| - 1];
            && r.details == last.details && r.lastEventId == last.lastEventId
            && (r.status != Paid ==> r.status == last.status && r.amountPaid == last.amountPaid)
    decreases |inputs|
  {
    var next := RowAfter(Some(row), Upsert(Some(row), inputs[0])).value;
    if Effective(inputs[1..], row.contaId) != [] {
      LastUpsertDecides(next, inputs[1..]);
    } else {
      NothingEffective(next, inputs[1..]);
    }
  }

  lemma {:induction false} NothingEffective(row: Invoice, inputs: seq<Input>)
    requires Effective(inputs, row.contaId) == []
    ensures Run(Some(row), inputs) == Some(row)
    decreases |inputs|
  {
    if inputs != [] {
      NothingEffective(row, inputs[1..]);
    }
  }

  /** An upsert of its owner changes a set payment time exactly when it gives another one to an unpaid invoice. */
  lemma PaymentTimeMoves(row: Invoice, u: Input)
    requires row.paidAt.Some? && u.contaId == row.contaId
    ensures Upsert(Some(row), u).Ok?
    ensures Upsert(Some(row), u).value.paidAt != row.paidAt <==>
            row.status != Paid && u.paidAt.Some? && u.paidAt != row.paidAt
  {
  }

  lemma {:induction false} RunAppend(row: Option<Invoice>, xs: seq<Input>, ys: seq<Input>)
    ensures Run(row, xs + ys) == Run(Run(row, xs), ys)
    decreases |xs|
  {
    if xs == [] {
      assert xs + ys == ys;
    } else {
      RunAppend(RowAfter(row, Upsert(row, xs[0])), xs[1..], ys);
      assert (xs + ys)[1..] == xs[1..] + ys;
    }
  }

  class InvoiceStore {
    var invoice: Option<Invoice>

    /** `upsertInvoice`; `others` are upserts that commit between its read and its write. */
    method UpsertInvoice(u: Input, others: seq<Input>) returns (r: Result<Invoice, InvoiceError>)
      modifies this
      ensures r.Thrown? ==> invoice == Run(old(invoice), others)
      ensures r.Ok? ==> invoice == Run(old(invoice), others + [u]) && invoice == Some(r.value)
      ensures r == Thrown(OtherConta) <==> old(invoice).Some? && old(invoice).value.contaId != u.contaId
      ensures r == Thrown(InvoiceChanged) <==>
              var read, found := old(invoice), Run(old(invoice), others);
              if read.None? then found.Some?
              else read.value.contaId == u.contaId
                   && (found.None?
                       || found.value.contaId != u.contaId || found.value.status != read.value.status
                       || found.value.amountPaid != read.value.amountPaid || found.value.paidAt != read.value.paidAt
                       || found.value.lastEventId != read.value.lastEventId)
      ensures others == [] && (old(invoice).None? || old(invoice).value.contaId == u.contaId) ==> r.Ok?
    {
      var existing := invoice;
      invoice := Run(invoice, others);
      if existing.Some? && existing.value.contaId != u.contaId {
        return Thrown(OtherConta);
      }
      RunAppend(existing, others, [u]);
      SplitIsAtomic(invoice, existing, u);
      assert [u][1..] == [];
      if existing.None? {
        if invoice.Some? {
          return Thrown(InvoiceChanged);
        }
        invoice := Some(Created(u));
        return Ok(invoice.value);
      }
      if invoice.None? || !IsUnchanged(invoice.value, existing.value, u) {
        return Thrown(InvoiceChanged);
      }
      invoice := Some(Overwritten(invoice.value, existing.value, u));
      r := Ok(invoice.value);
    }
  }
}
