/** Fixed payments: the list screen with its add and edit callbacks and its delete confirmation,
    and the add/edit form that builds the saved object and hands it to the callback. */
module FixedPayments {
  import opened Wrappers
  import opened Numbers
  import opened IdLists

  /** A point in time, in milliseconds; the model never looks inside it. */
  type Instant = int

  datatype Payment = Payment(id: Id, category: string, amount: real, date: Instant)

  function PaymentId(p: Payment): Id { p.id }

  /** `x => x.id === p.id ? p : x` maps every match to `p` itself. */
  function ReplaceBy(p: Payment): Payment -> Payment {
    (x: Payment) => p
  }

  /** The list and the payment whose deletion awaits confirmation (`confirmDelete`). */
  datatype ListState = ListState(payments: seq<Payment>, confirmDelete: Option<Payment>)

  /** The add callback: the saved payment goes to the end; the earlier entries are untouched. */
  function SavedByAdd(ps: seq<Payment>, p: Payment): (r: seq<Payment>)
    ensures |r| == |ps| + 1 && r[..|ps|] == ps && r[|ps|] == p
  {
    ps + [p]
  }

  /** The edit callback: every entry sharing the saved payment's id becomes that payment. */
  function SavedByEdit(ps: seq<Payment>, p: Payment): (r: seq<Payment>)
    ensures |r| == |ps|
  {
    Replace(ps, PaymentId, p.id, ReplaceBy(p))
  }

  /** Position by position, the edit callback swaps in the saved payment where the id matches and
      leaves every other entry alone. */
  lemma SavedByEditAt(ps: seq<Payment>, p: Payment, i: nat)
    requires i < |ps|
    ensures ps[i].id == p.id ==> SavedByEdit(ps, p)[i] == p
    ensures ps[i].id != p.id ==> SavedByEdit(ps, p)[i] == ps[i]
  {
    ReplaceAt(ps, PaymentId, p.id, ReplaceBy(p), i);
  }

  function AskDelete(s: ListState, p: Payment): (r: ListState)
    ensures r.confirmDelete == Some(p) && r.payments == s.payments
  {
    s.(confirmDelete := Some(p))
  }

  function CancelDelete(s: ListState): (r: ListState)
    ensures r.confirmDelete == None && r.payments == s.payments
  {
    s.(confirmDelete := None)
  }

  /** Without a pending confirmation nothing happens; otherwise exactly the entries carrying the
      confirmed id go and the confirmation is cleared. The survivors keep their order because
      filtering distributes over concatenation (`IdLists.WithoutConcat`). */
  function DeletePayment(s: ListState): (r: ListState)
    ensures s.confirmDelete == None ==> r == s
    ensures s.confirmDelete != None ==>
      && r.confirmDelete == None
      && (forall i :: 0 <= i < |r.payments| ==> r.payments[i].id != s.confirmDelete.value.id)
      && (forall i :: 0 <= i < |r.payments| ==> r.payments[i] in s.payments)
      && (forall i :: 0 <= i < |s.payments| && s.payments[i].id != s.confirmDelete.value.id ==>
            s.payments[i] in r.payments)
  {
    if s.confirmDelete == None then s
    else ListState(Without(s.payments, PaymentId, s.confirmDelete.value.id), None)
  }

  // ---------------------------------------------------------------- the form

  const DEFAULT_CATEGORY: string := "Renta"

  /** The form's three inputs; the amount is the text of its box. */
  datatype Form = Form(category: string, amount: string, date: Instant)

  /** The form as it opens. Without a payment: "Renta", an empty amount and the current time.
      With one: its category (or "Renta" when that is empty), its amount rendered by `show`, and
      its date. */
  function InitialForm(payment: Option<Payment>, now: Instant, show: real -> string): (f: Form)
    ensures payment == None ==> f == Form(DEFAULT_CATEGORY, "", now)
    ensures payment != None ==>
      && f.category == (if payment.value.category == "" then DEFAULT_CATEGORY else payment.value.category)
      && f.amount == show(payment.value.amount)
      && f.date == payment.value.date
  {
    match payment
    case None => Form(DEFAULT_CATEGORY, "", now)
    case Some(p) => Form(if p.category == "" then DEFAULT_CATEGORY else p.category, show(p.amount), p.date)
  }

  /** The id of the saved object: the edited payment's own id when it has a non-empty one, else
      the decimal clock reading. */
  function SavedId(payment: Option<Payment>, now: nat): (id: Id)
    ensures payment != None && payment.value.id != "" ==> id == payment.value.id
    ensures payment == None || payment.value.id == "" ==> id == DecimalString(now)
    ensures id != ""
  {
    if payment != None && payment.value.id != "" then payment.value.id else DecimalString(now)
  }

  /** Saving builds `{id, category, amount, date}`; the amount is the parsed text with blank and
      unparsable text read as 0. The object reaches the callback exactly when one was supplied
      (the result is that single call, or none); the screen then always navigates back. */
  function Save(f: Form, payment: Option<Payment>, hasCallback: bool, now: nat): (delivered: Option<Payment>)
    ensures delivered != None <==> hasCallback
    ensures delivered != None ==>
      && delivered.value.id == SavedId(payment, now)
      && delivered.value.category == f.category
      && delivered.value.amount == ParseAmount(f.amount)
      && delivered.value.date == f.date
  {
    if hasCallback then Some(Payment(SavedId(payment, now), f.category, ParseAmount(f.amount), f.date))
    else None
  }

  /** The two routes from the list into the form. Adding opens an empty form whose callback
      appends; editing opens the form on a payment whose callback replaces by id. */
  function AddFlow(ps: seq<Payment>, f: Form, now: nat): (r: seq<Payment>)
    ensures |r| == |ps| + 1 && r[..|ps|] == ps
    ensures r[|ps|].id == DecimalString(now) && r[|ps|].amount == ParseAmount(f.amount)
  {
    SavedByAdd(ps, Save(f, None, true, now).value)
  }

  function EditFlow(ps: seq<Payment>, p: Payment, f: Form, now: nat): (r: seq<Payment>)
    ensures |r| == |ps|
  {
    SavedByEdit(ps, Save(f, Some(p), true, now).value)
  }

  /** Opening the editor on a listed payment and saving without changes leaves the list as it
      was: ids are unique, the payment has an id and a category, and its amount's rendering reads
      back as the amount. */
  lemma EditRoundTrip(ps: seq<Payment>, p: Payment, now: Instant, stamp: nat, show: real -> string)
    requires UniqueIds(ps, PaymentId) && p in ps
    requires p.id != "" && p.category != ""
    requires ParseFloat(show(p.amount)) == Fin(p.amount)
    ensures EditFlow(ps, p, InitialForm(Some(p), now, show), stamp) == ps
  {
    ParseFloatBlank();
    var f := InitialForm(Some(p), now, show);
    assert Save(f, Some(p), true, stamp).value == p;
    var i :| 0 <= i < |ps| && ps[i] == p;
    forall j | 0 <= j < |ps| && PaymentId(ps[j]) == p.id
      ensures ReplaceBy(p)(ps[j]) == ps[j]
    {
      UniqueIdsAt(ps, PaymentId, i, j);
    }
    ReplaceUnchanged(ps, PaymentId, p.id, ReplaceBy(p));
  }

  /** An edit saved over a payment cannot duplicate or drop entries: the list keeps its ids. */
  lemma EditKeepsIds(ps: seq<Payment>, p: Payment, f: Form, now: nat)
    requires p.id != ""
    ensures Ids(EditFlow(ps, p, f, now), PaymentId) == Ids(ps, PaymentId)
  {
    var q := Save(f, Some(p), true, now).value;
    assert q.id == p.id;
    ReplaceKeepsIds(ps, PaymentId, q.id, ReplaceBy(q));
  }
}
