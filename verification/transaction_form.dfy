/** The add/edit transaction form: which of its two sections (income, expense) is shown, and the
    payload its save button builds. */
module TransactionForm {
  import opened Wrappers
  import opened Numbers
  import opened Js

  /** A point in time, in milliseconds; the model never looks inside it. */
  type Instant = int

  /** The route parameters `mode` and `kind`; `Undefined` where a parameter (or the whole
      parameter object) is missing. */
  datatype RouteParams = RouteParams(mode: Value, kind: Value)

  const NO_PARAMS := RouteParams(Undefined, Undefined)

  /** `mode` with its destructuring default: only a missing value becomes 'add'. */
  function Mode(p: RouteParams): (m: Value)
    ensures p.mode == Undefined ==> m == Str("add")
    ensures p.mode != Undefined ==> m == p.mode
  {
    if p.mode == Undefined then Str("add") else p.mode
  }

  predicate IsEdit(p: RouteParams) {
    Mode(p) == Str("edit")
  }

  predicate ShowIncome(p: RouteParams) {
    IsEdit(p) || p.kind == Str("income")
  }

  predicate ShowExpense(p: RouteParams) {
    IsEdit(p) || p.kind == Str("expense")
  }

  /** Editing shows both sections; any other mode shows at most one, chosen by `kind`, and none
      when `kind` is neither 'income' nor 'expense'. */
  lemma Sections(p: RouteParams)
    ensures IsEdit(p) ==> ShowIncome(p) && ShowExpense(p)
    ensures !IsEdit(p) ==> !(ShowIncome(p) && ShowExpense(p))
    ensures !IsEdit(p) ==> (ShowIncome(p) <==> p.kind == Str("income"))
    ensures !IsEdit(p) ==> (ShowExpense(p) <==> p.kind == Str("expense"))
    ensures !IsEdit(NO_PARAMS) && !ShowIncome(NO_PARAMS) && !ShowExpense(NO_PARAMS)
  {
    assert Str("income").s[0] != Str("expense").s[0];
    assert Str("add").s[0] != Str("edit").s[1];
  }

  /** One section's inputs; the amount is the text of its box. */
  datatype Section = Section(category: string, amount: string, date: Instant, description: string)

  datatype Form = Form(income: Section, expense: Section)

  const INCOME_DEFAULT: string := "Salario"
  const EXPENSE_DEFAULT: string := "Comida"

  /** The form as it opens: default categories, empty amounts and descriptions, both dates `now`. */
  function InitialForm(now: Instant): (f: Form)
    ensures f.income.category == INCOME_DEFAULT && f.expense.category == EXPENSE_DEFAULT
    ensures f.income.amount == "" && f.expense.amount == ""
    ensures f.income.description == "" && f.expense.description == ""
    ensures f.income.date == now && f.expense.date == now
  {
    Form(Section(INCOME_DEFAULT, "", now, ""), Section(EXPENSE_DEFAULT, "", now, ""))
  }

  /** One part of the payload. */
  datatype Part = Part(category: string, amount: real, date: Instant, description: string)

  datatype Payload = Payload(income: Option<Part>, expense: Option<Part>)

  /** `parseFloat(amount || '0') || 0`, with the section's other inputs passed through. */
  function PartOf(x: Section): (p: Part)
    ensures p.amount == ParseAmount(x.amount)
    ensures p.category == x.category && p.date == x.date && p.description == x.description
  {
    Part(x.category, ParseAmount(x.amount), x.date, x.description)
  }

  /** The payload: a shown section contributes its part and a hidden one null. Nothing is
      validated; the screen always navigates back afterwards. */
  function OnSave(p: RouteParams, f: Form): (d: Payload)
    ensures d.income != None <==> ShowIncome(p)
    ensures d.expense != None <==> ShowExpense(p)
    ensures d.income != None ==> d.income.value == PartOf(f.income)
    ensures d.expense != None ==> d.expense.value == PartOf(f.expense)
  {
    Payload(if ShowIncome(p) then Some(PartOf(f.income)) else None,
            if ShowExpense(p) then Some(PartOf(f.expense)) else None)
  }

  /** Saving the untouched form records zero amounts and the default categories. */
  lemma UntouchedFormSavesZero(p: RouteParams, now: Instant)
    ensures var d := OnSave(p, InitialForm(now));
      && (d.income != None ==> d.income.value == Part(INCOME_DEFAULT, 0.0, now, ""))
      && (d.expense != None ==> d.expense.value == Part(EXPENSE_DEFAULT, 0.0, now, ""))
  {
  }

  /** Blank, non-numeric and zero amounts all end up as 0 in the payload. */
  lemma ZeroLikeAmounts(x: Section)
    requires x.amount in {"", "abc", "0"}
    ensures PartOf(x).amount == 0.0
  {
    ParseFloatBlank();
  }
}
