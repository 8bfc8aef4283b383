/** The categories and budgets screens: a local list plus one modal (add, edit or delete) with
    its inputs. Every handler either leaves the whole state alone or updates the list and then
    closes the modal. */
module ListScreens {
  import opened Wrappers
  import opened Text
  import opened Numbers
  import opened IdLists

  /** `modalType`: null, 'add', 'edit' or 'delete'. */
  datatype Modal = NoModal | AddModal | EditModal | DeleteModal

  /** An id built from the clock, as in `` `c${Date.now()}` ``; `now` is the caller's reading. */
  function StampedId(prefix: char, now: nat): (id: Id)
    ensures |id| >= 2 && id[0] == prefix && id[1..] == DecimalString(now)
  {
    [prefix] + DecimalString(now)
  }

  // ---------------------------------------------------------------- categories

  datatype Category = Category(id: Id, name: string)

  function CategoryId(c: Category): Id { c.id }

  /** `c => ({ ...c, name })` */
  function RenameTo(name: string): Category -> Category {
    (c: Category) => c.(name := name)
  }

  const INITIAL_CATEGORIES: seq<Category> := [
    Category("c1", "Salario"), Category("c2", "Renta"), Category("c3", "Inversiones"),
    Category("c4", "Comida"), Category("c5", "Entretenimiento")
  ]

  /** `target` is the category the edit or delete modal was opened on; `input` the name box. */
  datatype CategoriesState = CategoriesState(
    categories: seq<Category>, modal: Modal, target: Option<Category>, input: string)

  const INITIAL_CATEGORIES_STATE := CategoriesState(INITIAL_CATEGORIES, NoModal, None, "")

  predicate CategoriesClosed(s: CategoriesState) {
    s.modal == NoModal && s.target == None && s.input == ""
  }

  function OpenAddCategory(s: CategoriesState): (r: CategoriesState)
    ensures r.modal == AddModal && r.target == None && r.input == ""
    ensures r.categories == s.categories
  {
    s.(modal := AddModal, target := None, input := "")
  }

  /** Opening the editor preloads the name box with the category's current name. */
  function OpenEditCategory(s: CategoriesState, c: Category): (r: CategoriesState)
    ensures r.modal == EditModal && r.target == Some(c) && r.input == c.name
    ensures r.categories == s.categories
  {
    s.(modal := EditModal, target := Some(c), input := c.name)
  }

  /** The delete confirmation only records the target; the name box is left as it was. */
  function OpenDeleteCategory(s: CategoriesState, c: Category): (r: CategoriesState)
    ensures r.modal == DeleteModal && r.target == Some(c) && r.input == s.input
    ensures r.categories == s.categories
  {
    s.(modal := DeleteModal, target := Some(c))
  }

  function CloseCategories(s: CategoriesState): (r: CategoriesState)
    ensures CategoriesClosed(r) && r.categories == s.categories
  {
    s.(modal := NoModal, target := None, input := "")
  }

  /** Adding: a blank name (after trimming) is ignored; otherwise exactly one category with the
      trimmed name and a clock-stamped id goes to the end and the modal closes. */
  function AddCategory(s: CategoriesState, now: nat): (r: CategoriesState)
    ensures Trim(s.input) == [] <==> r == s
    ensures Trim(s.input) != [] ==>
      && CategoriesClosed(r)
      && |r.categories| == |s.categories| + 1
      && r.categories[..|s.categories|] == s.categories
      && r.categories[|s.categories|] == Category(StampedId('c', now), Trim(s.input))
    ensures Trim(s.input) != [] ==>
      var name := r.categories[|s.categories|].name; name != [] && Trim(name) == name
  {
    var name := Trim(s.input);
    if name == [] then s
    else
      var r := CloseCategories(s.(categories := s.categories + [Category(StampedId('c', now), name)]));
      assert |r.categories| != |s.categories|;
      TrimOfTrimmed(name);
      r
  }

  /** Renaming: without a target, or with a name that trims to nothing, nothing happens;
      otherwise the list keeps its length and the modal closes. `EditCategoryAt` says what
      happens at each position. */
  function EditCategory(s: CategoriesState): (r: CategoriesState)
    ensures s.target == None || Trim(s.input) == [] ==> r == s
    ensures s.target != None && Trim(s.input) != [] ==>
      CategoriesClosed(r) && |r.categories| == |s.categories|
  {
    var name := Trim(s.input);
    if name == [] || s.target == None then s
    else
      var k := s.target.value.id;
      CloseCategories(s.(categories := Replace(s.categories, CategoryId, k, RenameTo(name))))
  }

  /** Each category carrying the target's id takes the trimmed name and keeps its id; every other
      category is untouched. */
  lemma EditCategoryAt(s: CategoriesState, i: nat)
    requires s.target != None && Trim(s.input) != [] && i < |s.categories|
    ensures var r := EditCategory(s).categories;
      && r[i].id == s.categories[i].id
      && (s.categories[i].id == s.target.value.id ==> r[i].name == Trim(s.input))
      && (s.categories[i].id != s.target.value.id ==> r[i] == s.categories[i])
  {
    ReplaceAt(s.categories, CategoryId, s.target.value.id, RenameTo(Trim(s.input)), i);
  }

  /** Deleting: without a target nothing happens; otherwise exactly the categories carrying the
      target's id leave the list (order is kept, by `IdLists.WithoutConcat`) and the modal closes. */
  function DeleteCategory(s: CategoriesState): (r: CategoriesState)
    ensures s.target == None ==> r == s
    ensures s.target != None ==>
      && CategoriesClosed(r)
      && (forall i :: 0 <= i < |r.categories| ==> r.categories[i].id != s.target.value.id)
      && (forall i :: 0 <= i < |r.categories| ==> r.categories[i] in s.categories)
      && (forall i :: 0 <= i < |s.categories| && s.categories[i].id != s.target.value.id ==>
            s.categories[i] in r.categories)
  {
    if s.target == None then s
    else CloseCategories(s.(categories := Without(s.categories, CategoryId, s.target.value.id)))
  }

  /** Opening the editor on a listed category and confirming without touching the name leaves the
      list as it was (ids are unique and the name is already trimmed and non-empty). */
  lemma EditCategoryRoundTrip(s: CategoriesState, c: Category)
    requires UniqueIds(s.categories, CategoryId) && c in s.categories
    requires c.name != [] && Trim(c.name) == c.name
    ensures EditCategory(OpenEditCategory(s, c)).categories == s.categories
  {
    var o := OpenEditCategory(s, c);
    assert !AllSpace(c.name);
    var i :| 0 <= i < |s.categories| && s.categories[i] == c;
    assert forall j :: 0 <= j < |s.categories| && s.categories[j].id == c.id ==> s.categories[j] == c
    by {
      forall j | 0 <= j < |s.categories| && s.categories[j].id == c.id
        ensures s.categories[j] == c
      {
        UniqueIdsAt(s.categories, CategoryId, i, j);
      }
    }
    ReplaceUnchanged(s.categories, CategoryId, c.id, RenameTo(c.name));
  }

  /** Adding a category under a fresh id and then deleting the added entry restores the list. */
  lemma AddThenDeleteCategory(s: CategoriesState, now: nat)
    requires Trim(s.input) != []
    requires NoneWith(s.categories, CategoryId, StampedId('c', now))
    ensures var a := AddCategory(s, now);
      DeleteCategory(OpenDeleteCategory(a, a.categories[|a.categories| - 1])).categories
        == s.categories
  {
    var a := AddCategory(s, now);
    var added := Category(StampedId('c', now), Trim(s.input));
    assert a.categories == s.categories + [added];
    AppendThenWithout(s.categories, added, CategoryId);
  }

  // ---------------------------------------------------------------- budgets

  datatype Budget = Budget(id: Id, amount: real, month: string)

  function BudgetId(b: Budget): Id { b.id }

  /** `b => ({ ...b, amount, month })` */
  function Restate(amount: real, month: string): Budget -> Budget {
    (b: Budget) => b.(amount := amount, month := month)
  }

  const INITIAL_BUDGETS: seq<Budget> := [
    Budget("b1", 0.0, "Mayo"), Budget("b2", 0.0, "Junio"), Budget("b3", 0.0, "Julio"),
    Budget("b4", 0.0, "Agosto")
  ]

  datatype BudgetsState = BudgetsState(
    budgets: seq<Budget>, modal: Modal, target: Option<Budget>,
    amountInput: string, monthInput: string)

  const INITIAL_BUDGETS_STATE := BudgetsState(INITIAL_BUDGETS, NoModal, None, "", "")

  predicate BudgetsClosed(s: BudgetsState) {
    s.modal == NoModal && s.target == None && s.amountInput == "" && s.monthInput == ""
  }

  function OpenAddBudget(s: BudgetsState): (r: BudgetsState)
    ensures r.modal == AddModal && r.target == None && r.amountInput == "" && r.monthInput == ""
    ensures r.budgets == s.budgets
  {
    s.(modal := AddModal, target := None, amountInput := "", monthInput := "")
  }

  /** The editor shows `String(amount || '')`: an empty box for a zero amount, else the number's
      rendering `show`; the month box shows the month. */
  function OpenEditBudget(s: BudgetsState, b: Budget, show: real -> string): (r: BudgetsState)
    ensures r.modal == EditModal && r.target == Some(b) && r.monthInput == b.month
    ensures b.amount == 0.0 ==> r.amountInput == ""
    ensures b.amount != 0.0 ==> r.amountInput == show(b.amount)
    ensures r.budgets == s.budgets
  {
    var shown := if b.amount == 0.0 then "" else show(b.amount);
    s.(modal := EditModal, target := Some(b), amountInput := shown, monthInput := b.month)
  }

  function OpenDeleteBudget(s: BudgetsState, b: Budget): (r: BudgetsState)
    ensures r.modal == DeleteModal && r.target == Some(b)
    ensures r.budgets == s.budgets && r.amountInput == s.amountInput && r.monthInput == s.monthInput
  {
    s.(modal := DeleteModal, target := Some(b))
  }

  function CloseBudgets(s: BudgetsState): (r: BudgetsState)
    ensures BudgetsClosed(r) && r.budgets == s.budgets
  {
    s.(modal := NoModal, target := None, amountInput := "", monthInput := "")
  }

  /** Adding: a blank month is ignored; otherwise one budget with the parsed amount (blank or
      unparsable text gives 0; there is no positivity check) and the trimmed month is appended. */
  function AddBudget(s: BudgetsState, now: nat): (r: BudgetsState)
    ensures Trim(s.monthInput) == [] <==> r == s
    ensures Trim(s.monthInput) != [] ==>
      && BudgetsClosed(r)
      && |r.budgets| == |s.budgets| + 1
      && r.budgets[..|s.budgets|] == s.budgets
      && r.budgets[|s.budgets|]
           == Budget(StampedId('b', now), ParseAmount(s.amountInput), Trim(s.monthInput))
  {
    var month := Trim(s.monthInput);
    if month == [] then s
    else
      var entry := Budget(StampedId('b', now), ParseAmount(s.amountInput), month);
      var r := CloseBudgets(s.(budgets := s.budgets + [entry]));
      assert |r.budgets| != |s.budgets|;
      r
  }

  /** Editing: the target is checked before the month; with both present the list keeps its
      length and the modal closes. `EditBudgetAt` says what happens at each position. */
  function EditBudget(s: BudgetsState): (r: BudgetsState)
    ensures s.target == None || Trim(s.monthInput) == [] ==> r == s
    ensures s.target != None && Trim(s.monthInput) != [] ==>
      BudgetsClosed(r) && |r.budgets| == |s.budgets|
  {
    if s.target == None then s
    else
      var amount := ParseAmount(s.amountInput);
      var month := Trim(s.monthInput);
      if month == [] then s
      else
        var k := s.target.value.id;
        CloseBudgets(s.(budgets := Replace(s.budgets, BudgetId, k, Restate(amount, month))))
  }

  /** Each budget carrying the target's id gets the parsed amount and the trimmed month and keeps
      its id; every other budget is untouched. */
  lemma EditBudgetAt(s: BudgetsState, i: nat)
    requires s.target != None && Trim(s.monthInput) != [] && i < |s.budgets|
    ensures var r := EditBudget(s).budgets;
      && (s.budgets[i].id == s.target.value.id ==>
            r[i] == Budget(s.budgets[i].id, ParseAmount(s.amountInput), Trim(s.monthInput)))
      && (s.budgets[i].id != s.target.value.id ==> r[i] == s.budgets[i])
  {
    var amount := ParseAmount(s.amountInput);
    ReplaceAt(s.budgets, BudgetId, s.target.value.id, Restate(amount, Trim(s.monthInput)), i);
  }

  function DeleteBudget(s: BudgetsState): (r: BudgetsState)
    ensures s.target == None ==> r == s
    ensures s.target != None ==>
      && BudgetsClosed(r)
      && (forall i :: 0 <= i < |r.budgets| ==> r.budgets[i].id != s.target.value.id)
      && (forall i :: 0 <= i < |r.budgets| ==> r.budgets[i] in s.budgets)
      && (forall i :: 0 <= i < |s.budgets| && s.budgets[i].id != s.target.value.id ==>
            s.budgets[i] in r.budgets)
  {
    if s.target == None then s
    else CloseBudgets(s.(budgets := Without(s.budgets, BudgetId, s.target.value.id)))
  }

  /** Opening the editor on a listed budget and confirming unchanged inputs leaves the list as it
      was, provided the rendering `show` of a non-zero amount reads back as that amount. */
  lemma EditBudgetRoundTrip(s: BudgetsState, b: Budget, show: real -> string)
    requires UniqueIds(s.budgets, BudgetId) && b in s.budgets
    requires b.month != [] && Trim(b.month) == b.month
    requires b.amount != 0.0 ==> ParseFloat(show(b.amount)) == Fin(b.amount)
    ensures EditBudget(OpenEditBudget(s, b, show)).budgets == s.budgets
  {
    var o := OpenEditBudget(s, b, show);
    assert ParseAmount(o.amountInput) == b.amount by {
      ParseFloatEmpty();
    }
    var i :| 0 <= i < |s.budgets| && s.budgets[i] == b;
    forall j | 0 <= j < |s.budgets| && BudgetId(s.budgets[j]) == b.id
      ensures Restate(b.amount, b.month)(s.budgets[j]) == s.budgets[j]
    {
      UniqueIdsAt(s.budgets, BudgetId, i, j);
    }
    ReplaceUnchanged(s.budgets, BudgetId, b.id, Restate(b.amount, b.month));
  }

  /** No amount validation: text that is not a number still adds a budget, with amount 0. */
  lemma UnparsableAmountAddsZero(s: BudgetsState, now: nat)
    requires s.amountInput == "abc" && s.monthInput == "Mayo"
    ensures var r := AddBudget(s, now);
      |r.budgets| == |s.budgets| + 1 && r.budgets[|s.budgets|].amount == 0.0
      && r.budgets[|s.budgets|].month == "Mayo"
  {
    ParseFloatLetters();
    TrimOfTrimmed("Mayo");
    assert !AllSpace("Mayo") by { assert !IsSpace("Mayo"[0]); }
  }

  /** Adding a budget under a fresh id and then deleting the added entry restores the list. */
  lemma AddThenDeleteBudget(s: BudgetsState, now: nat)
    requires Trim(s.monthInput) != []
    requires NoneWith(s.budgets, BudgetId, StampedId('b', now))
    ensures var a := AddBudget(s, now);
      DeleteBudget(OpenDeleteBudget(a, a.budgets[|a.budgets| - 1])).budgets == s.budgets
  {
    var a := AddBudget(s, now);
    var added := Budget(StampedId('b', now), ParseAmount(s.amountInput), Trim(s.monthInput));
    assert a.budgets == s.budgets + [added];
    AppendThenWithout(s.budgets, added, BudgetId);
  }
}
