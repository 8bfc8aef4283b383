/** The aggregation behind src/screens/placeholders/ChartsScreen.js: category totals, pie
    slices with a cycling palette, the mode-dependent dataset and total, and the merged
    income/expense table of the general mode. */
module Charts {
  import opened Wrappers
  import opened Numbers
  import opened OrderedMaps

  /** One `{category, amount}` entry of the income or expense list. */
  datatype Entry = Entry(category: string, amount: Num)

  /** `Number(amount) || 0` (and `amount || 0`) on a numeric amount. */
  function Amount(e: Entry): real {
    OrZero(e.amount)
  }

  /** `sum(arr)`: the amounts added up, a NaN or missing amount counting as 0. */
  function Sum(es: seq<Entry>): (r: real)
    ensures es == [] ==> r == 0.0
    ensures (forall i :: 0 <= i < |es| ==> Amount(es[i]) >= 0.0) ==> r >= 0.0
  {
    if es == [] then 0.0 else Sum(es[..|es| - 1]) + Amount(es[|es| - 1])
  }

  /** `sum` distributes over concatenation. */
  lemma {:induction false} SumAppend(a: seq<Entry>, b: seq<Entry>)
    ensures Sum(a + b) == Sum(a) + Sum(b)
    decreases |b|
  {
    if b == [] {
      assert a + b == a;
    } else {
      assert (a + b)[..|a + b| - 1] == a + b[..|b| - 1];
      assert (a + b)[|a + b| - 1] == b[|b| - 1];
      SumAppend(a, b[..|b| - 1]);
    }
  }

  // ---- pie data ----

  const PALETTE: seq<string> := ["#6FA8DC", "#93C47D", "#76A5AF", "#C9DAF8", "#A4C2F4", "#9FC5E8", "#B4A7D6"]
  const INCOME_COLOR: string := "#3DBE7A"
  const EXPENSE_COLOR: string := "#E76E6E"

  datatype Slice = Slice(value: real, color: string, text: string)

  /** `toPieData(arr)`: one slice per entry, in order, coloured by position modulo the palette. */
  function ToPieData(es: seq<Entry>): (r: seq<Slice>)
    ensures |r| == |es|
    ensures forall i :: 0 <= i < |es| ==>
      r[i].value == Amount(es[i]) && r[i].text == es[i].category && r[i].color == PALETTE[i % |PALETTE|]
  {
    seq(|es|, i requires 0 <= i < |es| => Slice(Amount(es[i]), PALETTE[i % |PALETTE|], es[i].category))
  }

  function SliceTotal(ss: seq<Slice>): real {
    if ss == [] then 0.0 else SliceTotal(ss[..|ss| - 1]) + ss[|ss| - 1].value
  }

  /** The slices of a list add up to its `sum`, so the chart's centre label matches its slices. */
  lemma {:induction false} PieTotal(es: seq<Entry>)
    ensures SliceTotal(ToPieData(es)) == Sum(es)
  {
    if es != [] {
      var init := es[..|es| - 1];
      assert ToPieData(es)[..|es| - 1] == ToPieData(init);
      PieTotal(init);
    }
  }

  /** Colours repeat every seven slices. */
  lemma PaletteCycles(es: seq<Entry>, i: nat)
    requires i + |PALETTE| < |es|
    ensures ToPieData(es)[i].color == ToPieData(es)[i + |PALETTE|].color
  {
    assert (i + |PALETTE|) % |PALETTE| == i % |PALETTE|;
  }

  // ---- modes ----

  datatype Mode = IncomeMode | ExpenseMode | GeneralMode

  /** The two-slice dataset of the general mode. */
  function GeneralData(incomeTotal: real, expenseTotal: real): (r: seq<Slice>)
    ensures |r| == 2 && r[0].text == "Ingresos" && r[1].text == "Gastos"
    ensures r[0].value == incomeTotal && r[1].value == expenseTotal
    ensures r[0].color == INCOME_COLOR && r[1].color == EXPENSE_COLOR
  {
    [Slice(incomeTotal, INCOME_COLOR, "Ingresos"), Slice(expenseTotal, EXPENSE_COLOR, "Gastos")]
  }

  function CurrentData(mode: Mode, incomes: seq<Entry>, expenses: seq<Entry>): (r: seq<Slice>)
    ensures mode == IncomeMode ==> r == ToPieData(incomes)
    ensures mode == ExpenseMode ==> r == ToPieData(expenses)
    ensures mode == GeneralMode ==> r == GeneralData(Sum(incomes), Sum(expenses))
  {
    match mode
    case IncomeMode => ToPieData(incomes)
    case ExpenseMode => ToPieData(expenses)
    case GeneralMode => GeneralData(Sum(incomes), Sum(expenses))
  }

  lemma GeneralTotal(incomeTotal: real, expenseTotal: real)
    ensures SliceTotal(GeneralData(incomeTotal, expenseTotal)) == incomeTotal + expenseTotal
  {
    var g := GeneralData(incomeTotal, expenseTotal);
    assert g[..1][..0] == [] && g[..1] == [g[0]];
    assert SliceTotal(g[..1]) == incomeTotal;
  }

  /** The total shown in the chart's centre: the income sum, the expense sum, or both added. */
  function CurrentTotal(mode: Mode, incomes: seq<Entry>, expenses: seq<Entry>): (t: real)
    ensures t == SliceTotal(CurrentData(mode, incomes, expenses))
  {
    PieTotal(incomes);
    PieTotal(expenses);
    GeneralTotal(Sum(incomes), Sum(expenses));
    match mode
    case IncomeMode => Sum(incomes)
    case ExpenseMode => Sum(expenses)
    case GeneralMode => Sum(incomes) + Sum(expenses)
  }

  /** The balance on the summary card: income total minus expense total. It is what the income
      pie and the expense pie show in their centres, and the difference of their slices. */
  function Balance(incomes: seq<Entry>, expenses: seq<Entry>): (b: real)
    ensures b + Sum(expenses) == Sum(incomes)
    ensures b == CurrentTotal(IncomeMode, incomes, expenses) - CurrentTotal(ExpenseMode, incomes, expenses)
    ensures b == SliceTotal(ToPieData(incomes)) - SliceTotal(ToPieData(expenses))
    ensures b == SliceTotal(CurrentData(GeneralMode, incomes, expenses)) - 2.0 * Sum(expenses)
  {
    PieTotal(incomes);
    PieTotal(expenses);
    GeneralTotal(Sum(incomes), Sum(expenses));
    Sum(incomes) - Sum(expenses)
  }

  // ---- table ----

  /** One table row; `income` and `expense` are the displayed `x || 0` values. */
  datatype Row = Row(category: string, income: real, expense: real)

  function Categories(es: seq<Entry>): (cs: seq<string>)
    ensures |cs| == |es|
    ensures forall i :: 0 <= i < |es| ==> cs[i] == es[i].category
  {
    seq(|es|, i requires 0 <= i < |es| => es[i].category)
  }

  lemma CategoriesSnoc(es: seq<Entry>)
    requires es != []
    ensures Categories(es) == Categories(es[..|es| - 1]) + [es[|es| - 1].category]
    ensures forall c :: c in Categories(es) <==> c in Categories(es[..|es| - 1]) || c == es[|es| - 1].category
  {
    assert Categories(es) == Categories(es[..|es| - 1]) + [es[|es| - 1].category];
  }

  lemma CategoriesSnocIn(es: seq<Entry>, c: string)
    requires es != []
    ensures c in Categories(es) <==> c in Categories(es[..|es| - 1]) || c == es[|es| - 1].category
  {
    CategoriesSnoc(es);
  }

  /** The summed amounts of the entries of category `c`. */
  function SumWhere(es: seq<Entry>, c: string): real {
    if es == [] then 0.0
    else SumWhere(es[..|es| - 1], c) + (if es[|es| - 1].category == c then Amount(es[|es| - 1]) else 0.0)
  }

  /** The amount of the last entry of category `c`, or 0 when there is none. */
  function LastAmount(es: seq<Entry>, c: string): real {
    if es == [] then 0.0
    else if es[|es| - 1].category == c then Amount(es[|es| - 1])
    else LastAmount(es[..|es| - 1], c)
  }

  /** The map after the incomes loop: each income sets its category's row afresh. */
  function IncomePass(incomes: seq<Entry>): (m: seq<(string, Row)>)
    ensures Keys(m) == AppendAll([], Categories(incomes))
    ensures DistinctKeys(m)
    ensures |m| <= |incomes|
  {
    if incomes == [] then []
    else
      var e := incomes[|incomes| - 1];
      var prev := IncomePass(incomes[..|incomes| - 1]);
      assert Categories(incomes[..|incomes| - 1]) == Categories(incomes)[..|incomes| - 1];
      DistinctPut(prev, e.category, Row(e.category, Amount(e), 0.0));
      KeysPut(prev, e.category, Row(e.category, Amount(e), 0.0));
      Put(prev, e.category, Row(e.category, Amount(e), 0.0))
  }

  /** The row an expense updates: the one in the map, or a fresh one. */
  function Base(m: seq<(string, Row)>, c: string): Row {
    Get(m, c).GetOr(Row(c, 0.0, 0.0))
  }

  /** One step of the expenses loop: add the amount to the category's row, creating it if needed. */
  function AddExpense(m: seq<(string, Row)>, e: Entry): (r: seq<(string, Row)>)
    ensures Keys(r) == AppendNew(Keys(m), e.category)
  {
    var cur := Base(m, e.category);
    KeysPut(m, e.category, cur.(expense := cur.expense + Amount(e)));
    Put(m, e.category, cur.(expense := cur.expense + Amount(e)))
  }

  /** The expenses loop: it only ever adds rows, at most one per expense. */
  function ExpensePass(m: seq<(string, Row)>, expenses: seq<Entry>): (r: seq<(string, Row)>)
    ensures |m| <= |r| <= |m| + |expenses|
  {
    if expenses == [] then m
    else AddExpense(ExpensePass(m, expenses[..|expenses| - 1]), expenses[|expenses| - 1])
  }

  /** The expenses loop adds the new categories in first-occurrence order. */
  lemma {:induction false} ExpensePassKeys(m: seq<(string, Row)>, expenses: seq<Entry>)
    ensures Keys(ExpensePass(m, expenses)) == AppendAll(Keys(m), Categories(expenses))
  {
    if expenses != [] {
      assert Categories(expenses[..|expenses| - 1]) == Categories(expenses)[..|expenses| - 1];
      ExpensePassKeys(m, expenses[..|expenses| - 1]);
    }
  }

  /** `mergeForGeneral(incomes, expenses)`: one row per distinct category of either list;
      `MergeForGeneralRows` says what each row holds. */
  function MergeForGeneral(incomes: seq<Entry>, expenses: seq<Entry>): (rows: seq<Row>)
    ensures |rows| == |MergedCategories(incomes, expenses)|
    ensures |rows| <= |incomes| + |expenses|
  {
    MergedKeys(incomes, expenses);
    Values(ExpensePass(IncomePass(incomes), expenses))
  }

  lemma {:induction false} IncomePassGet(incomes: seq<Entry>, c: string)
    ensures Get(IncomePass(incomes), c) ==
      if c in Categories(incomes) then Some(Row(c, LastAmount(incomes, c), 0.0)) else None
  {
    if incomes != [] {
      var e := incomes[|incomes| - 1];
      var init := incomes[..|incomes| - 1];
      IncomePassGet(init, c);
      GetPut(IncomePass(init), e.category, Row(e.category, Amount(e), 0.0), c);
      CategoriesSnoc(incomes);
    }
  }

  /** The row of `c` after the expenses loop, as a function of the row before it. */
  function AfterExpenses(m: seq<(string, Row)>, expenses: seq<Entry>, c: string): Option<Row> {
    if c in Categories(expenses) then Some(Base(m, c).(expense := Base(m, c).expense + SumWhere(expenses, c)))
    else Get(m, c)
  }

  lemma {:induction false} ExpensePassGet(m: seq<(string, Row)>, expenses: seq<Entry>, c: string)
    ensures Get(ExpensePass(m, expenses), c) == AfterExpenses(m, expenses, c)
  {
    if expenses != [] {
      var e := expenses[|expenses| - 1];
      var init := expenses[..|expenses| - 1];
      ExpensePassGet(m, init, c);
      CategoriesSnoc(expenses);
      if c != e.category {
        ExpenseOtherCategory(m, expenses, c);
      } else if c in Categories(init) {
        ExpenseSeenCategory(m, expenses, c);
      } else {
        ExpenseNewCategory(m, expenses, c);
      }
    }
  }

  lemma ExpenseOtherCategory(m: seq<(string, Row)>, expenses: seq<Entry>, c: string)
    requires expenses != [] && c != expenses[|expenses| - 1].category
    requires Get(ExpensePass(m, expenses[..|expenses| - 1]), c) == AfterExpenses(m, expenses[..|expenses| - 1], c)
    ensures Get(ExpensePass(m, expenses), c) == AfterExpenses(m, expenses, c)
  {
    var e, init := expenses[|expenses| - 1], expenses[..|expenses| - 1];
    var prev := ExpensePass(m, init);
    assert ExpensePass(m, expenses) == AddExpense(prev, e);
    AddExpenseGet(prev, e, c);
    AfterOtherExpense(m, expenses, c);
  }

  /** An expense of another category leaves the expected row of `c` alone. */
  lemma AfterOtherExpense(m: seq<(string, Row)>, expenses: seq<Entry>, c: string)
    requires expenses != [] && c != expenses[|expenses| - 1].category
    ensures AfterExpenses(m, expenses, c) == AfterExpenses(m, expenses[..|expenses| - 1], c)
  {
    CategoriesSnocIn(expenses, c);
    assert SumWhere(expenses, c) == SumWhere(expenses[..|expenses| - 1], c);
  }

  lemma ExpenseSeenCategory(m: seq<(string, Row)>, expenses: seq<Entry>, c: string)
    requires expenses != [] && c == expenses[|expenses| - 1].category
    requires c in Categories(expenses[..|expenses| - 1])
    requires Get(ExpensePass(m, expenses[..|expenses| - 1]), c) == AfterExpenses(m, expenses[..|expenses| - 1], c)
    ensures Get(ExpensePass(m, expenses), c) == AfterExpenses(m, expenses, c)
  {
    var e, init := expenses[|expenses| - 1], expenses[..|expenses| - 1];
    var prev := ExpensePass(m, init);
    assert ExpensePass(m, expenses) == AddExpense(prev, e);
    CategoriesSnocIn(expenses, c);
    AddExpenseGet(prev, e, c);
    assert SumWhere(expenses, c) == SumWhere(init, c) + Amount(e);
  }

  lemma ExpenseNewCategory(m: seq<(string, Row)>, expenses: seq<Entry>, c: string)
    requires expenses != [] && c == expenses[|expenses| - 1].category
    requires c !in Categories(expenses[..|expenses| - 1])
    requires Get(ExpensePass(m, expenses[..|expenses| - 1]), c) == AfterExpenses(m, expenses[..|expenses| - 1], c)
    ensures Get(ExpensePass(m, expenses), c) == AfterExpenses(m, expenses, c)
  {
    var e, init := expenses[|expenses| - 1], expenses[..|expenses| - 1];
    var prev := ExpensePass(m, init);
    assert ExpensePass(m, expenses) == AddExpense(prev, e);
    CategoriesSnocIn(expenses, c);
    AddExpenseGet(prev, e, c);
    SumWhereAbsent(init, c);
    assert SumWhere(expenses, c) == Amount(e);
  }

  lemma AddExpenseGet(m: seq<(string, Row)>, e: Entry, c: string)
    ensures Get(AddExpense(m, e), c) ==
      if c == e.category then Some(Base(m, c).(expense := Base(m, c).expense + Amount(e))) else Get(m, c)
  {
    var cur := Base(m, e.category);
    GetPut(m, e.category, cur.(expense := cur.expense + Amount(e)), c);
  }

  lemma {:induction false} SumWhereAbsent(es: seq<Entry>, c: string)
    requires c !in Categories(es)
    ensures SumWhere(es, c) == 0.0
  {
    if es != [] {
      CategoriesSnoc(es);
      SumWhereAbsent(es[..|es| - 1], c);
    }
  }

  lemma {:induction false} LastAmountAbsent(es: seq<Entry>, c: string)
    requires c !in Categories(es)
    ensures LastAmount(es, c) == 0.0
  {
    if es != [] {
      CategoriesSnoc(es);
      LastAmountAbsent(es[..|es| - 1], c);
    }
  }

  /** The distinct categories of both lists, in first-occurrence order. */
  function MergedCategories(incomes: seq<Entry>, expenses: seq<Entry>): seq<string> {
    AppendAll([], Categories(incomes) + Categories(expenses))
  }

  lemma MergedKeys(incomes: seq<Entry>, expenses: seq<Entry>)
    ensures var m := ExpensePass(IncomePass(incomes), expenses);
      Keys(m) == MergedCategories(incomes, expenses) && DistinctKeys(m) && Distinct(Keys(m))
  {
    var m := ExpensePass(IncomePass(incomes), expenses);
    AppendAllConcat([], Categories(incomes), Categories(expenses));
    AppendAllDistinct([], Categories(incomes) + Categories(expenses));
    ExpensePassKeys(IncomePass(incomes), expenses);
    forall i, j | 0 <= i < j < |m| ensures m[i].0 != m[j].0 {
      assert Keys(m)[i] == m[i].0 && Keys(m)[j] == m[j].0;
    }
  }

  lemma MergedMembership(incomes: seq<Entry>, expenses: seq<Entry>, c: string)
    ensures c in MergedCategories(incomes, expenses) <==> c in Categories(incomes) || c in Categories(expenses)
  {
    var all := Categories(incomes) + Categories(expenses);
    var cats := MergedCategories(incomes, expenses);
    if c in cats {
      var i :| 0 <= i < |cats| && cats[i] == c;
    }
    if c in all {
      var i :| 0 <= i < |all| && all[i] == c;
    }
  }

  lemma MergedRow(incomes: seq<Entry>, expenses: seq<Entry>, c: string)
    requires c in Categories(incomes) || c in Categories(expenses)
    ensures Get(ExpensePass(IncomePass(incomes), expenses), c)
      == Some(Row(c, LastAmount(incomes, c), SumWhere(expenses, c)))
  {
    ExpensePassGet(IncomePass(incomes), expenses, c);
    IncomePassGet(incomes, c);
    if c !in Categories(expenses) { SumWhereAbsent(expenses, c); }
    if c !in Categories(incomes) { LastAmountAbsent(incomes, c); }
  }

  /** The merged table has exactly one row per category of either list: the income
      categories in first-occurrence order, then the expense-only ones in first-occurrence
      order. A row's income is the LAST income of its category (duplicates overwrite), or 0;
      its expense is the SUM of the expenses of its category. */
  lemma MergeForGeneralRows(incomes: seq<Entry>, expenses: seq<Entry>)
    ensures var rows := MergeForGeneral(incomes, expenses);
      var cats := MergedCategories(incomes, expenses);
      && Distinct(cats)
      && (forall c :: c in cats <==> c in Categories(incomes) || c in Categories(expenses))
      && |rows| == |cats|
      && forall i :: 0 <= i < |rows| ==>
           rows[i] == Row(cats[i], LastAmount(incomes, cats[i]), SumWhere(expenses, cats[i]))
  {
    var m := ExpensePass(IncomePass(incomes), expenses);
    var cats := MergedCategories(incomes, expenses);
    MergedKeys(incomes, expenses);
    forall c ensures c in cats <==> c in Categories(incomes) || c in Categories(expenses) {
      MergedMembership(incomes, expenses, c);
    }
    forall i | 0 <= i < |m|
      ensures m[i].1 == Row(cats[i], LastAmount(incomes, cats[i]), SumWhere(expenses, cats[i]))
    {
      assert m[i].0 == cats[i] by { assert Keys(m)[i] == m[i].0; }
      assert cats[i] in cats;
      GetAt(m, i);
      MergedRow(incomes, expenses, cats[i]);
    }
  }

  /** The rows the table shows in each mode. */
  function TableRows(mode: Mode, incomes: seq<Entry>, expenses: seq<Entry>): (rows: seq<Row>)
    ensures mode == IncomeMode ==> |rows| == |incomes| && forall i :: 0 <= i < |incomes| ==>
      rows[i] == Row(incomes[i].category, Amount(incomes[i]), 0.0)
    ensures mode == ExpenseMode ==> |rows| == |expenses| && forall i :: 0 <= i < |expenses| ==>
      rows[i] == Row(expenses[i].category, 0.0, Amount(expenses[i]))
    ensures mode == GeneralMode ==> rows == MergeForGeneral(incomes, expenses)
  {
    match mode
    case IncomeMode => seq(|incomes|, i requires 0 <= i < |incomes| => Row(incomes[i].category, Amount(incomes[i]), 0.0))
    case ExpenseMode => seq(|expenses|, i requires 0 <= i < |expenses| => Row(expenses[i].category, 0.0, Amount(expenses[i])))
    case GeneralMode => MergeForGeneral(incomes, expenses)
  }
}
