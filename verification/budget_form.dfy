/** The add/edit budget form of src/screens/AddEditBudgetScreen.js: normalising the category
    list the server returns, the name-to-id index, preselecting a category, the initial form
    fields, and the checks and request body of `save`. */
module BudgetForm {
  import opened Wrappers
  import opened Numbers
  import opened Js
  import opened OrderedMaps
  import Api

  const MONTHS: seq<string> := ["Enero", "Febrero", "Marzo", "Abril", "Mayo", "Junio", "Julio",
    "Agosto", "Septiembre", "Octubre", "Noviembre", "Diciembre"]

  /** A category as the form keeps it: both fields are whatever the server sent. */
  datatype Category = Category(id: Value, name: Value)

  const ID_ALIASES: seq<string> := ["id", "ID", "Id", "id_category", "idCategory"]
  const NAME_ALIASES: seq<string> := ["name", "Nombre", "nombre"]

  // ---- normalisation ----

  /** `keys[i]` is the first of `keys` that `x` has a non-nullish value for. */
  predicate FirstPresentAt(x: Value, keys: seq<string>, i: nat) {
    i < |keys| && !Nullish(Prop(x, keys[i])) && forall j :: 0 <= j < i ==> Nullish(Prop(x, keys[j]))
  }

  predicate NonePresent(x: Value, keys: seq<string>) {
    forall j :: 0 <= j < |keys| ==> Nullish(Prop(x, keys[j]))
  }

  /** The record one server entry maps to: the first non-nullish id alias, and the first
      non-nullish name alias or else the text of the raw `id` field. */
  function NormaliseOne(x: Value, show: real -> string): (c: Category)
    ensures forall i: nat :: FirstPresentAt(x, ID_ALIASES, i) ==> c.id == Prop(x, ID_ALIASES[i])
    ensures NonePresent(x, ID_ALIASES) ==> Nullish(c.id)
    ensures forall i: nat :: FirstPresentAt(x, NAME_ALIASES, i) ==> c.name == Prop(x, NAME_ALIASES[i])
    ensures NonePresent(x, NAME_ALIASES) ==> c.name == Str(ToStr(Prop(x, "id"), show))
  {
    var id := Coalesce(Prop(x, "id"), Coalesce(Prop(x, "ID"), Coalesce(Prop(x, "Id"),
              Coalesce(Prop(x, "id_category"), Prop(x, "idCategory")))));
    var name := Coalesce(Prop(x, "name"), Coalesce(Prop(x, "Nombre"), Coalesce(Prop(x, "nombre"),
                Str(ToStr(Prop(x, "id"), show)))));
    IdAliasOrder(x, id);
    NameAliasOrder(x, name, show);
    Category(id, name)
  }

  /** `??` tries the id aliases in order. */
  lemma IdAliasOrder(x: Value, id: Value)
    requires id == Coalesce(Prop(x, "id"), Coalesce(Prop(x, "ID"), Coalesce(Prop(x, "Id"),
              Coalesce(Prop(x, "id_category"), Prop(x, "idCategory")))))
    ensures forall i: nat :: FirstPresentAt(x, ID_ALIASES, i) ==> id == Prop(x, ID_ALIASES[i])
    ensures NonePresent(x, ID_ALIASES) ==> Nullish(id)
  {
    forall i: nat | FirstPresentAt(x, ID_ALIASES, i) ensures id == Prop(x, ID_ALIASES[i]) {
      assert i == 0 || Nullish(Prop(x, ID_ALIASES[0]));
      assert i <= 1 || Nullish(Prop(x, ID_ALIASES[1]));
      assert i <= 2 || Nullish(Prop(x, ID_ALIASES[2]));
      assert i <= 3 || Nullish(Prop(x, ID_ALIASES[3]));
    }
    if NonePresent(x, ID_ALIASES) {
      assert Nullish(Prop(x, ID_ALIASES[4]));
      assert Nullish(Prop(x, ID_ALIASES[3]));
      assert Nullish(Prop(x, ID_ALIASES[2]));
      assert Nullish(Prop(x, ID_ALIASES[1]));
      assert Nullish(Prop(x, ID_ALIASES[0]));
    }
  }

  /** `??` tries the name aliases in order, then falls back to the text of the raw id. */
  lemma NameAliasOrder(x: Value, name: Value, show: real -> string)
    requires name == Coalesce(Prop(x, "name"), Coalesce(Prop(x, "Nombre"), Coalesce(Prop(x, "nombre"),
                Str(ToStr(Prop(x, "id"), show)))))
    ensures forall i: nat :: FirstPresentAt(x, NAME_ALIASES, i) ==> name == Prop(x, NAME_ALIASES[i])
    ensures NonePresent(x, NAME_ALIASES) ==> name == Str(ToStr(Prop(x, "id"), show))
  {
    forall i: nat | FirstPresentAt(x, NAME_ALIASES, i) ensures name == Prop(x, NAME_ALIASES[i]) {
      assert i == 0 || Nullish(Prop(x, NAME_ALIASES[0]));
      assert i <= 1 || Nullish(Prop(x, NAME_ALIASES[1]));
    }
    if NonePresent(x, NAME_ALIASES) {
      assert Nullish(Prop(x, NAME_ALIASES[2]));
      assert Nullish(Prop(x, NAME_ALIASES[1]));
      assert Nullish(Prop(x, NAME_ALIASES[0]));
    }
  }

  /** The record an entry contributes: none when its id is nullish. */
  function Kept(x: Value, show: real -> string): (r: seq<Category>)
    ensures |r| <= 1
    ensures forall i :: 0 <= i < |r| ==> !Nullish(r[i].id)
  {
    var c := NormaliseOne(x, show);
    if Nullish(c.id) then [] else [c]
  }

  predicate HasNullish(xs: seq<Value>) {
    exists i :: 0 <= i < |xs| && Nullish(xs[i])
  }

  /** Mapping and filtering the elements of the server's array; `None` when an element is null
      or undefined, where reading `x.id` throws and the whole load is abandoned. */
  function NormaliseList(xs: seq<Value>, show: real -> string): (r: Option<seq<Category>>)
    ensures r.None? <==> HasNullish(xs)
    ensures r.Some? ==> |r.value| <= |xs| && forall i :: 0 <= i < |r.value| ==> !Nullish(r.value[i].id)
  {
    if xs == [] then Some([])
    else if Nullish(xs[0]) then None
    else
      var rest := NormaliseList(xs[1..], show);
      assert HasNullish(xs[1..]) ==> HasNullish(xs) by {
        if HasNullish(xs[1..]) {
          var i :| 0 <= i < |xs[1..]| && Nullish(xs[1..][i]);
          assert xs[i + 1] == xs[1..][i];
        }
      }
      assert HasNullish(xs) ==> HasNullish(xs[1..]) by {
        if HasNullish(xs) {
          var i :| 0 <= i < |xs| && Nullish(xs[i]);
          assert i > 0 && xs[1..][i - 1] == xs[i];
        }
      }
      if rest.None? then None
      else Some(Kept(xs[0], show) + rest.value)
  }

  /** The category list the form ends up with: the normalised array, or empty for anything
      that is not an array. */
  function Normalise(list: Value, show: real -> string): (r: Option<seq<Category>>)
    ensures !list.Arr? ==> r == Some([])
    ensures list.Arr? ==> r == NormaliseList(list.elems, show)
  {
    if list.Arr? then NormaliseList(list.elems, show) else Some([])
  }

  /** Normalisation works element by element: it maps concatenation to concatenation, so the
      input order is kept, and a single entry is kept exactly when its id is not nullish. */
  lemma {:induction false} NormaliseConcat(a: seq<Value>, b: seq<Value>, show: real -> string)
    requires !HasNullish(a) && !HasNullish(b)
    ensures NormaliseList(a + b, show) == Some(NormaliseList(a, show).value + NormaliseList(b, show).value)
  {
    if a == [] {
      assert a + b == b;
      assert NormaliseList(a, show).value == [];
      assert [] + NormaliseList(b, show).value == NormaliseList(b, show).value;
    } else {
      assert NormaliseList(a[1..], show).Some?;
      assert !HasNullish(a[1..]);
      NormaliseConcat(a[1..], b, show);
      ConcatStep(a, b, show);
    }
  }

  lemma ConcatStep(a: seq<Value>, b: seq<Value>, show: real -> string)
    requires a != [] && NormaliseList(a, show).Some? && NormaliseList(b, show).Some?
    requires NormaliseList(a[1..], show).Some?
    requires NormaliseList(a[1..] + b, show) == Some(NormaliseList(a[1..], show).value + NormaliseList(b, show).value)
    ensures NormaliseList(a + b, show) == Some(NormaliseList(a, show).value + NormaliseList(b, show).value)
  {
    TailOfConcat(a, b);
    var k, ra, rb := Kept(a[0], show), NormaliseList(a[1..], show).value, NormaliseList(b, show).value;
    assert NormaliseList(a, show).value == k + ra;
    assert NormaliseList(a + b, show) == Some(k + (ra + rb));
    Associative(k, ra, rb);
  }

  lemma TailOfConcat<T>(a: seq<T>, b: seq<T>)
    requires a != []
    ensures (a + b)[0] == a[0] && (a + b)[1..] == a[1..] + b
  {
  }

  lemma Associative<T>(a: seq<T>, b: seq<T>, c: seq<T>)
    ensures a + (b + c) == (a + b) + c
  {
  }

  lemma NormaliseSingle(x: Value, show: real -> string)
    requires !Nullish(x)
    ensures var c := NormaliseOne(x, show);
      NormaliseList([x], show) == Some(if Nullish(c.id) then [] else [c])
  {
    assert [x][1..] == [];
    assert NormaliseList([], show) == Some([]);
    assert Kept(x, show) + [] == Kept(x, show);
  }

  /** An alias-keyed entry `{ID: 5, Nombre: "Renta"}` normalises to `{id: 5, name: "Renta"}`. */
  lemma AliasKeyedEntry(show: real -> string)
    ensures Normalise(Arr([Obj([("ID", Number(Fin(5.0))), ("Nombre", Str("Renta"))])]), show)
      == Some([Category(Number(Fin(5.0)), Str("Renta"))])
  {
    var x := Obj([("ID", Number(Fin(5.0))), ("Nombre", Str("Renta"))]);
    assert Prop(x, "Nombre") == Str("Renta");
    assert Prop(x, "ID") == Number(Fin(5.0));
    assert Prop(x, "id").Undefined? && Prop(x, "name").Undefined?;
    NormaliseSingle(x, show);
  }

  /** Without a name alias, the name falls back to the raw `id` field, not to the resolved id:
      `{ID: 5}` is named "undefined". */
  lemma NameFallsBackToRawId(show: real -> string)
    ensures Normalise(Arr([Obj([("ID", Number(Fin(5.0)))])]), show)
      == Some([Category(Number(Fin(5.0)), Str("undefined"))])
  {
    var x := Obj([("ID", Number(Fin(5.0)))]);
    assert Prop(x, "ID") == Number(Fin(5.0));
    NormaliseSingle(x, show);
  }

  // ---- name index ----

  function NamePairs(cats: seq<Category>): (ps: seq<(Value, Value)>)
    ensures |ps| == |cats|
    ensures forall i :: 0 <= i < |cats| ==> ps[i] == (cats[i].name, cats[i].id)
  {
    seq(|cats|, i requires 0 <= i < |cats| => (cats[i].name, cats[i].id))
  }

  /** No category after position `i` has the name of category `i`. */
  predicate IsLastWithName(cats: seq<Category>, i: int) {
    0 <= i < |cats| && forall j :: i < j < |cats| ==> cats[j].name != cats[i].name
  }

  /** The `nameToId` map: each name maps to the id of the LAST category carrying it. */
  function NameToId(cats: seq<Category>): (m: seq<(Value, Value)>)
    ensures DistinctKeys(m)
    ensures forall n :: Get(m, n).None? <==> forall i :: 0 <= i < |cats| ==> cats[i].name != n
    ensures forall i :: IsLastWithName(cats, i) ==> Get(m, cats[i].name) == Some(cats[i].id)
  {
    NameIndex(cats);
    PutAll([], NamePairs(cats))
  }

  lemma NameIndex(cats: seq<Category>)
    ensures var m := PutAll([], NamePairs(cats));
      && DistinctKeys(m)
      && (forall n :: Get(m, n).None? <==> forall i :: 0 <= i < |cats| ==> cats[i].name != n)
      && (forall i :: IsLastWithName(cats, i) ==> Get(m, cats[i].name) == Some(cats[i].id))
  {
    DistinctPutAll([], NamePairs(cats));
    forall i | IsLastWithName(cats, i) ensures Get(PutAll([], NamePairs(cats)), cats[i].name) == Some(cats[i].id) {
      NameIndexLast(cats, i);
    }
    forall n ensures Get(PutAll([], NamePairs(cats)), n).None? <==> forall i :: 0 <= i < |cats| ==> cats[i].name != n {
      NameIndexAbsent(cats, n);
    }
  }

  lemma NameIndexLast(cats: seq<Category>, i: int)
    requires IsLastWithName(cats, i)
    ensures Get(PutAll([], NamePairs(cats)), cats[i].name) == Some(cats[i].id)
  {
    var ps := NamePairs(cats);
    GetPutAll([], ps, cats[i].name);
    LastValueAt(ps, cats[i].name, i);
    assert Keys(ps)[i] == cats[i].name;
  }

  lemma NameIndexAbsent(cats: seq<Category>, n: Value)
    ensures Get(PutAll([], NamePairs(cats)), n).None? <==> forall i :: 0 <= i < |cats| ==> cats[i].name != n
  {
    var ps := NamePairs(cats);
    GetPutAll([], ps, n);
    if n in Keys(ps) {
      var i :| 0 <= i < |ps| && Keys(ps)[i] == n;
      assert cats[i].name == n;
    } else {
      forall i | 0 <= i < |cats| ensures cats[i].name != n {
        assert Keys(ps)[i] == cats[i].name;
      }
    }
  }

  /** `nameToId.get(name)` as a JavaScript value. */
  function LookupId(cats: seq<Category>, name: Value): (v: Value)
    ensures (forall i :: 0 <= i < |cats| ==> cats[i].name != name) ==> v == Undefined
  {
    match Get(NameToId(cats), name)
    case None => Undefined
    case Some(id) => id
  }

  // ---- preselection ----

  /** The index of the first category whose id reads as `key`. */
  function FindById(cats: seq<Category>, key: string, show: real -> string): (r: Option<nat>)
    ensures r.Some? ==> (r.value < |cats| && ToStr(cats[r.value].id, show) == key
      && forall j :: 0 <= j < r.value ==> ToStr(cats[j].id, show) != key)
    ensures r.None? ==> forall j :: 0 <= j < |cats| ==> ToStr(cats[j].id, show) != key
  {
    if cats == [] then None
    else if ToStr(cats[0].id, show) == key then Some(0)
    else
      match FindById(cats[1..], key, show)
      case None => None
      case Some(i) => Some(i + 1)
  }

  /** The picker's name and id after the list has loaded. */
  datatype Selection = Selection(catName: Value, catId: Value)

  /** The category preselected for the budget being edited (`budget?.category`), else the first. */
  function Preselect(cats: seq<Category>, budget: Value, show: real -> string): (s: Selection)
    ensures cats == [] && FoundIndex(cats, budget, show).None? ==> s == Selection(Str(""), Null)
    ensures FoundIndex(cats, budget, show).None? && cats != [] ==>
      s.catName == Or(cats[0].name, Str("")) && s.catId == Coalesce(cats[0].id, Null)
    ensures FoundIndex(cats, budget, show).Some? ==>
      var f := cats[FoundIndex(cats, budget, show).value];
      && (Truthy(f.name) ==> s.catName == f.name)
      && (!Truthy(f.name) ==> s.catName == Or(cats[0].name, Str("")))
      && (!Nullish(f.id) ==> s.catId == f.id)
      && (Nullish(f.id) ==> s.catId == Coalesce(cats[0].id, Null))
  {
    var first := if cats == [] then Undefined else cats[0].name;
    var firstId := if cats == [] then Undefined else cats[0].id;
    match FoundIndex(cats, budget, show)
    case None => Selection(Or(first, Str("")), Coalesce(firstId, Null))
    case Some(i) => Selection(Or(cats[i].name, Or(first, Str(""))), Coalesce(cats[i].id, Coalesce(firstId, Null)))
  }

  /** Which category the budget names: searched only when `budget?.category` is not nullish. */
  function FoundIndex(cats: seq<Category>, budget: Value, show: real -> string): (r: Option<nat>)
    ensures r.Some? ==> r.value < |cats|
    ensures Nullish(Prop(budget, "category")) ==> r.None?
    ensures !Nullish(Prop(budget, "category")) ==> r == FindById(cats, ToStr(Prop(budget, "category"), show), show)
  {
    var key := Prop(budget, "category");
    if Nullish(key) then None else FindById(cats, ToStr(key, show), show)
  }

  /** Position `i` holds the first category whose id reads as `key`. */
  predicate IsFirstWithId(cats: seq<Category>, key: string, show: real -> string, i: int) {
    0 <= i < |cats| && ToStr(cats[i].id, show) == key
    && forall j :: 0 <= j < i ==> ToStr(cats[j].id, show) != key
  }

  /** A budget whose category matches a listed one (by `String(id)`) preselects the first such
      category, when that category has a name and an id. */
  lemma PreselectFindsBudgetCategory(cats: seq<Category>, budget: Value, show: real -> string, i: int)
    requires !Nullish(Prop(budget, "category"))
    requires IsFirstWithId(cats, ToStr(Prop(budget, "category"), show), show, i)
    requires Truthy(cats[i].name) && !Nullish(cats[i].id)
    ensures Preselect(cats, budget, show) == Selection(cats[i].name, cats[i].id)
  {
    var key := ToStr(Prop(budget, "category"), show);
    assert FindById(cats, key, show) == Some(i);
  }

  /** Without a budget category, or when no listed id matches it, the first category (or
      nothing) is preselected. */
  lemma PreselectDefaultsToFirst(cats: seq<Category>, budget: Value, show: real -> string)
    requires Nullish(Prop(budget, "category"))
      || forall j :: 0 <= j < |cats| ==> ToStr(cats[j].id, show) != ToStr(Prop(budget, "category"), show)
    ensures cats == [] ==> Preselect(cats, budget, show) == Selection(Str(""), Null)
    ensures cats != [] ==> Preselect(cats, budget, show) == Selection(Or(cats[0].name, Str("")), Coalesce(cats[0].id, Null))
  {
    assert FoundIndex(cats, budget, show).None?;
  }

  // ---- months ----

  /** The 1-based position of `name` in `MONTHS`, or 1 when it is not a month name. */
  function MonthNumber(name: Value): (m: nat)
    ensures 1 <= m <= 12
    ensures name.Str? && name.s in MONTHS ==> MONTHS[m - 1] == name.s
    ensures !(name.Str? && name.s in MONTHS) ==> m == 1
  {
    if name.Str? && name.s in MONTHS then IndexOf(MONTHS, name.s) + 1 else 1
  }

  function IndexOf(ms: seq<string>, x: string): (i: nat)
    requires x in ms
    ensures i < |ms| && ms[i] == x
    ensures forall j :: 0 <= j < i ==> ms[j] != x
  {
    if ms[0] == x then 0 else IndexOf(ms[1..], x) + 1
  }

  lemma MonthsDistinct()
    ensures forall i, j :: 0 <= i < j < |MONTHS| ==> MONTHS[i] != MONTHS[j]
  {
    forall i, j | 0 <= i < j < |MONTHS| ensures MONTHS[i] != MONTHS[j] {
      assert MONTHS[i][..2] != MONTHS[j][..2] || |MONTHS[i]| != |MONTHS[j]| || MONTHS[i][2..] != MONTHS[j][2..];
    }
  }

  /** Month names map back to their numbers. */
  lemma MonthNameRoundTrip(m: nat)
    requires 1 <= m <= 12
    ensures MonthNumber(Str(MONTHS[m - 1])) == m
  {
    MonthsDistinct();
  }

  /** `getMonth()`: a 0-based month. */
  type MonthIndex = i: nat | i < 12

  /** The month name the form starts with: for a budget, the name of `Number(budget.month) || 1`
      (undefined when that is not a month number); otherwise the current month. */
  function InitialMonthName(budget: Value, now: MonthIndex, show: real -> string): (v: Value)
    ensures !Truthy(budget) ==> v == Str(MONTHS[now])
    ensures Truthy(budget) ==> var n := ToNumber(Prop(budget, "month"), show);
      && (n.Fin? && IsIndex(n.r - 1.0, 12) ==> v == Str(MONTHS[n.r.Floor - 1]))
      && (!NumTruthy(n) ==> v == Str(MONTHS[0]))
      && (NumTruthy(n) && !IsIndex(n.r - 1.0, 12) ==> v == Undefined)
      && (v.Str? ==> v.s in MONTHS)
  {
    if !Truthy(budget) then Str(MONTHS[now])
    else
      var n := ToNumber(Prop(budget, "month"), show);
      var k := if NumTruthy(n) then n.r else 1.0;
      if IsIndex(k - 1.0, 12) then Str(MONTHS[(k - 1.0).Floor]) else Undefined
  }

  /** Editing a budget for month m in 1..12 preselects that month's name, which saving maps
      back to m; a month of 0 or NaN starts at "Enero" and saves as 1, and so does any other
      value that is not a month number. */
  lemma MonthSurvivesEdit(budget: Value, now: MonthIndex, show: real -> string)
    requires Truthy(budget)
    ensures var n := ToNumber(Prop(budget, "month"), show);
      MonthNumber(InitialMonthName(budget, now, show)) ==
        if n.Fin? && IsIndex(n.r - 1.0, 12) then n.r.Floor else 1
  {
    var n := ToNumber(Prop(budget, "month"), show);
    var v := InitialMonthName(budget, now, show);
    if n.Fin? && IsIndex(n.r - 1.0, 12) {
      assert (n.r - 1.0).Floor == n.r.Floor - 1;
      assert v == Str(MONTHS[n.r.Floor - 1]);
      MonthNameRoundTrip(n.r.Floor);
    } else if !NumTruthy(n) {
      assert v == Str(MONTHS[0]);
      MonthNameRoundTrip(1);
    } else {
      assert v == Undefined;
    }
  }

  // ---- form state ----

  datatype Form = Form(categories: seq<Category>, selection: Selection, amount: string, monthName: Value)

  /** The form before the category list arrives. */
  function InitialForm(budget: Value, now: MonthIndex, show: real -> string): (f: Form)
    ensures f.categories == [] && f.selection == Selection(Str(""), Null)
    ensures !Truthy(budget) ==> f.amount == []
    ensures Truthy(budget) && !Nullish(Prop(budget, "amount")) ==> f.amount == ToStr(Prop(budget, "amount"), show)
    ensures Truthy(budget) && Nullish(Prop(budget, "amount")) ==> f.amount == []
    ensures f.monthName == InitialMonthName(budget, now, show)
  {
    Form([], Selection(Str(""), Null),
         if Truthy(budget) then ToStr(Coalesce(Prop(budget, "amount"), Str("")), show) else [],
         InitialMonthName(budget, now, show))
  }

  /** The effect of the category load: the normalised list and the preselection, or nothing
      at all when normalisation throws. */
  function LoadCategories(f: Form, list: Value, budget: Value, show: real -> string): (g: Form)
    ensures g.amount == f.amount && g.monthName == f.monthName
    ensures Normalise(list, show).None? ==> g == f
    ensures Normalise(list, show).Some? ==> (g.categories == Normalise(list, show).value
      && g.selection == Preselect(g.categories, budget, show))
  {
    match Normalise(list, show)
    case None => f
    case Some(cats) => f.(categories := cats, selection := Preselect(cats, budget, show))
  }

  // ---- save ----

  const AMOUNT_MESSAGE: string := "Ingresa un monto mayor a 0."
  const CATEGORY_MESSAGE: string := "Selecciona una categoría."

  /** What `save` does: refuse with an alert, or send a create or update request. In edit mode
      without a budget, reading `budget.id` throws inside the `try` and the save fails. */
  datatype SaveOutcome =
    | Rejected(message: string)
    | CreateRequest(body: Value)
    | UpdateRequest(id: Value, body: Value)
    | NoBudgetToUpdate

  /** `parseFloat(amount || '0')`. */
  function ParsedAmount(amount: string): (n: Num)
    ensures amount == [] ==> n == Fin(0.0)
    ensures amount != [] ==> n == ParseFloat(amount)
  {
    ParseFloatBlank();
    ParseFloat(if amount == [] then "0" else amount)
  }

  /** `catId ?? nameToId.get(catName)`. */
  function ChosenId(f: Form): (v: Value)
    ensures !Nullish(f.selection.catId) ==> v == f.selection.catId
    ensures Nullish(f.selection.catId) ==> v == LookupId(f.categories, f.selection.catName)
  {
    Coalesce(f.selection.catId, LookupId(f.categories, f.selection.catName))
  }

  /** The request body `{ amount, month, category }`, fields in that order. */
  function BudgetBody(amount: real, month: nat, category: Num): (b: Value)
    ensures b.Obj? && Keys(b.fields) == ["amount", "month", "category"]
  {
    Obj([("amount", Number(Fin(amount))), ("month", Number(Fin(month as real))), ("category", Number(category))])
  }

  function Save(f: Form, isEdit: bool, budget: Value, show: real -> string): (o: SaveOutcome)
    ensures o == Rejected(AMOUNT_MESSAGE) <==> !NumTruthy(ParsedAmount(f.amount)) || ParsedAmount(f.amount).r < 0.0
    ensures o == Rejected(CATEGORY_MESSAGE) <==>
      NumTruthy(ParsedAmount(f.amount)) && ParsedAmount(f.amount).r > 0.0 && !Truthy(ChosenId(f))
    ensures o.CreateRequest? ==> !isEdit
    ensures o.UpdateRequest? ==> isEdit && o.id == Prop(budget, "id")
    ensures o.NoBudgetToUpdate? <==> isEdit && Nullish(budget) && !o.Rejected?
    ensures NumTruthy(ParsedAmount(f.amount)) && ParsedAmount(f.amount).r > 0.0 && Truthy(ChosenId(f)) ==>
      if !isEdit then o.CreateRequest? else if Nullish(budget) then o.NoBudgetToUpdate? else o.UpdateRequest?
    ensures o.CreateRequest? || o.UpdateRequest? ==>
      var amt := ParsedAmount(f.amount);
      && amt.Fin? && amt.r > 0.0 && Truthy(ChosenId(f))
      && o.body == BudgetBody(amt.r, MonthNumber(f.monthName), ToNumber(ChosenId(f), show))
  {
    var amt := ParsedAmount(f.amount);
    if !(amt.Fin? && amt.r > 0.0) then Rejected(AMOUNT_MESSAGE)
    else
      var chosen := ChosenId(f);
      if !Truthy(chosen) then Rejected(CATEGORY_MESSAGE)
      else
        var body := BudgetBody(amt.r, MonthNumber(f.monthName), ToNumber(chosen, show));
        if !isEdit then CreateRequest(body)
        else if Nullish(budget) then NoBudgetToUpdate
        else UpdateRequest(Prop(budget, "id"), body)
  }

  /** The fields of the request body read back as the values put in. */
  lemma BudgetBodyFields(amount: real, month: nat, category: Num)
    ensures var fs := BudgetBody(amount, month, category).fields;
      && Field(fs, "amount") == Number(Fin(amount))
      && Field(fs, "month") == Number(Fin(month as real))
      && Field(fs, "category") == Number(category)
  {
    var fs := BudgetBody(amount, month, category).fields;
    assert "month"[0] != "category"[0] && "amount"[0] != "category"[0] && "amount"[0] != "month"[0];
    assert Field(fs[..2][..1], "amount") == fs[0].1;
    assert Field(fs[..2], "month") == fs[1].1;
  }

  /** The body the form builds for a new budget reaches the server through `createBudget` with
      the same three values, reordered as category, amount, month. */
  lemma CreateBudgetSendsFormBody(amount: real, month: nat, category: Num)
    ensures Api.CreateBudgetBody(BudgetBody(amount, month, category)) ==
      Some(Obj([("category", Number(category)), ("amount", Number(Fin(amount))), ("month", Number(Fin(month as real)))]))
  {
    var b := BudgetBody(amount, month, category);
    BudgetBodyFields(amount, month, category);
    var keys := Api.CREATE_BUDGET_KEYS;
    assert Api.CreateBudgetBody(b) == Some(Obj(Pick(b, keys)));
    var sent := Pick(b, keys);
    assert sent[0] == ("category", Number(category));
    assert sent[1] == ("amount", Number(Fin(amount)));
    assert sent[2] == ("month", Number(Fin(month as real)));
    assert sent == [("category", Number(category)), ("amount", Number(Fin(amount))), ("month", Number(Fin(month as real)))];
  }

  /** Whatever the form holds, a request that is sent names a month in 1..12 and a positive amount. */
  lemma SavedBodyIsWellFormed(f: Form, isEdit: bool, budget: Value, show: real -> string)
    ensures var o := Save(f, isEdit, budget, show);
      o.CreateRequest? || o.UpdateRequest? ==>
      var b := o.body;
      && Field(b.fields, "month").Number? && Field(b.fields, "month").n.Fin?
      && 1.0 <= Field(b.fields, "month").n.r <= 12.0
      && Field(b.fields, "amount").Number? && Field(b.fields, "amount").n.Fin? && Field(b.fields, "amount").n.r > 0.0
  {
    var amt := ParsedAmount(f.amount);
    if amt.Fin? {
      BudgetBodyFields(amt.r, MonthNumber(f.monthName), ToNumber(ChosenId(f), show));
    }
  }
}
