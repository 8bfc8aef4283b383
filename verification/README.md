# LanaApp in Dafny

LanaApp is a personal-finance mobile app. Its screens keep local lists of categories, budgets and
fixed payments, show charts of income and expenses, and talk to a FastAPI backend through a small
API layer. This project models the app's logic that can be stated without any rendering:

- **Session token** (`Session`). This is the in-memory `authToken` plus the durable copy under
  `auth_token`, with `loadToken`, `setToken` and `getToken`.
- **API layer** (`Api`, built on `Uri`, `OrderedMaps`, `Js`). It covers:
  - `withToken`, including the real `encodeURIComponent` and the form serializer behind
    `URLSearchParams`;
  - the headers `apiFetch` sends;
  - how a response becomes a value or an error message;
  - `login`;
  - the path, method and token placement of every endpoint function.
- **Budget form** (`BudgetForm`). It covers:
  - the alias-keyed normalisation of the server's category list;
  - the last-write-wins `nameToId` map;
  - preselection of a category;
  - the month-name/number mapping;
  - the checks and request body of `save`.
- **Charts** (`Charts`): `sum`, `toPieData` with its cycling palette, the dataset and total of
  each mode, and `mergeForGeneral`.
- **Local list screens** (`ListScreens`, `FixedPayments`, on top of `IdLists`). These are the
  categories, budgets and fixed-payments screens: append, replace-by-id and filter-by-id, the
  guards that make each handler a no-op, and the modal state.
- **Transactions** (`Transactions`, `TransactionForm`). It covers:
  - `getDayNumber`;
  - the expand/collapse flags;
  - the first expense and first income of an expanded row;
  - section visibility and the save payload of the add/edit transaction form.

## How values are modelled

- **JavaScript values.** A value is `Js.Value`: undefined, null, boolean, number, string, array
  or object. An object is an ordered list of fields.
- **Numbers.** A number is `Numbers.Num`, which is `NaN` or an exact `real`.
- **JavaScript operators.** `??`, `||`, truthiness, `String(v)` and `Number(v)` are written out
  as functions.
- **`parseFloat` and `Number(string)`.** Both are modelled on decimal literals: a sign, digits,
  a fraction and an exponent.
- **Clock readings.** `Date.now()` and `new Date()` are parameters (`now`).
- **Number rendering.** How a finite number is rendered as text (`String(n)`, `toString()`) is a
  parameter `show: real -> string`. A lemma that needs the rendering to read back says so in its
  `requires`.
- **Maps.** A JavaScript `Map`, or an object built by spreading, is an insertion-ordered list of
  pairs (`OrderedMaps`). Setting an existing key keeps its position. Setting a new key appends it.

The doc comment on `getDayNumber` promises the day of the month, but the code returns the month.
The model keeps both readings (see Findings).

## Model

| member | source | states |
|---|---|---|
| Session.LoadToken | src/services/api.js:9-11 | `loadToken` copies the durable token into memory and leaves storage as it is |
| Session.SetToken | src/services/api.js:12-16 | memory always takes the new value; storage is written for a truthy token and deleted for a falsy one |
| Session.GetToken | src/services/api.js:18-20 | the in-memory token wins when truthy; otherwise storage is read |
| Session.QueryTokenValue | src/services/api.js:50-52 | the query carries the token read, or the empty string when there is none, so a missing token still yields `token=` |
| Session.GetAfterSet | src/services/api.js:12-20 | after setting a truthy token every read returns it; after setting a falsy one nothing is read back, whatever storage held |
| Session.ConsistencyPreserved | src/services/api.js:9-16 | `setToken` and `loadToken` leave memory and storage in agreement |
| Session.LoadKeepsToken | src/services/api.js:9-20 | priming memory from storage does not change what `getToken` returns when the two agree |
| Api.WithToken | src/services/api.js:49-53 | the path is a prefix of the result; the separator is `&` exactly when the path already has `?`; then comes `token=`; the rest decodes back to the token (or `''`) and contains no `&`, `=` or `#` |
| Api.EncodedHasNoDelimiters | src/services/api.js:52 | an `encodeURIComponent` result never contains a query delimiter |
| Api.EncodeUnreserved | src/services/api.js:52 | a token made only of unreserved characters is sent unchanged |
| Uri.EncodeUriComponent | src/services/api.js:52 | every output character is unreserved or part of a `%XY` escape |
| Uri.UriRoundTrip | src/services/api.js:52 | `decodeURIComponent(encodeURIComponent(s)) == s` for every string, through UTF-8 |
| Uri.Utf8RoundTrip | src/services/api.js:52 | decoding the UTF-8 bytes of a character gives the character back, and the first byte announces the sequence length |
| Uri.QueryString | src/services/api.js:82 | the serialized query is empty exactly when there are no params |
| Api.DefaultHeaders | src/services/api.js:26-29 | the JSON content type is always there; `Authorization: Bearer t` and `token: t` are there exactly when memory holds a truthy token |
| Api.RequestHeaders | src/services/api.js:26-31 | caller headers replace defaults of the same name, every other default stays, and no name appears twice |
| Api.FetchRequest | src/services/api.js:23-33 | the URL is the base URL plus the path; a body is sent exactly when it is truthy |
| Api.ErrorMessage | src/services/api.js:35-40 | the value chosen for `new Error` is always truthy |
| Api.HandleResponse | src/services/api.js:35-45 | a non-2xx status raises, with `String` of the chosen value as the message; a 204 or an unparseable 2xx body yields null; any other 2xx yields the decoded body |
| Api.ErrorMessagePriority | src/services/api.js:35-42 | the message is the text of `detail` if truthy, else of `message` if truthy, else `Error <status>`, which is also used for a non-JSON body |
| Api.DetailIsRaisedVerbatim | src/services/api.js:35-42 | a 401 whose body is `{"detail": "Credenciales inválidas"}` raises exactly that text |
| Api.DetailListMessages | src/services/api.js:39-41 | a `detail` holding an empty list raises the empty message, and one holding a list of objects raises `[object Object]` |
| Api.LoginBody | src/services/api.js:56-60 | the body always holds `password` and holds `email` or `phone` exactly when they are truthy |
| Api.ExtractToken | src/services/api.js:64 | the token is the response itself when it is a string, else `token` if truthy, else `access_token` |
| Api.Login | src/services/api.js:56-69 | a failed call or a missing token fails with the store unchanged (missing: "No se recibió token"); a truthy token that is not a string cannot be stored; a string token is stored durably and `getToken` then returns it |
| Api.Method | src/services/api.js:56-177 | every endpoint uses GET, POST, PUT or DELETE; PUT and DELETE are exactly the calls on one stored item; GET is exactly the four list reads |
| Api.ItemPathEndsWithId | src/services/api.js:96-177 | a call on one stored item goes to a path ending in `/` and the item's id |
| Api.EndpointPath | src/services/api.js:78-177 | the endpoints that call `withToken` get the base path plus a `token=` parameter decoding to the token; the others get the bare path |
| Api.ListTransactionsQuery | src/services/api.js:79-86 | caller params come first, so with params the token is joined by `&` and without them by `?` |
| Api.RebuiltBody | src/services/api.js:71-76 | a body rebuilt from a destructured argument holds exactly the listed keys in order, each with the argument's property, and drops every other field; a null or undefined argument throws |
| Api.RegisterBody | src/services/api.js:71-76 | `register` sends `name`, `lastname`, `email`, `phone`, `password`, in that order, whatever else its argument holds |
| Api.CreateBudgetBody | src/services/api.js:166-169 | `createBudget` sends `category`, `amount`, `month`, in that order, whatever else its argument holds |
| Api.CategoryBody | src/services/api.js:109-123 | the body has `name`, `description` and `schedulable` in that order, with defaults `''` and `false` for missing values |
| Api.LoginThenAuthenticatedCall | src/services/api.js:56-68 | after a login answered with `{token: "abc"}`, the next call carries `Bearer abc` and `/budgets/?token=abc` |
| Api.StorageTokenOnlyInQuery | src/services/api.js:49-53 | a token that is only in storage reaches the query parameter but not the headers |
| OrderedMaps.GetPut | src/screens/placeholders/ChartsScreen.js:223 | after `m.set(k, v)`, `k` reads `v` and every other key keeps its value |
| OrderedMaps.KeysPut | src/screens/placeholders/ChartsScreen.js:223 | `m.set` keeps an existing key in place and appends a new one |
| OrderedMaps.GetPutAll | src/services/api.js:29-30 | after spreading entries, a key holds the last value they give it, or its old value |
| BudgetForm.IdAliasOrder | src/screens/AddEditBudgetScreen.js:46 | the id is the first non-nullish of `id`, `ID`, `Id`, `id_category`, `idCategory`, and nullish when all are |
| BudgetForm.NameAliasOrder | src/screens/AddEditBudgetScreen.js:47 | the name is the first non-nullish of `name`, `Nombre`, `nombre`, else the text of the raw `id` field |
| BudgetForm.NormaliseOne | src/screens/AddEditBudgetScreen.js:45-47 | one server entry maps to its alias-resolved id and name |
| BudgetForm.NormaliseList | src/screens/AddEditBudgetScreen.js:44-49 | the load fails exactly when an element is null or undefined; otherwise no kept record has a nullish id and none is invented |
| BudgetForm.Normalise | src/screens/AddEditBudgetScreen.js:44-49 | a non-array response gives the empty list |
| BudgetForm.NormaliseConcat | src/screens/AddEditBudgetScreen.js:44-49 | normalisation maps concatenation to concatenation, so input order is kept |
| BudgetForm.NormaliseSingle | src/screens/AddEditBudgetScreen.js:48 | a single entry is kept exactly when its resolved id is not nullish |
| BudgetForm.AliasKeyedEntry | src/screens/AddEditBudgetScreen.js:46-47 | `{ID: 5, Nombre: "Renta"}` normalises to id 5, name "Renta" |
| BudgetForm.NameFallsBackToRawId | src/screens/AddEditBudgetScreen.js:47 | `{ID: 5}` is named "undefined", because the fallback reads the raw `id` |
| BudgetForm.NameToId | src/screens/AddEditBudgetScreen.js:21-25 | each name maps to the id of the last category carrying it; a name no category has is absent |
| BudgetForm.LookupId | src/screens/AddEditBudgetScreen.js:71 | looking up a name no category carries gives undefined |
| BudgetForm.FindById | src/screens/AddEditBudgetScreen.js:54 | the first category whose `String(id)` equals the key, or none |
| BudgetForm.FoundIndex | src/screens/AddEditBudgetScreen.js:53-54 | nothing is searched when the budget's category is nullish; otherwise the result is the first category whose `String(id)` equals `String(budget.category)` |
| BudgetForm.Preselect | src/screens/AddEditBudgetScreen.js:53-60 | the found category's name and id, each falling back to the first category's (`norm[0]?.name \|\| ''`, `norm[0]?.id ?? null`) when falsy or nullish; with nothing found, the first category's, else `''` and null |
| BudgetForm.PreselectFindsBudgetCategory | src/screens/AddEditBudgetScreen.js:53-56 | a budget whose category matches a listed id preselects the first matching category |
| BudgetForm.PreselectDefaultsToFirst | src/screens/AddEditBudgetScreen.js:53-60 | without a budget category, or with no listed id matching it, the first category is preselected, or `''` and null for an empty list |
| BudgetForm.MonthNumber | src/screens/AddEditBudgetScreen.js:74-75 | the 1-based index of the month name, or 1 when it is not one, so always in 1..12 |
| BudgetForm.MonthNameRoundTrip | src/screens/AddEditBudgetScreen.js:74-75 | the name of month m maps back to m |
| BudgetForm.InitialMonthName | src/screens/AddEditBudgetScreen.js:31-33 | a budget with month m in 1..12 starts at `MONTHS[m-1]`; a falsy month (0, NaN) starts at "Enero"; any other value gives no name at all; without a budget, the current month |
| BudgetForm.MonthSurvivesEdit | src/screens/AddEditBudgetScreen.js:31-33 | an edited budget's month survives opening and saving: m in 1..12 saves as m, anything else as 1 |
| BudgetForm.InitialForm | src/screens/AddEditBudgetScreen.js:28-33 | the amount box shows `String(budget.amount ?? '')` for a budget and is empty otherwise; nothing is selected yet |
| BudgetForm.LoadCategories | src/screens/AddEditBudgetScreen.js:40-65 | a successful load installs the list and the preselection and leaves amount and month alone; a failing one changes nothing |
| BudgetForm.ParsedAmount | src/screens/AddEditBudgetScreen.js:68 | blank text parses as 0, other text through `parseFloat` |
| BudgetForm.ChosenId | src/screens/AddEditBudgetScreen.js:71 | the picked id, else the id the name index gives the picked name |
| BudgetForm.Save | src/screens/AddEditBudgetScreen.js:67-81 | an amount that is NaN, zero or negative is refused first, then a falsy category id; otherwise the body `{amount, month, category: Number(id)}` goes to create outside edit mode and to update of `budget.id` in edit mode, which fails when there is no budget |
| BudgetForm.BudgetBody | src/screens/AddEditBudgetScreen.js:79 | the body's fields are exactly `amount`, `month` and `category`, in that order |
| BudgetForm.BudgetBodyFields | src/screens/AddEditBudgetScreen.js:79 | the request body's fields read back as the values put in |
| BudgetForm.CreateBudgetSendsFormBody | src/services/api.js:166-169 | the form's `{amount, month, category}` reaches the server through `createBudget` with the same values, reordered as category, amount, month |
| BudgetForm.SavedBodyIsWellFormed | src/screens/AddEditBudgetScreen.js:67-81 | any request that is sent has a positive amount and a month in 1..12 |
| Charts.Sum | src/screens/placeholders/ChartsScreen.js:206 | `sum([])` is 0, and a list of non-negative amounts has a non-negative sum |
| Charts.SumAppend | src/screens/placeholders/ChartsScreen.js:206 | `sum` distributes over concatenation |
| Charts.ToPieData | src/screens/placeholders/ChartsScreen.js:208-215 | one slice per entry in order, valued `Number(amount) \|\| 0`, labelled with the category, coloured `palette[i % 7]` |
| Charts.PieTotal | src/screens/placeholders/ChartsScreen.js:206-215 | the slices add up to the list's `sum` |
| Charts.PaletteCycles | src/screens/placeholders/ChartsScreen.js:212 | slice colours repeat every seven entries |
| Charts.GeneralData | src/screens/placeholders/ChartsScreen.js:75-81 | the general dataset is the income total then the expense total, with their labels and colours |
| Charts.CurrentData | src/screens/placeholders/ChartsScreen.js:84 | each mode shows its own dataset |
| Charts.CurrentTotal | src/screens/placeholders/ChartsScreen.js:85 | the centre total equals the sum of the slices shown |
| Charts.Balance | src/screens/placeholders/ChartsScreen.js:119 | the summary balance is the income pie's centre total minus the expense pie's, and equally the difference of the two pies' slice totals |
| Charts.IncomePass | src/screens/placeholders/ChartsScreen.js:219 | the incomes loop yields one row per distinct income category, in first-occurrence order |
| Charts.IncomePassGet | src/screens/placeholders/ChartsScreen.js:219 | after the incomes loop a category's income is its last income amount |
| Charts.AddExpense | src/screens/placeholders/ChartsScreen.js:221-223 | an expense keeps its category's position or appends a new one |
| Charts.AddExpenseGet | src/screens/placeholders/ChartsScreen.js:221-223 | an expense adds its amount to its category's row (a fresh one when missing) and leaves other rows alone |
| Charts.ExpensePass | src/screens/placeholders/ChartsScreen.js:220-224 | the expenses loop only adds rows, at most one per expense |
| Charts.ExpensePassKeys | src/screens/placeholders/ChartsScreen.js:220-224 | the expenses loop appends the new categories in first-occurrence order |
| Charts.ExpensePassGet | src/screens/placeholders/ChartsScreen.js:220-224 | after the expenses loop a category's expense has grown by the sum of its expenses |
| Charts.MergedKeys | src/screens/placeholders/ChartsScreen.js:217-225 | the merged map's keys are the income categories, then the expense-only ones, with none repeated |
| Charts.MergedRow | src/screens/placeholders/ChartsScreen.js:217-225 | each category's row holds its last income and the sum of its expenses |
| Charts.MergeForGeneral | src/screens/placeholders/ChartsScreen.js:217-226 | one row per distinct category of either list, so never more rows than entries; the rows themselves are stated by `Charts.MergeForGeneralRows` |
| Charts.MergeForGeneralRows | src/screens/placeholders/ChartsScreen.js:217-225 | exactly one row per distinct category of either list, in that order; income is the last income (0 when none), expense is the sum of the expenses |
| Charts.TableRows | src/screens/placeholders/ChartsScreen.js:164-168 | the table lists incomes, expenses, or the merged rows, according to the mode |
| Text.Trim | src/screens/placeholders/CategoriesScreen.js:87 | the result has no surrounding white space and is empty exactly for an all-space input |
| Text.TrimShape | src/screens/placeholders/CategoriesScreen.js:87 | the result is a slice of the input with only white space cut off on either side |
| Text.TrimIdempotent | src/screens/placeholders/CategoriesScreen.js:87 | trimming twice is trimming once |
| Numbers.ParseAmount | src/screens/placeholders/SetBudgetScreen.js:100-103 | blank text gives 0, a number gives its value, and text `parseFloat` rejects gives 0 |
| Numbers.ParseFloatBlank | src/screens/AddEditTransactionScreen.js:96 | `parseFloat("0")` is 0, and `parseFloat` of `""` and of `"abc"` is NaN |
| Numbers.ParseFloatFraction | src/screens/AddEditBudgetScreen.js:68 | `parseFloat("12.50")` is 12.5 |
| Numbers.ParseFloat | src/screens/AddEditBudgetScreen.js:68 | `parseFloat` gives a number exactly when the text, after leading white space, starts with a decimal literal |
| Numbers.StringToNumber | src/screens/AddEditBudgetScreen.js:79 | `Number` of all-space text is 0; otherwise it is finite exactly when the trimmed text is one decimal literal with nothing after it, and then it agrees with `parseFloat` of the trimmed text; whatever `parseFloat` rejects is NaN |
| Numbers.CommaIsNotADecimalSeparator | src/screens/AddEditBudgetScreen.js:68 | `parseFloat("12,50")` is 12 and `Number("12,50")` is NaN |
| IdLists.Without | src/screens/placeholders/CategoriesScreen.js:121 | the survivors are exactly the entries whose id differs from the removed one |
| IdLists.WithoutConcat | src/screens/placeholders/CategoriesScreen.js:121 | filtering distributes over concatenation, so the survivors keep their order |
| IdLists.WithoutAbsent | src/screens/placeholders/CategoriesScreen.js:121 | removing an id nobody carries changes nothing |
| IdLists.AppendThenWithout | src/screens/placeholders/CategoriesScreen.js:121 | appending an entry under a fresh id and then filtering that id out gives the list back |
| IdLists.ReplaceAt | src/screens/placeholders/CategoriesScreen.js:106 | replace-by-id changes exactly the positions carrying the id |
| IdLists.ReplaceUnchanged | src/screens/placeholders/CategoriesScreen.js:106 | a replacement that maps matching entries to themselves is the identity |
| IdLists.WithoutAfterReplace | src/screens/placeholders/CategoriesScreen.js:106 | an id-preserving update followed by removing that id is the removal alone |
| IdLists.ReplaceKeepsIds | src/screens/placeholders/FixedPaymentsScreen.js:72 | a replacement that keeps the matched id keeps the list's id column |
| ListScreens.StampedId | src/screens/placeholders/CategoriesScreen.js:88 | a clock-stamped id is the prefix letter followed by the decimal clock reading |
| ListScreens.OpenAddCategory | src/screens/placeholders/CategoriesScreen.js:64 | opens the add modal with no target and an empty name box |
| ListScreens.OpenEditCategory | src/screens/placeholders/CategoriesScreen.js:67 | opens the edit modal on the category with its name preloaded |
| ListScreens.OpenDeleteCategory | src/screens/placeholders/CategoriesScreen.js:70 | opens the delete modal on the category and leaves the name box alone |
| ListScreens.CloseCategories | src/screens/placeholders/CategoriesScreen.js:73 | resets modal, target and name box, keeping the list |
| ListScreens.AddCategory | src/screens/placeholders/CategoriesScreen.js:86-90 | a blank trimmed name changes nothing; otherwise exactly one `{id, name}` with the trimmed name goes to the end and the modal closes |
| ListScreens.EditCategory | src/screens/placeholders/CategoriesScreen.js:104-108 | without a target or with a blank name nothing changes; otherwise the list keeps its length and the modal closes |
| ListScreens.EditCategoryAt | src/screens/placeholders/CategoriesScreen.js:106 | entries with the target's id take the trimmed name and keep their id; all others are untouched |
| ListScreens.DeleteCategory | src/screens/placeholders/CategoriesScreen.js:119-123 | without a target nothing changes; otherwise exactly the entries with the target's id go and the modal closes |
| ListScreens.EditCategoryRoundTrip | src/screens/placeholders/CategoriesScreen.js:104-108 | opening the editor on a category and saving unchanged leaves the list as it was |
| ListScreens.AddThenDeleteCategory | src/screens/placeholders/CategoriesScreen.js:86-123 | adding a category and deleting the added entry restores the list |
| ListScreens.OpenAddBudget | src/screens/placeholders/SetBudgetScreen.js:74 | opens the add modal with both boxes empty |
| ListScreens.OpenEditBudget | src/screens/placeholders/SetBudgetScreen.js:77 | preloads the amount box with `String(amount)`, or `''` for a zero amount, and the month box with the month |
| ListScreens.OpenDeleteBudget | src/screens/placeholders/SetBudgetScreen.js:80 | opens the delete modal on the budget and leaves the boxes alone |
| ListScreens.CloseBudgets | src/screens/placeholders/SetBudgetScreen.js:83 | resets modal, target and both boxes, keeping the list |
| ListScreens.AddBudget | src/screens/placeholders/SetBudgetScreen.js:99-105 | a blank trimmed month changes nothing; otherwise one entry with the parsed amount (NaN and blank give 0, no positivity check) and the trimmed month is appended |
| ListScreens.EditBudget | src/screens/placeholders/SetBudgetScreen.js:122-129 | without a target or with a blank month nothing changes; otherwise the list keeps its length and the modal closes |
| ListScreens.EditBudgetAt | src/screens/placeholders/SetBudgetScreen.js:127 | entries with the target's id get the new amount and month and keep their id; the others are untouched |
| ListScreens.DeleteBudget | src/screens/placeholders/SetBudgetScreen.js:140-144 | without a target nothing changes; otherwise exactly the entries with the target's id go |
| ListScreens.EditBudgetRoundTrip | src/screens/placeholders/SetBudgetScreen.js:122-129 | opening the editor on a budget and saving unchanged leaves the list as it was |
| ListScreens.UnparsableAmountAddsZero | src/screens/placeholders/SetBudgetScreen.js:100-103 | the amount text "abc" still adds a budget, with amount 0 |
| ListScreens.AddThenDeleteBudget | src/screens/placeholders/SetBudgetScreen.js:99-144 | adding a budget and deleting the added entry restores the list |
| FixedPayments.SavedByAdd | src/screens/placeholders/FixedPaymentsScreen.js:61 | the saved payment goes to the end and earlier entries are untouched |
| FixedPayments.SavedByEdit | src/screens/placeholders/FixedPaymentsScreen.js:72 | the edit callback keeps the list's length |
| FixedPayments.SavedByEditAt | src/screens/placeholders/FixedPaymentsScreen.js:72 | entries sharing the saved payment's id become it; all others are untouched |
| FixedPayments.AskDelete | src/screens/placeholders/FixedPaymentsScreen.js:115 | the delete button records the payment awaiting confirmation |
| FixedPayments.CancelDelete | src/screens/placeholders/FixedPaymentsScreen.js:153 | cancelling clears the confirmation and keeps the list |
| FixedPayments.DeletePayment | src/screens/placeholders/FixedPaymentsScreen.js:80-84 | without a pending confirmation nothing changes; otherwise exactly the entries with its id go and the confirmation is cleared |
| FixedPayments.InitialForm | src/screens/AddEditFixedPaymentScreen.js:69-71 | without a payment: "Renta", an empty amount and now; with one: its category (or "Renta"), its amount's text and its date |
| FixedPayments.SavedId | src/screens/AddEditFixedPaymentScreen.js:99 | the saved id is the payment's own id when it has one, else the decimal clock reading |
| FixedPayments.Save | src/screens/AddEditFixedPaymentScreen.js:95-110 | the object `{id, category, amount, date}` reaches the callback exactly when one is given; the amount is parsed with NaN and blank read as 0 |
| FixedPayments.AddFlow | src/screens/placeholders/FixedPaymentsScreen.js:59-62 | saving from the add route appends one payment with a clock id and the parsed amount |
| FixedPayments.EditFlow | src/screens/placeholders/FixedPaymentsScreen.js:69-73 | saving from the edit route keeps the list's length |
| FixedPayments.EditRoundTrip | src/screens/placeholders/FixedPaymentsScreen.js:69-73 | editing a listed payment and saving unchanged leaves the list as it was |
| FixedPayments.EditKeepsIds | src/screens/placeholders/FixedPaymentsScreen.js:69-73 | an edit never adds, drops or renames an id |
| Transactions.FirstMatch | src/screens/TransactionsScreen.js:278 | the leftmost position, from a start, where the pattern matches, or none |
| Transactions.GetDayNumber | src/screens/TransactionsScreen.js:277-280 | 0 without a match, else the two digits of the leftmost match, so always in 0..99 |
| Transactions.GroupIdShape | src/screens/TransactionsScreen.js:58 | the fixed-width fields of a `YYYY-MM-DD[-n]` group id |
| Transactions.DayNumberReadsMonth | src/screens/TransactionsScreen.js:277-280 | for `YYYY-MM-DD` and `YYYY-MM-DD-n` the function as written returns MM |
| Transactions.MockGroupShowsMonth | src/screens/TransactionsScreen.js:58 | the mock group "2025-05-26" shows 5 |
| Transactions.DayOfGroupId | src/screens/TransactionsScreen.js:274-276 | the DD field of a date-prefixed group id, else 0 |
| Transactions.DayOfGroupIdReadsDay | src/screens/TransactionsScreen.js:274-276 | the corrected reading recovers the day of every well-formed group id |
| Transactions.Toggle | src/screens/TransactionsScreen.js:95-98 | toggling flips that id's observed open state and keeps every other id's flag |
| Transactions.ToggleTwice | src/screens/TransactionsScreen.js:97 | toggling the same id twice restores what every row shows |
| Transactions.FirstIndexOfKind | src/screens/TransactionsScreen.js:120-121 | the position of the first item of that type, or none when there is no such item |
| Transactions.FirstOfKind | src/screens/TransactionsScreen.js:120-121 | `items.find` returns the first item of that type, or nothing exactly when there is none |
| Transactions.DetailOf | src/screens/TransactionsScreen.js:155-171 | the category or "—", and the description only when non-empty |
| Transactions.RenderRow | src/screens/TransactionsScreen.js:116-174 | a row shows the corrected day reading, its open state and the first expense and income |
| Transactions.RenderRowShowsDay | src/screens/TransactionsScreen.js:140 | the header of a `YYYY-MM-DD[-n]` group shows its day of the month |
| Transactions.ToggleAffectsOnlyItsRow | src/screens/TransactionsScreen.js:95-117 | toggling changes only the toggled row's open state |
| TransactionForm.Mode | src/screens/AddEditTransactionScreen.js:59 | a missing mode defaults to 'add' |
| TransactionForm.Sections | src/screens/AddEditTransactionScreen.js:59-64 | edit shows both sections; otherwise income shows exactly for kind 'income' and expense exactly for 'expense', never both |
| TransactionForm.InitialForm | src/screens/AddEditTransactionScreen.js:66-76 | defaults "Salario" and "Comida", empty amounts and descriptions, both dates now |
| TransactionForm.PartOf | src/screens/AddEditTransactionScreen.js:94-99 | a part carries the section's inputs with the amount parsed as `parseFloat(x \|\| '0') \|\| 0` |
| TransactionForm.OnSave | src/screens/AddEditTransactionScreen.js:91-106 | a shown section contributes its part and a hidden one null |
| TransactionForm.UntouchedFormSavesZero | src/screens/AddEditTransactionScreen.js:66-106 | saving the untouched form records zero amounts and the default categories |
| TransactionForm.ZeroLikeAmounts | src/screens/AddEditTransactionScreen.js:96 | blank, non-numeric and zero amounts all save as 0 |

## Left out

- Network and storage I/O (`fetch`, `SecureStore`, JSON decoding) are left out. A response is a
  status plus a decoded body or a parse failure. The token store is a two-field record whose
  operations return the new store.
- Asynchrony is left out. `getToken`/`withToken` read memory and storage at one instant, and
  interleavings of concurrent calls are not modelled.
- Floating point is left out. Numbers are exact reals, so rounding, `toFixed` and `fmt` are not
  modelled.
- How a finite number is printed (`String(n)`, `toString()`) is left out. It is the parameter
  `show`.
- `parseFloat` and `Number` are left out for "Infinity", hexadecimal, binary and octal literals.
  The model reads only decimal literals. Blank, alphabetic and decimal inputs, which are all the
  screens feed them, are covered.
- Strings are sequences of Unicode scalar values. A lone surrogate cannot be written, so the
  `URIError` that `encodeURIComponent` throws on one (in `withToken`) is not modelled.
- Chart amounts are numbers (or NaN), as in the screen's lists and its doc comment. A string
  amount, which `Number(b.amount) || 0` would convert and `i.amount || 0` with `+` would
  concatenate, is not modelled.
- Clock readings (`Date.now()`, `new Date()`, `getMonth()`) are left out. They are parameters.
- Rendering, styles, animations, modals, pickers, alerts and navigation are left out. Only the
  state changes and the values shown are modelled.
- Commented-out `// API:` blocks are not modelled, because they never run.
- The chart-data endpoints (`/api/graficaIngresos`, `/api/graficaGastos`) are not modelled, because
  `src/services/api.js` defines no function for them. The charts screen's aggregation works on the
  income and expense lists it holds.
- The transactions screen renders fixed mock groups, and its totals are constant zero. There is no
  per-day grouping or subtotal code to model.
- `LoginScreen.js`, `RegisterScreen.js`, `DeleteTransactionScreen.js`, `RootStack.js`,
  `CategoryPickerModal.js`, `SplashScreen.js` and `AuthCard.js` are not modelled. They only
  navigate or draw.
- The endpoint functions that forward their caller's body unchanged (`createTransaction`,
  `createFixedPayment`, `updateTransaction`, `updateFixedPayment` and `updateBudget`) are covered
  only by their path, method and token placement (`Api.EndpointPath`) and by `Api.FetchRequest`.
  The bodies `register` and `createBudget` rebuild are `Api.RegisterBody` and
  `Api.CreateBudgetBody`.
- Api.Login: a truthy login token that is not a string ends in `StoreRejected` with the store
  unchanged. In the source, `setToken` first puts that object in memory and then storage rejects
  it, and nothing clears memory. The object stays there until the next `setToken` or `loadToken`,
  so later calls send `Authorization: Bearer [object Object]` and `token=%5Bobject%20Object%5D`.
  The model does not follow that state.
- Payment dates are abstract instants. `payment?.date` is taken to be always truthy, as it is for
  the Date objects the list holds.
- The lists' object identity is not modelled. React re-renders are triggered by new arrays, and
  the model compares lists by value.
- FixedPayments.SavedByEdit and FixedPayments.EditFlow: their ensures state only the length. The
  per-position content is stated by `FixedPayments.SavedByEditAt`, and ids by
  `FixedPayments.EditKeepsIds`.
- Transactions.RenderRow: the header shows `DayOfGroupId`, the corrected reading, where the screen
  calls `getDayNumber` (line 140). For "2025-05-26" the app shows 5 and the model 26; the
  as-written value is `Transactions.GetDayNumber` (see Findings).
- ListScreens.EditCategory and ListScreens.EditBudget: their ensures state only the guard, the
  closing and the length. The per-position content is in `EditCategoryAt` and `EditBudgetAt`.

## Findings

| source | as written | input that shows it | evidently intended | confidence | as-written member | corrected member |
|---|---|---|---|---|---|---|
| src/screens/TransactionsScreen.js:277-280 | `getDayNumber` returns the first two-digit group matched by `-(\d{2})(?:$\|-\d)`. In a `YYYY-MM-DD` id that group is the month, because `-MM` is followed by `-D`. | `"2025-05-26"` (the first mock group) gives 5 | the day of the month, 26, as the function's doc comment says | not executed | Transactions.DayNumberReadsMonth | Transactions.DayOfGroupIdReadsDay |

The row view (`Transactions.RenderRow`) uses the corrected `Transactions.DayOfGroupId`.
`Transactions.GetDayNumber` models the code as written.
