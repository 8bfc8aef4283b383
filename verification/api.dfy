/** The request shaping and response handling of src/services/api.js: URL and query-token
    building, headers, the error message of a failed call, login, and the per-endpoint
    table of paths, methods and token placement. */
module Api {
  import opened Wrappers
  import opened Numbers
  import opened Js
  import opened OrderedMaps
  import opened Uri
  import opened Session

  const API_URL: string := "http://192.168.0.8:8001"

  // ---- query token ----

  /** `withToken(path)`: appends `token=<encoded token>` to the path, joined with `&` when the
      path already has a query and with `?` otherwise. */
  function WithToken(path: string, st: TokenStore): (r: string)
    ensures |r| >= |path| + 7 && r[..|path|] == path
    ensures r[|path|] == (if '?' in path then '&' else '?')
    ensures r[|path| + 1..|path| + 7] == "token="
    ensures DecodeUriComponent(r[|path| + 7..]) == Some(QueryTokenValue(st))
    ensures '&' !in r[|path| + 7..] && '=' !in r[|path| + 7..] && '#' !in r[|path| + 7..]
  {
    var value := EncodeUriComponent(QueryTokenValue(st));
    var sep := if '?' in path then '&' else '?';
    UriRoundTrip(QueryTokenValue(st));
    EncodedHasNoDelimiters(QueryTokenValue(st));
    AppendShape(path, sep, value);
    path + [sep] + "token=" + value
  }

  lemma AppendShape(path: string, sep: char, value: string)
    ensures var r := path + [sep] + "token=" + value;
      && |r| == |path| + 7 + |value| && r[..|path|] == path && r[|path|] == sep
      && r[|path| + 1..|path| + 7] == "token=" && r[|path| + 7..] == value
  {
  }

  /** An encoded component never contains the characters that delimit query parameters. */
  lemma EncodedHasNoDelimiters(s: string)
    ensures var e := EncodeUriComponent(s); '&' !in e && '=' !in e && '#' !in e
  {
    var e := EncodeUriComponent(s);
    forall k | 0 <= k < |e| ensures e[k] != '&' && e[k] != '=' && e[k] != '#' {
      assert UriUnreserved(e[k]) || IsEncodingChar(e[k]);
    }
  }

  // ---- headers ----

  type Header = (string, string)

  /** The headers `apiFetch` adds before the caller's: the JSON content type, then the bearer
      and `token` headers when a token is in memory (storage is not consulted here). */
  function DefaultHeaders(st: TokenStore): (d: seq<Header>)
    ensures DistinctKeys(d)
    ensures Get(d, "Content-Type") == Some("application/json")
    ensures Get(d, "Authorization") == (if Present(st.memory) then Some("Bearer " + st.memory.value) else None)
    ensures Get(d, "token") == (if Present(st.memory) then st.memory else None)
  {
    if Present(st.memory) then
      var d := [("Content-Type", "application/json"), ("Authorization", "Bearer " + st.memory.value), ("token", st.memory.value)];
      assert "Content-Type"[0] != "Authorization"[0] && "Content-Type"[0] != "token"[0];
      assert "Authorization"[0] != "token"[0];
      assert d[1..][1..] == [("token", st.memory.value)];
      assert Get(d[1..][1..], "token") == Some(st.memory.value);
      assert Get(d[1..], "token") == Some(st.memory.value);
      d
    else
      var d := [("Content-Type", "application/json")];
      assert "Content-Type"[0] != "Authorization"[0] && "Content-Type"[0] != "token"[0];
      assert d[1..] == [];
      d
  }

  /** The header object `apiFetch` sends: `{...defaults, ...headers}`, so a caller header
      replaces a default one of the same name and every other default stays. */
  function RequestHeaders(st: TokenStore, caller: seq<Header>): (hs: seq<Header>)
    ensures DistinctKeys(hs)
    ensures forall k :: k in Keys(hs) <==> k in Keys(DefaultHeaders(st)) || k in Keys(caller)
    ensures forall k :: Get(hs, k) == if k in Keys(caller) then LastValue(caller, k) else Get(DefaultHeaders(st), k)
  {
    HeadersSpread(st, caller);
    PutAll(PutAll([], DefaultHeaders(st)), caller)
  }

  lemma HeadersSpread(st: TokenStore, caller: seq<Header>)
    ensures var d := DefaultHeaders(st); var hs := PutAll(PutAll([], d), caller);
      && DistinctKeys(hs)
      && (forall k :: k in Keys(hs) <==> k in Keys(d) || k in Keys(caller))
      && (forall k :: Get(hs, k) == if k in Keys(caller) then LastValue(caller, k) else Get(d, k))
  {
    var d := DefaultHeaders(st);
    assert [] + d == d;
    PutAllFresh([], d);
    DistinctPutAll(d, caller);
    forall k ensures Get(PutAll(d, caller), k) == if k in Keys(caller) then LastValue(caller, k) else Get(d, k) {
      GetPutAll(d, caller, k);
    }
    forall k ensures k in Keys(PutAll(d, caller)) <==> k in Keys(d) || k in Keys(caller) {
      KeysPutAll(d, caller, k);
    }
  }

  // ---- responses ----

  /** What `res.json()` yields: a decoded value, or a parse failure. */
  datatype Body = Unparseable | Json(value: Value)

  datatype Response = Response(status: nat, body: Body)

  /** What `apiFetch` resolves to, or the message of the Error it throws. `new Error(msg)`
      keeps `String(msg)`, so the message is text whatever value `msg` held. */
  datatype Outcome = Returned(value: Value) | Raised(message: string)

  /** `res.ok`. */
  predicate IsOk(status: nat) {
    200 <= status <= 299
  }

  /** The value handed to `new Error` for a failed call: `j?.detail || j?.message || "Error <status>"`.
      It is always truthy, though its text need not be non-empty (an empty array is truthy). */
  function ErrorMessage(res: Response): (m: Value)
    ensures Truthy(m)
  {
    var fallback := Str("Error " + DecimalString(res.status));
    match res.body
    case Unparseable => fallback
    case Json(j) => Or(Prop(j, "detail"), Or(Prop(j, "message"), fallback))
  }

  /** The part of `apiFetch` that runs after the response arrives; `show` renders numbers for
      the conversion of the error value to its message. */
  function HandleResponse(res: Response, show: real -> string): (o: Outcome)
    ensures o.Raised? <==> !IsOk(res.status)
    ensures o.Raised? ==> o.message == ToStr(ErrorMessage(res), show)
    ensures o.Returned? && (res.status == 204 || res.body.Unparseable?) ==> o.value == Null
    ensures o.Returned? && res.status != 204 && res.body.Json? ==> o.value == res.body.value
  {
    if !IsOk(res.status) then Raised(ToStr(ErrorMessage(res), show))
    else if res.status == 204 then Returned(Null)
    else match res.body
      case Unparseable => Returned(Null)
      case Json(v) => Returned(v)
  }

  /** A failed call raises the body's `detail` when truthy, else its `message` when truthy, else
      `Error <status>`, which is also the message for a body that is not JSON. */
  lemma ErrorMessagePriority(res: Response, show: real -> string)
    requires !IsOk(res.status)
    ensures var m := HandleResponse(res, show).message;
      var fallback := "Error " + DecimalString(res.status);
      && (res.body.Unparseable? ==> m == fallback)
      && (res.body.Json? && Truthy(Prop(res.body.value, "detail")) ==> m == ToStr(Prop(res.body.value, "detail"), show))
      && (res.body.Json? && !Truthy(Prop(res.body.value, "detail")) && Truthy(Prop(res.body.value, "message"))
          ==> m == ToStr(Prop(res.body.value, "message"), show))
      && (res.body.Json? && !Truthy(Prop(res.body.value, "detail")) && !Truthy(Prop(res.body.value, "message"))
          ==> m == fallback)
  {
  }

  /** A 401 whose body is `{"detail": "Credenciales inválidas"}` raises exactly that text. */
  lemma DetailIsRaisedVerbatim(show: real -> string)
    ensures HandleResponse(Response(401, Json(Obj([("detail", Str("Credenciales inválidas"))]))), show)
      == Raised("Credenciales inválidas")
  {
  }

  /** A truthy `detail` can still print as nothing: an empty list raises the empty message, and
      a list of validation objects raises `[object Object]`. */
  lemma DetailListMessages(show: real -> string)
    ensures HandleResponse(Response(422, Json(Obj([("detail", Arr([]))]))), show) == Raised("")
    ensures HandleResponse(Response(422, Json(Obj([("detail", Arr([Obj([])]))]))), show)
      == Raised("[object Object]")
  {
    var one := Arr([Obj([])]);
    assert ElementStrings(one, [Obj([])], show) == ["[object Object]"];
  }

  // ---- requests ----

  datatype Request = Request(verb: string, url: string, headers: seq<Header>, body: Option<Value>)

  /** The request `apiFetch(path, {method, headers, body})` sends; a falsy body is not sent. */
  function FetchRequest(st: TokenStore, path: string, verb: string, caller: seq<Header>, body: Value): (q: Request)
    ensures q.url == API_URL + path
    ensures q.body.Some? <==> Truthy(body)
    ensures q.body.Some? ==> q.body.value == body
    ensures q.headers == RequestHeaders(st, caller)
  {
    Request(verb, API_URL + path, RequestHeaders(st, caller), if Truthy(body) then Some(body) else None)
  }

  // ---- login ----

  /** `login({email, phone, password})`'s body: the password always, email and phone only when truthy. */
  function LoginBody(email: Value, phone: Value, password: Value): (b: Value)
    ensures b.Obj? && |b.fields| >= 1 && b.fields[0] == ("password", password)
    ensures "email" in Keys(b.fields) <==> Truthy(email)
    ensures "phone" in Keys(b.fields) <==> Truthy(phone)
    ensures Truthy(email) ==> Field(b.fields, "email") == email
    ensures Truthy(phone) ==> Field(b.fields, "phone") == phone
  {
    var e := if Truthy(email) then [("email", email)] else [];
    var p := if Truthy(phone) then [("phone", phone)] else [];
    var fs := [("password", password)] + e + p;
    KeysConcat([("password", password)] + e, p);
    KeysConcat([("password", password)], e);
    assert Truthy(phone) ==> Field(fs, "phone") == phone by {
      if Truthy(phone) { assert fs[|fs| - 1] == ("phone", phone); }
    }
    assert Truthy(email) ==> Field(fs, "email") == email by {
      if Truthy(email) && Truthy(phone) {
        assert fs[..|fs| - 1] == [("password", password), ("email", email)];
      }
    }
    Obj(fs)
  }

  /** The token in a login response: the response itself when it is a string, else its `token`,
      else its `access_token`. */
  function ExtractToken(res: Value): (t: Value)
    ensures res.Str? ==> t == res
    ensures !res.Str? && Truthy(Prop(res, "token")) ==> t == Prop(res, "token")
    ensures !res.Str? && !Truthy(Prop(res, "token")) ==> t == Prop(res, "access_token")
  {
    if res.Str? then res else Or(Prop(res, "token"), Prop(res, "access_token"))
  }

  const NO_TOKEN_MESSAGE: string := "No se recibió token"

  /** How `login` ends. `StoreRejected` is a truthy token that is not a string: secure storage
      only holds strings, so `setToken` cannot complete. */
  datatype LoginResult =
    | LoggedIn(token: string, store: TokenStore)
    | LoginFailed(message: string, store: TokenStore)
    | StoreRejected(rejected: Value, store: TokenStore)

  /** What `login` does with the outcome of its POST to `/validateUser`. */
  function Login(st: TokenStore, outcome: Outcome): (r: LoginResult)
    ensures !r.LoggedIn? ==> r.store == st
    ensures outcome.Raised? ==> r == LoginFailed(outcome.message, st)
    ensures outcome.Returned? && !Truthy(ExtractToken(outcome.value)) ==> r == LoginFailed(NO_TOKEN_MESSAGE, st)
    ensures outcome.Returned? && Truthy(ExtractToken(outcome.value)) && !ExtractToken(outcome.value).Str? ==>
      r == StoreRejected(ExtractToken(outcome.value), st)
    ensures r.LoggedIn? ==> r.token != [] && outcome.Returned? && ExtractToken(outcome.value) == Str(r.token)
    ensures r.LoggedIn? ==> GetToken(r.store) == Some(r.token) && r.store.durable == Some(r.token)
  {
    match outcome
    case Raised(m) => LoginFailed(m, st)
    case Returned(v) =>
      var t := ExtractToken(v);
      if !Truthy(t) then LoginFailed(NO_TOKEN_MESSAGE, st)
      else if t.Str? then LoggedIn(t.s, SetToken(st, Some(t.s)))
      else StoreRejected(t, st)
  }

  // ---- endpoints ----

  datatype Endpoint =
    | ValidateUser
    | RegisterUser
    | ListTransactions(params: seq<(string, string)>)
    | CreateTransaction
    | UpdateTransaction(id: string)
    | DeleteTransaction(id: string)
    | GetCategories
    | CreateCategory
    | UpdateCategory(id: string)
    | DeleteCategory(id: string)
    | ListFixedPayments
    | CreateFixedPayment
    | UpdateFixedPayment(id: string)
    | DeleteFixedPayment(id: string)
    | ListBudgets
    | CreateBudget
    | UpdateBudget(id: string)
    | DeleteBudget(id: string)

  const FIXED_BASE: string := "/scheduled-transactions"

  /** The endpoints that act on one stored item, named by its id. */
  predicate TargetsItem(ep: Endpoint) {
    ep.UpdateTransaction? || ep.DeleteTransaction? || ep.UpdateCategory? || ep.DeleteCategory?
    || ep.UpdateFixedPayment? || ep.DeleteFixedPayment? || ep.UpdateBudget? || ep.DeleteBudget?
  }

  /** The HTTP verb each endpoint function passes to `apiFetch`: PUT and DELETE are exactly the
      calls on one stored item, and the list reads are the only GETs. */
  function Method(ep: Endpoint): (m: string)
    ensures m == "GET" || m == "POST" || m == "PUT" || m == "DELETE"
    ensures m == "PUT" || m == "DELETE" <==> TargetsItem(ep)
    ensures m == "GET" <==> ep.ListTransactions? || ep.GetCategories? || ep.ListFixedPayments? || ep.ListBudgets?
  {
    match ep
    case ValidateUser | RegisterUser | CreateTransaction | CreateCategory | CreateFixedPayment | CreateBudget => "POST"
    case UpdateTransaction(_) | UpdateCategory(_) | UpdateFixedPayment(_) | UpdateBudget(_) => "PUT"
    case DeleteTransaction(_) | DeleteCategory(_) | DeleteFixedPayment(_) | DeleteBudget(_) => "DELETE"
    case _ => "GET"
  }

  /** The path before any token is attached. */
  function BasePath(ep: Endpoint): string {
    match ep
    case ValidateUser => "/validateUser"
    case RegisterUser => "/registerUser"
    case ListTransactions(params) =>
      var qs := QueryString(params);
      "/transactions/" + (if qs != [] then "?" + qs else "")
    case CreateTransaction => "/transactions/"
    case UpdateTransaction(id) => "/transactions/" + id
    case DeleteTransaction(id) => "/transactions/" + id
    case GetCategories => "/categories/"
    case CreateCategory => "/categories/"
    case UpdateCategory(id) => "/categories/" + id
    case DeleteCategory(id) => "/categories/" + id
    case ListFixedPayments => FIXED_BASE + "/"
    case CreateFixedPayment => FIXED_BASE + "/"
    case UpdateFixedPayment(id) => FIXED_BASE + "/" + id
    case DeleteFixedPayment(id) => FIXED_BASE + "/" + id
    case ListBudgets => "/budgets/"
    case CreateBudget => "/budgets/"
    case UpdateBudget(id) => "/budgets/" + id
    case DeleteBudget(id) => "/budgets/" + id
  }

  /** A call on one stored item goes to a path that ends with `/` and the item's id. */
  lemma ItemPathEndsWithId(ep: Endpoint)
    requires TargetsItem(ep)
    ensures var p := BasePath(ep);
      |p| > |ep.id| && p[|p| - |ep.id| - 1] == '/' && p[|p| - |ep.id|..] == ep.id
  {
  }

  /** The endpoints that carry the token as a query parameter: everything except login,
      registration, the category list, and transaction update and delete. */
  predicate TokenInQuery(ep: Endpoint) {
    !(ep.ValidateUser? || ep.RegisterUser? || ep.GetCategories? || ep.UpdateTransaction? || ep.DeleteTransaction?)
  }

  /** The path an endpoint function passes to `apiFetch`. */
  function EndpointPath(ep: Endpoint, st: TokenStore): (p: string)
    ensures !TokenInQuery(ep) ==> p == BasePath(ep)
    ensures TokenInQuery(ep) ==> (|p| >= |BasePath(ep)| + 7 && p[..|BasePath(ep)|] == BasePath(ep)
      && p[|BasePath(ep)| + 1..|BasePath(ep)| + 7] == "token="
      && DecodeUriComponent(p[|BasePath(ep)| + 7..]) == Some(QueryTokenValue(st)))
  {
    if TokenInQuery(ep) then WithToken(BasePath(ep), st) else BasePath(ep)
  }

  /** `listTransactions(params)`: caller params come first, so with any params the token is
      joined by `&`; without params the token opens the query. */
  lemma ListTransactionsQuery(params: seq<(string, string)>, st: TokenStore)
    ensures var base := BasePath(ListTransactions(params));
      && (params == [] ==> base == "/transactions/")
      && (params != [] ==> base == "/transactions/?" + QueryString(params))
      && EndpointPath(ListTransactions(params), st)[|base|] == (if params != [] then '&' else '?')
  {
    var base := BasePath(ListTransactions(params));
    if params != [] {
      assert base[14] == '?';
    } else {
      assert base == "/transactions/";
      assert '?' !in base;
    }
  }

  /** The body `createCategoryApi` / `updateCategoryApi` send: `description` defaults to `''`
      and `schedulable` to `false` when not given. */
  function CategoryBody(name: Value, description: Value, schedulable: Value): (b: Value)
    ensures b.Obj? && Keys(b.fields) == ["name", "description", "schedulable"]
    ensures Field(b.fields, "name") == name
    ensures Field(b.fields, "description") == (if description.Undefined? then Str("") else description)
    ensures Field(b.fields, "schedulable") == (if schedulable.Undefined? then Bool(false) else schedulable)
  {
    var fs := [("name", name),
               ("description", if description.Undefined? then Str("") else description),
               ("schedulable", if schedulable.Undefined? then Bool(false) else schedulable)];
    assert "schedulable"[0] != "name"[0] && "description"[0] != "name"[0];
    assert Field(fs[..2][..1], "name") == name;
    assert Field(fs[..2], "name") == name;
    Obj(fs)
  }

  const REGISTER_KEYS: seq<string> := ["name", "lastname", "email", "phone", "password"]
  const CREATE_BUDGET_KEYS: seq<string> := ["category", "amount", "month"]

  /** A body rebuilt from the destructured argument, as `register` and `createBudget` send it:
      exactly the listed keys, in the listed order, every other field of the argument dropped.
      Destructuring null or undefined throws, which is `None`. */
  function RebuiltBody(arg: Value, keys: seq<string>): (b: Option<Value>)
    ensures b.None? <==> Nullish(arg)
    ensures b.Some? ==> b.value.Obj? && Keys(b.value.fields) == keys
    ensures b.Some? ==> forall k :: Field(b.value.fields, k) == if k in keys then Prop(arg, k) else Undefined
  {
    if Nullish(arg) then None
    else
      var fs := Pick(arg, keys);
      forall k ensures Field(fs, k) == if k in keys then Prop(arg, k) else Undefined {
        FieldOfPick(arg, keys, k);
      }
      Some(Obj(fs))
  }

  /** `register({name, lastname, email, phone, password})`'s body. */
  function RegisterBody(arg: Value): (b: Option<Value>)
    ensures b.None? <==> Nullish(arg)
    ensures b.Some? ==> b.value.Obj? && Keys(b.value.fields) == ["name", "lastname", "email", "phone", "password"]
    ensures b.Some? ==> Field(b.value.fields, "password") == Prop(arg, "password")
  {
    RebuiltBody(arg, REGISTER_KEYS)
  }

  /** `createBudget({category, amount, month})`'s body. */
  function CreateBudgetBody(arg: Value): (b: Option<Value>)
    ensures b.None? <==> Nullish(arg)
    ensures b.Some? ==> b.value.Obj? && Keys(b.value.fields) == ["category", "amount", "month"]
    ensures b.Some? ==> Field(b.value.fields, "category") == Prop(arg, "category")
  {
    RebuiltBody(arg, CREATE_BUDGET_KEYS)
  }

  /** A token made of unreserved characters travels in the query unchanged. */
  lemma EncodeUnreserved(s: string)
    requires forall k :: 0 <= k < |s| ==> UriUnreserved(s[k])
    ensures EncodeUriComponent(s) == s
  {
    if s != [] {
      EncodeUnreserved(s[1..]);
      assert s == [s[0]] + s[1..];
    }
  }

  /** After a successful login with `{token: "abc"}`, the next authenticated call carries the
      token both as a bearer header and as the query parameter. */
  lemma LoginThenAuthenticatedCall(st: TokenStore)
    ensures var r := Login(st, Returned(Obj([("token", Str("abc"))])));
      && r == LoggedIn("abc", SetToken(st, Some("abc")))
      && Get(RequestHeaders(r.store, []), "Authorization") == Some("Bearer abc")
      && EndpointPath(ListBudgets, r.store) == "/budgets/?token=abc"
  {
    var r := Login(st, Returned(Obj([("token", Str("abc"))])));
    assert r.store == TokenStore(Some("abc"), Some("abc"));
    BearerHeaderAfterLogin(r.store);
    BudgetsPathAfterLogin(r.store);
  }

  lemma BearerHeaderAfterLogin(st: TokenStore)
    requires st.memory == Some("abc")
    ensures Get(RequestHeaders(st, []), "Authorization") == Some("Bearer abc")
  {
    var none: seq<Header> := [];
    assert "Authorization" !in Keys(none);
    assert Get(DefaultHeaders(st), "Authorization") == Some("Bearer " + "abc");
    assert "Bearer " + "abc" == "Bearer abc";
  }

  lemma BudgetsPathAfterLogin(st: TokenStore)
    requires st.memory == Some("abc")
    ensures EndpointPath(ListBudgets, st) == "/budgets/?token=abc"
  {
    assert BasePath(ListBudgets) == "/budgets/";
    assert '?' !in "/budgets/";
    assert QueryTokenValue(st) == "abc";
    EncodeUnreserved("abc");
    BudgetsLiteral();
  }

  lemma BudgetsLiteral()
    ensures "/budgets/" + ['?'] + "token=" + "abc" == "/budgets/?token=abc"
  {
  }

  /** Before `loadToken` runs, a token that is only in storage reaches the query parameter but
      not the headers, which read memory alone. */
  lemma StorageTokenOnlyInQuery(t: string)
    requires t != []
    ensures var st := TokenStore(None, Some(t));
      && QueryTokenValue(st) == t
      && Get(RequestHeaders(st, []), "Authorization").None?
  {
  }
}
