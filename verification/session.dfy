/** The session token slot of src/services/api.js: an in-memory copy (`authToken`) and the
    durable copy kept under the `auth_token` key of secure storage. */
module Session {
  import opened Wrappers

  datatype TokenStore = TokenStore(memory: Option<string>, durable: Option<string>)

  /** A token value that JavaScript treats as truthy: present and non-empty. */
  predicate Present(t: Option<string>) {
    t.Some? && t.value != []
  }

  /** `loadToken()`: copies the durable token into memory. */
  function LoadToken(st: TokenStore): (r: TokenStore)
    ensures r.durable == st.durable
    ensures r.memory == st.durable
  {
    TokenStore(st.durable, st.durable)
  }

  /** `setToken(token)`: memory always takes the value; storage is written for a truthy token
      and cleared otherwise. */
  function SetToken(st: TokenStore, token: Option<string>): (r: TokenStore)
    ensures r.memory == token
    ensures Present(token) ==> r.durable == token
    ensures !Present(token) ==> r.durable.None?
  {
    TokenStore(token, if Present(token) then token else None)
  }

  /** `getToken()`: the in-memory token when truthy, otherwise whatever storage holds. */
  function GetToken(st: TokenStore): (t: Option<string>)
    ensures Present(st.memory) ==> t == st.memory
    ensures !Present(st.memory) ==> t == st.durable
  {
    if Present(st.memory) then st.memory else st.durable
  }

  /** The token the query parameter carries: `t || ''`. */
  function QueryTokenValue(st: TokenStore): (v: string)
    ensures Present(GetToken(st)) ==> v == GetToken(st).value
    ensures !Present(GetToken(st)) ==> v == []
  {
    GetToken(st).GetOr([])
  }

  /** Whenever memory holds a truthy token, storage holds the same token. */
  predicate Consistent(st: TokenStore) {
    Present(st.memory) ==> st.durable == st.memory
  }

  /** Setting a truthy token makes it the token every later read sees; setting a falsy one
      logs out: nothing is read back, whatever storage held before. */
  lemma GetAfterSet(st: TokenStore, token: Option<string>)
    ensures Present(token) ==> GetToken(SetToken(st, token)) == token
    ensures !Present(token) ==> GetToken(SetToken(st, token)).None?
  {
  }

  /** `setToken` and `loadToken` keep memory and storage in agreement. */
  lemma ConsistencyPreserved(st: TokenStore, token: Option<string>)
    ensures Consistent(SetToken(st, token))
    ensures Consistent(LoadToken(st))
  {
  }

  /** Priming the cache at start-up does not change the token reads see, as long as memory and
      storage agree (in particular on a cold start, with nothing in memory). */
  lemma LoadKeepsToken(st: TokenStore)
    requires Consistent(st)
    ensures GetToken(LoadToken(st)) == GetToken(st)
  {
  }
}
