/**
 * What a handler of the dashboard asks of the outside world, in the order it
 * asks: calls to the identity provider, reads and writes of the database, and
 * moves of the client-side router. Replies of the provider are not computed
 * here; every handler receives them as inputs.
 */
module Effects {
  import opened Base
  import opened Schema

  /** A redirect target: a path and its query parameters in order. */
  datatype Url = Url(path: string, query: seq<(string, string)>)

  /** The value of query parameter `key`, if the URL carries it: the value
      of the first pair with that key, as `URLSearchParams.get` returns. */
  function Param(u: Url, key: string): (r: Option<string>)
    ensures r.None? <==> forall i :: 0 <= i < |u.query| ==> u.query[i].0 != key
    ensures r.Some? ==> exists i ::
      && 0 <= i < |u.query| && u.query[i] == (key, r.value)
      && forall j :: 0 <= j < i ==> u.query[j].0 != key
    decreases |u.query|
  {
    if |u.query| == 0 then None
    else if u.query[0].0 == key then Some(u.query[0].1)
    else
      var r := Param(Url(u.path, u.query[1..]), key);
      assert r.Some? ==> exists i ::
          && 0 <= i < |u.query| && u.query[i] == (key, r.value)
          && forall j :: 0 <= j < i ==> u.query[j].0 != key by {
        if r.Some? {
          var k :| 0 <= k < |u.query[1..]| && u.query[1..][k] == (key, r.value)
            && forall j :: 0 <= j < k ==> u.query[1..][j].0 != key;
          assert u.query[k + 1] == (key, r.value);
          assert forall j :: 0 <= j < k + 1 ==> u.query[j].0 != key by {
            forall j | 0 <= j < k + 1
              ensures u.query[j].0 != key
            {
              if j > 0 {
                assert u.query[j] == u.query[1..][j - 1];
              }
            }
          }
        }
      }
      r
  }

  /** One filter of a database read (`.ilike(column, pattern)` or
      `.eq(column, value)`). */
  datatype Constraint =
    | ILike(column: string, pattern: string)
    | Eq(column: string, value: string)

  /** A database read: table, ordering, filters (combined by conjunction),
      an optional inclusive index range and an optional row limit. */
  datatype Query = Query(
    table: string,
    orderBy: string,
    ascending: bool,
    constraints: seq<Constraint>,
    range: Option<(int, int)>,
    limit: Option<nat>)

  datatype Effect =
    | GetSession
    | LookupAdmin(userId: string)
    | SignOut
    | SignIn(email: string, password: string)
    | SignUp(email: string, password: string, emailRedirectTo: string)
    | InsertAdmin(admin: AdminInsert)
    | InsertBusiness(business: BusinessInsert)
    | UpdateBusiness(businessId: string, businessChanges: BusinessUpdate)
    | InsertCategory(category: CategoryInsert)
    | UpdateCategory(categoryId: string, categoryChanges: CategoryUpdate)
    | DeleteCategory(deletedId: string)
    | Select(query: Query)
    | Navigate(path: string)
    | Refresh

  /** The `{ data, error }` pair every database call answers with. */
  datatype Reply<T> = Reply(data: Option<T>, error: Option<string>)
}
