/**
 * The wire values the HTTP side produces: JSON documents as `serde_json`
 * builds them, and HTTP responses as actix-web sends them.
 */
module Json {
  import opened Wrappers

  /** A JSON value. Object members are kept in the order they are written. */
  datatype Json =
    | JNull
    | JBool(b: bool)
    | JInt(i: int)
    | JString(s: string)
    | JArray(items: seq<Json>)
    | JObject(members: seq<(string, Json)>)

  /** The value of the first member named `key`, if `j` is an object that has one. */
  function Member(j: Json, key: string): (r: Option<Json>)
    ensures r.Some? ==> j.JObject? && (key, r.value) in j.members
    ensures r.None? ==> !j.JObject? || forall m :: m in j.members ==> m.0 != key
  {
    if !j.JObject? then None else Lookup(j.members, key)
  }

  function Lookup(members: seq<(string, Json)>, key: string): (r: Option<Json>)
    ensures r.Some? ==> (key, r.value) in members
    ensures r.None? ==> forall m :: m in members ==> m.0 != key
  {
    if members == [] then None
    else if members[0].0 == key then Some(members[0].1)
    else Lookup(members[1..], key)
  }

  /** A response body: JSON, or the plain text actix-web sends for its own errors. */
  datatype Body = JsonBody(json: Json) | TextBody(text: string)

  datatype HttpResponse = HttpResponse(status: int, body: Body)

  const OK: int := 200
  const CREATED: int := 201
  const BAD_REQUEST: int := 400
  const UNAUTHORIZED: int := 401
  const FORBIDDEN: int := 403
  const NOT_FOUND: int := 404
  const INTERNAL_SERVER_ERROR: int := 500
}
