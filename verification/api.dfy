/** The browser's request helper: every call goes through it, which puts the
    `/api` prefix on the path and builds the request headers from the stored
    session token and the kind of body. */
module ApiFetch {
  import opened Common
  import opened Text

  const ApiPrefix: string := "/api"

  /** The kinds of request body that matter for the headers. */
  datatype RequestBody = NoBody | FormDataBody | JsonBody(text: string)

  /** The path actually requested: unchanged when it already starts with
      `/api` (a purely textual test, so `/apix` counts), otherwise `/api`
      followed by exactly one slash and the path without its leading slash. */
  function NormalizePath(path: string): (r: string)
    ensures StartsWith(r, ApiPrefix)
    ensures StartsWith(path, ApiPrefix) ==> r == path
    ensures !StartsWith(path, ApiPrefix) ==>
              && |r| > |ApiPrefix|
              && r[|ApiPrefix|] == '/'
              && r[|ApiPrefix| + 1..] == (if StartsWith(path, "/") then path[1..] else path)
  {
    if StartsWith(path, ApiPrefix) then path
    else ApiPrefix + (if StartsWith(path, "/") then "" else "/") + path
  }

  /** Normalising twice is the same as normalising once. */
  lemma NormalizePathIdempotent(path: string)
    ensures NormalizePath(NormalizePath(path)) == NormalizePath(path)
  {
  }

  /** `/x` and `x` reach the same endpoint `/api/x`. */
  lemma NormalizePathLeadingSlash(x: string)
    requires !StartsWith(x, "/")
    requires !StartsWith("/" + x, ApiPrefix)
    ensures NormalizePath("/" + x) == NormalizePath(x) == "/api/" + x
  {
    assert ("/" + x)[1..] == x;
  }

  /** The full URL: the configured base followed by the normalised path. */
  function RequestUrl(base: string, path: string): (url: string)
    ensures StartsWith(url, base)
    ensures StartsWith(url[|base|..], ApiPrefix)
    ensures url == base + NormalizePath(path)
  {
    var url := base + NormalizePath(path);
    assert url[|base|..] == NormalizePath(path);
    url
  }

  /** The `Authorization` value: `Bearer <token>` for a stored non-empty
      token, the empty string otherwise. */
  function AuthorizationValue(token: Option<string>): (v: string)
    ensures token.Some? && token.value != "" ==> StartsWith(v, "Bearer ") && v[7..] == token.value
    ensures token.None? || token.value == "" ==> v == ""
  {
    if token.Some? && token.value != "" then "Bearer " + token.value else ""
  }

  /** The headers sent: the caller's headers, then `Authorization` (always,
      overriding the caller's), then `Content-Type: application/json` unless
      the body is form data. */
  function BuildHeaders(caller: map<string, string>, token: Option<string>, body: RequestBody): (h: map<string, string>)
    ensures h.Keys == caller.Keys + {"Authorization"} + (if body.FormDataBody? then {} else {"Content-Type"})
    ensures h["Authorization"] == AuthorizationValue(token)
    ensures !body.FormDataBody? ==> h["Content-Type"] == "application/json"
    ensures forall k :: k in caller && k != "Authorization" && (body.FormDataBody? || k != "Content-Type") ==>
              h[k] == caller[k]
  {
    var withAuth := caller["Authorization" := AuthorizationValue(token)];
    if body.FormDataBody? then withAuth else withAuth["Content-Type" := "application/json"]
  }
}
