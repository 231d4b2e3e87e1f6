/** From a configured base URL to the endpoint that a stored API key is bound to. */
module LlmEndpoints {
  import opened Wrappers
  import opened Bytes

  /** A parsed URL. `loopback` says whether its host is the local machine. */
  datatype Url = Url(
    scheme: string,
    host: string,
    loopback: bool,
    opaquePath: bool,
    hasUser: bool,
    hasPassword: bool,
    hasQuery: bool,
    hasFragment: bool,
    path: string)

  /** The settings as typed in, and what parsing the base URL gives. */
  datatype Llm = Llm(baseUrl: string, url: Option<Url>, model: string)

  const COMPLETIONS := "/chat/completions"

  predicate EndsWith(s: string, suffix: string) {
    |suffix| <= |s| && s[|s| - |suffix|..] == suffix
  }

  function TrimEndSlashes(s: string): (t: string)
    ensures |t| <= |s| && t == s[..|t|]
    ensures t == [] || t[|t| - 1] != '/'
    ensures forall i :: |t| <= i < |s| ==> s[i] == '/'
  {
    if s != [] && s[|s| - 1] == '/' then TrimEndSlashes(s[..|s| - 1]) else s
  }

  function EndpointPath(path: string): string {
    if EndsWith(TrimEndSlashes(path), COMPLETIONS) then path else TrimEndSlashes(path) + COMPLETIONS
  }

  predicate Allowed(u: Url) {
    && !u.opaquePath && !u.hasUser && !u.hasPassword && !u.hasQuery && !u.hasFragment
    && (u.scheme == "https" || (u.scheme == "http" && u.loopback))
  }

  /** The endpoint whose fingerprint names the key's record; None where the
      configuration is refused. */
  function Endpoint(llm: Llm): Option<Url> {
    if IsBlank(llm.model) || llm.url.None? || !Allowed(llm.url.value) then None
    else Some(llm.url.value.(path := EndpointPath(llm.url.value.path)))
  }

  lemma TrimEndsAt(s: string)
    ensures s == [] || s[|s| - 1] != '/' ==> TrimEndSlashes(s) == s
  {
  }

  /** The full endpoint, given as a base URL, is its own endpoint. */
  lemma EndpointPathIdempotent(path: string)
    ensures EndpointPath(EndpointPath(path)) == EndpointPath(path)
    ensures EndsWith(TrimEndSlashes(EndpointPath(path)), COMPLETIONS)
  {
    var trimmed := TrimEndSlashes(path);
    if !EndsWith(trimmed, COMPLETIONS) {
      var full := trimmed + COMPLETIONS;
      assert full[|full| - 1] == COMPLETIONS[|COMPLETIONS| - 1] == 's';
      TrimEndsAt(full);
      assert full[|full| - |COMPLETIONS|..] == COMPLETIONS;
    }
  }

  /** A trailing slash makes no difference to the endpoint, and so keeps the key,
      exactly when the path does not already name the completions endpoint. */
  lemma TrailingSlashKeepsEndpointIff(path: string)
    ensures EndpointPath(path + "/") == EndpointPath(path) <==> !EndsWith(TrimEndSlashes(path), COMPLETIONS)
  {
    var slashed := path + "/";
    assert slashed[|slashed| - 1] == '/' && slashed[..|slashed| - 1] == path;
    assert TrimEndSlashes(slashed) == TrimEndSlashes(path);
    assert |slashed| != |path|;
  }
}
