/**
 * Backend URL resolution (frontend/src/lib/api/get-backend-url.ts): the
 * environment variables are a parameter, each `undefined` when unset.
 */
module BackendUrl {
  import opened Wrappers
  import opened Text

  /** `API_URL_INTERNAL`, `NEXT_PUBLIC_API_URL_BROWSER`, `RUNNING_IN_DOCKER`, `NODE_ENV`. */
  datatype Env = Env(
    apiUrlInternal: Option<string>,
    apiUrlBrowser: Option<string>,
    runningInDocker: Option<string>,
    nodeEnv: Option<string>)

  const Localhost := "http://localhost:8000"

  /** Host names that only resolve inside the Docker network. */
  const DockerHostnames := ["ai_backend", "host.docker.internal"]

  /** `value?.trim()`. */
  function Trimmed(value: Option<string>): Option<string> {
    match value
    case None => None
    case Some(v) => Some(Trim(JavaScript, v))
  }

  /** JavaScript truthiness of a string that may be `undefined`. */
  predicate Truthy(value: Option<string>) {
    value.Some? && value.value != []
  }

  /** `hosts.some(host => url.includes(host))`. */
  predicate MentionsAny(url: string, hosts: seq<string>) {
    hosts != [] && (Contains(url, hosts[0]) || MentionsAny(url, hosts[1..]))
  }

  /** `dockerHostnames.some(host => apiInternal?.includes(host))`: `undefined` mentions nothing. */
  predicate IsDockerInternalUrl(apiInternal: Option<string>) {
    apiInternal.Some? && MentionsAny(apiInternal.value, DockerHostnames)
  }

  /** `getBackendUrl`. */
  function GetBackendUrl(env: Env): (url: string)
    ensures url != []
    ensures url == Localhost || url == Trimmed(env.apiUrlInternal).GetOr([]) || url == Trimmed(env.apiUrlBrowser).GetOr([])
  {
    var apiInternal := Trimmed(env.apiUrlInternal);
    var apiBrowser := Trimmed(env.apiUrlBrowser);
    var runningInDocker := env.runningInDocker == Some("true");
    if runningInDocker && Truthy(apiInternal) then apiInternal.value
    else if IsDockerInternalUrl(apiInternal) && !runningInDocker then
      (if Truthy(apiBrowser) then apiBrowser.value else Localhost)
    else if Truthy(apiBrowser) then apiBrowser.value
    else if Truthy(apiInternal) then apiInternal.value
    else Localhost
  }

  /** What `getBackendUrlWithLog` returns, and the console line it writes outside production. */
  datatype Logged = Logged(url: string, log: Option<string>)

  /** `getBackendUrlWithLog(context)`. */
  function GetBackendUrlWithLog(env: Env, context: Option<string>): (r: Logged)
    ensures r.url == GetBackendUrl(env)
    ensures r.log.Some? <==> env.nodeEnv != Some("production")
  {
    var url := GetBackendUrl(env);
    var tag := if Truthy(context) then context.value else "API";
    if env.nodeEnv != Some("production") then
      Logged(url, Some("\U{1F517} [" + tag + "] Using backend: " + url))
    else Logged(url, None)
  }

  // ---------------------------------------------------------------------------
  // Properties

  /** The URL is one of the configured values, trimmed, or the local default; never padded. */
  lemma UrlIsTrimmed(env: Env)
    ensures var url := GetBackendUrl(env);
      url == Localhost || (!IsSpace(JavaScript, url[0]) && !IsSpace(JavaScript, url[|url| - 1]))
  {
    TrimmedIsClean(env.apiUrlInternal);
    TrimmedIsClean(env.apiUrlBrowser);
  }

  /** A trimmed value is empty or starts and ends with a non-space. */
  lemma TrimmedIsClean(value: Option<string>)
    ensures var t := Trimmed(value).GetOr([]);
      t == [] || (!IsSpace(JavaScript, t[0]) && !IsSpace(JavaScript, t[|t| - 1]))
  {
  }

  /** Inside Docker a configured internal URL always wins. */
  lemma DockerUsesInternal(env: Env)
    requires env.runningInDocker == Some("true") && Truthy(Trimmed(env.apiUrlInternal))
    ensures GetBackendUrl(env) == Trim(JavaScript, env.apiUrlInternal.value)
  {
  }

  /**
   * Outside Docker an internal URL naming a Docker host is skipped: the
   * browser URL is used, or the local default.
   */
  lemma DockerHostSkippedOutside(env: Env)
    requires env.runningInDocker != Some("true") && IsDockerInternalUrl(Trimmed(env.apiUrlInternal))
    ensures var browser := Trimmed(env.apiUrlBrowser);
      GetBackendUrl(env) == if Truthy(browser) then browser.value else Localhost
  {
  }

  /** Otherwise the browser URL is preferred, then the internal URL, then the local default. */
  lemma Precedence(env: Env)
    requires !(env.runningInDocker == Some("true") && Truthy(Trimmed(env.apiUrlInternal)))
    requires !(env.runningInDocker != Some("true") && IsDockerInternalUrl(Trimmed(env.apiUrlInternal)))
    ensures var browser, internal := Trimmed(env.apiUrlBrowser), Trimmed(env.apiUrlInternal);
      GetBackendUrl(env) ==
        if Truthy(browser) then browser.value else if Truthy(internal) then internal.value else Localhost
  {
  }

  /** A whitespace-only internal URL behaves exactly as an unset one. */
  lemma BlankInternalIsUnset(env: Env)
    requires env.apiUrlInternal.Some? && IsBlank(JavaScript, env.apiUrlInternal.value)
    ensures GetBackendUrl(env) == GetBackendUrl(env.(apiUrlInternal := None))
  {
    NothingInEmpty(DockerHostnames);
  }

  /** A whitespace-only browser URL behaves exactly as an unset one. */
  lemma BlankBrowserIsUnset(env: Env)
    requires env.apiUrlBrowser.Some? && IsBlank(JavaScript, env.apiUrlBrowser.value)
    ensures GetBackendUrl(env) == GetBackendUrl(env.(apiUrlBrowser := None))
  {
    assert !Truthy(Trimmed(env.apiUrlBrowser));
  }

  /** The empty string mentions no non-empty host. */
  lemma {:induction false} NothingInEmpty(hosts: seq<string>)
    requires forall i :: 0 <= i < |hosts| ==> hosts[i] != []
    ensures !MentionsAny([], hosts)
  {
    if hosts != [] {
      NothingInEmpty(hosts[1..]);
    }
  }

  /** With nothing configured the local default is used. */
  lemma NothingConfigured(env: Env)
    requires env.apiUrlInternal.None? && env.apiUrlBrowser.None?
    ensures GetBackendUrl(env) == Localhost
  {
  }
}
