/**
 * The decision rules of client/src/lib/queryClient.ts: the retry policy of the query
 * client, the choice of API base URL, and how `apiRequest` shapes its URL, its request
 * body and its error.  `fetch` itself is left out: the response is a parameter.
 */
module QueryClient {
  import opened Wrappers
  import opened Text
  import opened Json

  // ---------------------------------------------------------------- retry policy

  /** A react-query `retry` option: a flag, or the predicate the query client installs. */
  datatype RetryOption = RetryFlag(enabled: bool) | RetryUnlessClientError

  /** `defaultOptions.queries.retry`. */
  const QueryRetry: RetryOption := RetryUnlessClientError
  /** `defaultOptions.mutations.retry`. */
  const MutationRetry: RetryOption := RetryFlag(false)

  const MaxQueryRetries: nat := 3

  /** `error?.status >= 400 && error?.status < 500`; an absent status compares false. */
  predicate IsClientError(status: Option<int>) {
    status.Some? && 400 <= status.value < 500
  }

  /** Whether the failure numbered `failureCount` (counting from 0), whose error carries
      `status`, is retried. */
  predicate ShouldRetry(option: RetryOption, failureCount: nat, status: Option<int>) {
    match option
    case RetryFlag(enabled) => enabled
    case RetryUnlessClientError => !IsClientError(status) && failureCount < MaxQueryRetries
  }

  /** The query policy: never on a 4xx status; otherwise while fewer than three failures
      have been retried.  Mutations are never retried. */
  lemma RetryPolicy(failureCount: nat, status: Option<int>)
    ensures IsClientError(status) ==> !ShouldRetry(QueryRetry, failureCount, status)
    ensures !IsClientError(status) ==>
              (ShouldRetry(QueryRetry, failureCount, status) <==> failureCount < 3)
    ensures !ShouldRetry(MutationRetry, failureCount, status)
  {
  }

  /** How many retries a request makes when its successive failures carry `statuses`:
      react-query asks the policy after each failure and stops at the first refusal. */
  function RetriesMade(option: RetryOption, statuses: seq<Option<int>>, failureCount: nat): (n: nat)
    ensures n <= |statuses|
    decreases |statuses|
  {
    if statuses == [] || !ShouldRetry(option, failureCount, statuses[0]) then 0
    else 1 + RetriesMade(option, statuses[1..], failureCount + 1)
  }

  /** Whatever the failures, a query is retried at most three times in all. */
  lemma {:induction false} AtMostThreeRetries(statuses: seq<Option<int>>, failureCount: nat)
    requires failureCount <= MaxQueryRetries
    ensures failureCount + RetriesMade(QueryRetry, statuses, failureCount) <= MaxQueryRetries
    decreases |statuses|
  {
    if statuses != [] && ShouldRetry(QueryRetry, failureCount, statuses[0]) {
      AtMostThreeRetries(statuses[1..], failureCount + 1);
    }
  }

  /** A mutation is never retried. */
  lemma MutationNeverRetried(statuses: seq<Option<int>>)
    ensures RetriesMade(MutationRetry, statuses, 0) == 0
  {
  }

  // ---------------------------------------------------------------- getApiBaseUrl

  /** The parts of `window.location` the rule reads. */
  datatype Location = Location(hostname: string, origin: string)

  const NetlifyFunctionsUrl: string := "https://cerulean-entremet-0a91fd.netlify.app/.netlify/functions/api"
  const DevServerUrl: string := "http://localhost:5000"

  /** `getApiBaseUrl()`; `window` is `None` when it is undefined. */
  function GetApiBaseUrl(window: Option<Location>): (url: string)
    ensures window.None? ==> url == ""
    ensures window.Some? && Contains(window.value.hostname, "netlify.app") ==> url == NetlifyFunctionsUrl
    ensures window.Some? && !Contains(window.value.hostname, "netlify.app") ==>
              (window.value.hostname in {"localhost", "127.0.0.1"} ==> url == DevServerUrl) &&
              (window.value.hostname !in {"localhost", "127.0.0.1"} ==> url == window.value.origin)
  {
    match window
    case None => ""
    case Some(loc) =>
      if Contains(loc.hostname, "netlify.app") then NetlifyFunctionsUrl
      else if loc.hostname == "localhost" || loc.hostname == "127.0.0.1" then DevServerUrl
      else loc.origin
  }

  /** Any Netlify preview host, such as `deploy-7--site.netlify.app`, uses the functions URL. */
  lemma NetlifySubdomain(prefix: string, origin: string)
    ensures GetApiBaseUrl(Some(Location(prefix + "netlify.app", origin))) == NetlifyFunctionsUrl
  {
    var host := prefix + "netlify.app";
    assert host[|prefix|..|prefix| + |"netlify.app"|] == "netlify.app";
    ContainsAt(host, "netlify.app", |prefix|);
  }

  // ---------------------------------------------------------------- apiRequest

  datatype HttpMethod = GET | POST | PUT | DELETE | PATCH

  /** The `fetch(url, config)` call: JSON content type and credentials are always set. */
  datatype FetchCall = FetchCall(url: string, verb: HttpMethod, body: Option<Json>)

  /** The URL and the request `apiRequest(verb, endpoint, body)` sends; `body` is `None`
      when the argument is omitted, and a falsy body is not attached. */
  function BuildRequest(window: Option<Location>, verb: HttpMethod, endpoint: string,
                        body: Option<Json>): (call: FetchCall)
    ensures call.url == GetApiBaseUrl(window) + endpoint
    ensures call.verb == verb
    ensures call.body.Some? <==> body.Some? && Truthy(body.value)
    ensures call.body.Some? ==> call.body == body
  {
    FetchCall(GetApiBaseUrl(window) + endpoint, verb,
              if body.Some? && Truthy(body.value) then body else None)
  }

  /** What `fetch` resolved to: the status and the body, `None` when it is not JSON. */
  datatype FetchResponse = FetchResponse(status: nat, json: Option<Json>)

  /** `response.ok`. */
  predicate IsOk(response: FetchResponse) {
    200 <= response.status <= 299
  }

  /** How `apiRequest` settles. `ReadOfNull` is the `TypeError` raised when an error
      body is the JSON value `null` and `errorData.message` is read on it. */
  datatype ApiOutcome =
    | Resolved(response: FetchResponse)
    | HttpError(message: string, status: nat)
    | ReadOfNull

  const NetworkErrorMessage: string := "Network error"

  /** The reply body carries a non-empty string `message`, which is truthy. */
  predicate UsableMessage(errorData: Json) {
    && errorData.JObj? && "message" in errorData.fields && errorData.fields["message"].JStr?
    && errorData.fields["message"].s != ""
  }

  /** `errorData.message || \`HTTP error! status: ${status}\``, for a string message. */
  function ErrorMessage(errorData: Json, status: nat): (m: string)
    requires !errorData.JNull?
    ensures m != ""
    ensures UsableMessage(errorData) ==> m == errorData.fields["message"].s
    ensures !UsableMessage(errorData) ==> m == "HTTP error! status: " + NatToString(status)
  {
    if UsableMessage(errorData) then errorData.fields["message"].s
    else "HTTP error! status: " + NatToString(status)
  }

  /** The response handling of `apiRequest`: an ok response is returned; otherwise the
      error carries the server's message (or "Network error" when the body is not JSON)
      and the response status. */
  function SettleResponse(response: FetchResponse): (r: ApiOutcome)
    ensures IsOk(response) <==> r == Resolved(response)
    ensures !IsOk(response) && response.json != Some(JNull) ==>
              r.HttpError? && r.status == response.status
    ensures !IsOk(response) && response.json.None? ==> r == HttpError(NetworkErrorMessage, response.status)
    ensures !IsOk(response) && response.json.Some? && response.json.value != JNull ==>
              r == HttpError(ErrorMessage(response.json.value, response.status), response.status)
    ensures !IsOk(response) && response.json == Some(JNull) ==> r == ReadOfNull
  {
    if IsOk(response) then Resolved(response)
    else
      match response.json
      case None => HttpError(ErrorMessage(JObj(map["message" := JStr(NetworkErrorMessage)]), response.status), response.status)
      case Some(JNull) => ReadOfNull
      case Some(data) => HttpError(ErrorMessage(data, response.status), response.status)
  }

  /** A non-ok reply without a usable message reports its status in the text. */
  lemma StatusInFallbackMessage(status: nat)
    requires !(200 <= status <= 299)
    ensures SettleResponse(FetchResponse(status, Some(JObj(map[])))) ==
              HttpError("HTTP error! status: " + NatToString(status), status)
  {
  }
}
