/**
  The parts of the API Gateway proxy events the function reads and writes,
  and the form-value helpers of Go's net/url package that the handler uses.
 */
module Http {
  import opened Wrappers

  const MethodGet := "GET"
  const MethodPost := "POST"
  const MethodPut := "PUT"

  const ContentType := "Content-Type"
  const TextHtml := "text/html"
  const ApplicationJson := "application/json"

  /** An API Gateway proxy request, reduced to the fields the handler looks at. */
  datatype Request = Request(
    httpMethod: string,
    queryParams: map<string, string>,
    headers: map<string, string>,
    body: string)

  /** An API Gateway proxy response. An absent header map is the empty map. */
  datatype Response = Response(statusCode: int, headers: map<string, string>, body: string)

  /** What a handler returns to the Lambda runtime: a response and an error that may be nil. */
  datatype Outcome = Outcome(response: Response, err: Option<string>)

  /** Indexing a Go map: a missing key reads as the zero value "". */
  function Lookup(m: map<string, string>, key: string): string {
    if key in m then m[key] else ""
  }

  /** Decoded form data (Go's url.Values): each key holds the list of its values. */
  type Values = map<string, seq<string>>

  /** url.Values.Get: the first value stored under the key, or "" when there is none. */
  function FormGet(form: Values, key: string): string {
    if key in form && |form[key]| > 0 then form[key][0] else ""
  }
}
