# link-blog API handler, modelled in Dafny

The link blog's serverless function keeps "links": a URL plus commentary,
stored in a remote SQL table. One HTTP endpoint serves four cases. GET lists
the links. POST creates one from a url-encoded form. PUT with an `id` query
parameter and an empty form serves an HTML edit form. PUT with a filled form
updates the link. Any other method gets an empty 200. Results go back as JSON,
or as an HTML fragment when the request carries `hx-request: true` (htmx).

This project models the two functions that decide anything:
- the dispatcher `handler`, as the imperative method `Api.Handler` over a store
  connection (`Store.Queries`);
- the negotiator `respond`, as the pure function `Negotiate.Respond`.

Files:
- `wrappers.dfy`: `Option` and `Result`.
- `http.dfy`: the request and response records, Go's zero-value map lookup, and
  `url.Values.Get`.
- `store.dfy`: the store.
  - `Db` is the table's state: links by id, the next id, and a log of every
    query sent.
  - `List`, `Create`, `Get` and `Update` state what the four generated queries
    do to a `Db`.
  - The `Queries` class is the connection object the handler mutates. Each of
    its methods is proved equal to the matching function.
  - Remote failures come from `Faults`. It gives the service's verdict on the
    n-th query sent: run it, or fail it with an error text.
- `negotiate.dfy`: `Respond`. Template rendering and JSON encoding are opaque
  functions that may fail.
- `api.dfy`: the dispatcher.
  - `Handle` is the handler's behaviour as a function of the store state and
    the request.
  - `Handler` runs the same steps one query at a time. Its postcondition
    equates its response and the new store state with `Handle`.
  - The lemmas prove the handler's properties about `Handle`: for each path,
    and for all requests.

Go returns a value and an error together, and this code often ignores the
error. The model keeps both halves, as `Answer(db, value, err)` and
`Converted(value, err)`, so ignored errors are ignored in the model too. A
failed fetch gives back Go's zero link `Link(0, "", "")`.

Several behaviours of the code differ from what a reader might expect, and
the model keeps them as the code has them:
- A POST whose read-back fails is not an internal error. The read-back error is
  dropped, and the zero link goes to the negotiator (`main.go:87`).
- The edit-form PUT does not reject a bad or unknown id. The conversion and
  fetch errors are dropped, and the form is rendered from the zero link
  (`main.go:96-99`).
- An unsupported value in the negotiator is 400, not 500 (`main.go:162`).
- Any method other than GET, POST or PUT succeeds with an empty 200, not a 405.
  It returns the handler's outer `err`, which is always nil by then
  (`main.go:140`).
- The second error check at `main.go:115` can never fire. In `Api.Handler` it
  is an `assert`. The url assignment at `main.go:123-125` is overwritten two
  lines later (`main.go:127`), and the method keeps both steps.

## Model

| member | source | states |
|---|---|---|
| `Api.Handler` | netlify/functions/api/main.go:57-141 | The handler, run as store calls one after another. Its response, runtime error and new store state are exactly those `Api.Handle` gives for the old state. It keeps the store invariant. |
| `Api.Handle` | netlify/functions/api/main.go:57-141 | Dispatch on the HTTP method. For every request the store only grows (`Grows`): the invariant is kept, the query log is only appended to, no link is removed, and the id counter never goes back. |
| `Api.HandleGet` | netlify/functions/api/main.go:58-68 | The GET case. It keeps `Grows`. |
| `Api.HandlePost` | netlify/functions/api/main.go:69-88 | The POST case. It keeps `Grows`. |
| `Api.HandlePut` | netlify/functions/api/main.go:89-137 | The PUT case, with the edit-form path and the apply path. It keeps `Grows`. |
| `Api.GetOnlyReads` | netlify/functions/api/main.go:58-68 | GET sends exactly one listing query and changes no link. On a remote error it answers 500 and hands the error to the runtime. Otherwise it answers with `Respond` on every stored link. |
| `Api.OtherMethodsDoNothing` | netlify/functions/api/main.go:139-140 | Any method other than GET, POST or PUT answers 200 with no headers, no body and no error. No query is sent. |
| `Api.PostRejectsInvalidBody` | netlify/functions/api/main.go:72-80 | A POST whose form does not parse, or has an empty url or commentary, answers 400 "Invalid request body". The store and the query log stay unchanged. |
| `Api.PostCreatesOnce` | netlify/functions/api/main.go:81-88 | A valid POST sends one insert with the form's fields. If the insert fails: 500 with its error text, nothing stored. Otherwise one link is stored under a previously unused id, and exactly one more link exists. The link is then read back by that id, and the read-back goes to `Respond`. If the read-back fails, the zero link goes instead, with no error. |
| `Api.PutServesEditForm` | netlify/functions/api/main.go:95-107 | A PUT with an id and a form with no keys sends one fetch and writes nothing. It answers 200 text/html with the rendered edit form, or 500 with the renderer's error. A failed fetch renders the zero link. |
| `Api.EditFormIgnoresHeaders` | netlify/functions/api/main.go:95-107 | On the edit-form path the result does not depend on any request header, hx-request included. |
| `Api.PutChecksIdFirst` | netlify/functions/api/main.go:109-113 | On the apply path, a failed fetch of the id answers 400 "Invalid link ID". The cause may be a missing link, an unconvertible id or a remote error. This holds whatever the form contains, so the id is checked before the fields. Only that fetch is sent, and nothing is written. |
| `Api.PutRejectsUnconvertibleId` | netlify/functions/api/main.go:109-113 | An id that strconv.Atoi turns into 0 (empty or not a number) is always answered 400 "Invalid link ID" on the apply path, because stored ids start at 1. |
| `Api.PutRejectsUnparsableBody` | netlify/functions/api/main.go:91-94 | A PUT whose form does not parse answers 400 "Invalid request body", whether or not an id is given. No query is sent and the store is unchanged. |
| `Api.PutRejectsEmptyField` | netlify/functions/api/main.go:118-122 | Once the id check passes, an empty url or commentary answers 400 "Invalid request body". Nothing beyond the fetch is sent. |
| `Api.PutUpdatesInPlace` | netlify/functions/api/main.go:123-137 | A valid update sends fetch, update and read-back for the same id. The record under that id gets the new url and commentary, and its id is unchanged. A failed update is 500 with its error and stores nothing. A failed read-back is 500 with its error. Otherwise the stored record goes to `Respond`. |
| `Api.HandleSendsExactly` | netlify/functions/api/main.go:57-141 | The queries a request sends are exactly those that `Api.Sent` lists, in that order. `Api.Sent` is written out separately from the handler. |
| `Api.LinksChangeOnlyByFilledWrites` | netlify/functions/api/main.go:72-137 | A request changes or adds only records whose url and commentary are both non-empty. |
| `Api.NeverWritesEmptyFields` | netlify/functions/api/main.go:72-137 | No request sends an insert or update with an empty url or commentary. A store whose links all have both fields keeps that property. |
| `Api.OneWriteThenReadBack` | netlify/functions/api/main.go:81-137 | Each request sends at most one write. A write that the service accepts is followed at once by a fetch. A write that the service refuses is the last query sent. |
| `Api.SentWritesReadBack` | netlify/functions/api/main.go:81-137 | The same discipline, stated on `Api.Sent`: at most one write, a read-back right after exactly when the write was accepted, and nothing after a refused write. |
| `Api.StatusCodesAndBadRequests` | netlify/functions/api/main.go:57-162 | The handler answers only 200, 400 or 500. Every 400 carries one of its own two messages and no runtime error, so the negotiator's unsupported-type branch is never reached. |
| `Api.PutIsIdempotent` | netlify/functions/api/main.go:109-137 | Once a PUT has changed the stored links, repeating the same PUT leaves the stored links as they are. |
| `Negotiate.Respond` | netlify/functions/api/main.go:147-181 | `hx-request` exactly "true" selects an HTML fragment: the list template for a list, the link template for one link, 200 text/html. Any other shape there is 400 with the "unsupported data type" error. Without that header: JSON, 200 application/json. A failing renderer or encoder gives 500. Failures carry no headers and no body. 200 holds exactly when there is no error. |
| `Negotiate.RespondReadsOnlyTheFragmentHeader` | netlify/functions/api/main.go:147 | The choice depends on the request only through the hx-request header. |
| `Store.List` | netlify/functions/api/main.go:64 | Listing logs one query and changes no link. It returns every stored link, or the remote error and an empty list. |
| `Store.Create` | netlify/functions/api/main.go:83 | An insert logs one query. On success it stores the record under the next id and returns that id. On failure nothing is stored. |
| `Store.Get` | netlify/functions/api/main.go:87 | A fetch logs one query and changes nothing. It succeeds exactly when the service runs it and the id is stored, and then returns that record. Otherwise it returns the zero link and an error. |
| `Store.Update` | netlify/functions/api/main.go:129 | An update logs one query. On success it replaces url and commentary of an existing id, keeping the id. On failure, or for an unknown id, the links are unchanged. |
| `Store.Db.Rows` | netlify/functions/api/main.go:64 | The listing has one entry per id from 1 to nextId - 1, and entry k is the link stored under id k + 1. |
| `Store.ListHoldsEveryLinkOnce` | netlify/functions/api/main.go:64 | The listing holds exactly the stored links, as many entries as there are links, in strictly ascending id order. |
| `Store.CreateThenGet` | netlify/functions/api/main.go:83-87 | A successful create keeps the store invariant and uses an id that was not in use. It adds exactly one link, and a fetch of the new id returns the given url and commentary. |
| `Store.UpdateThenGet` | netlify/functions/api/main.go:129-133 | A successful update keeps the store invariant and the set of ids. A later fetch returns the new fields under the same id. |
| `Store.Queries.constructor` | netlify/functions/api/main.go:49 | A new connection to the persisted table: its links and id counter are those the table holds from earlier requests, and its query log is empty. |
| `Store.Queries.ListLinks` | netlify/functions/api/main.go:64 | The connection's list call: rows, error and new state are those of `Store.List`, and only the log changes. |
| `Store.Queries.CreateLink` | netlify/functions/api/main.go:83 | The connection's create call: id, error and new state are those of `Store.Create`. |
| `Store.Queries.GetLink` | netlify/functions/api/main.go:87 | The connection's fetch call: record, error and new state are those of `Store.Get`, and only the log changes. |
| `Store.Queries.UpdateLink` | netlify/functions/api/main.go:129 | The connection's update call: error and new state are those of `Store.Update`. |

## Left out

- Opening the database, closing it, and running the schema DDL
  (`main.go:37-53`). These are I/O against the remote service. Their 500
  answers (a failed open, a failed DDL) are not modelled. Every modelled
  request starts from an open connection.
- Parsing the three templates (`main.go:54-56`). It is not modelled. Rendering
  is the opaque `Views.render`, which may fail.
- The JSON encoder (`main.go:172`), `url.ParseQuery` and `strconv.Atoi`. They
  are library code, modelled as opaque function inputs (`Views.encode`,
  `Env.parseQuery`, `Env.atoi`). So the exact JSON text is not modelled, nor
  which form bodies parse. Neither is which number Atoi returns for an
  out-of-range id. `Api.PutRejectsUnconvertibleId` assumes the documented 0
  for an empty or non-numeric id.
- The generated `models` package and the embedded SQL are not part of this
  model. The store is abstract:
  - ids are handed out from 1 upwards;
  - nothing is deleted;
  - a listing is in ascending id order;
  - a fetch of a missing id fails with Go's "no rows" error and the zero link.
- Remote failures are any pattern of per-query errors (`Faults`). Timeouts,
  partial writes and the service's own consistency are not modelled.
- The Lambda entry point (`main.go:31-33`) and the request-header log line
  (`main.go:145`). Neither has behaviour to verify.
- The empty branch for a GET with an id (`main.go:59-61`). It does nothing.
- The `context.Context` passed to every query. It carries no behaviour here.
- `respond` never changes the value it is given. In the model this needs no
  proof, because `Negotiate.Respond` is a pure function.
- Header lookup is an exact-key map lookup, as in the code. The case-insensitive
  handling of HTTP header names by API Gateway is not modelled.
- Concurrency between invocations is not modelled. Each request is one
  sequential step on the store.
