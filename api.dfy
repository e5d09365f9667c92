/**
  The request dispatcher of the link API (handler): it routes on the HTTP
  method, validates the form fields, sends the store its queries one after
  another and maps every outcome to a status code, a body and a content type.

  `Handle` states the dispatcher's behaviour as a function of the store's
  state and the request; `Handler` is the step-by-step procedure over the
  `Queries` connection, proved to behave exactly as `Handle` says. The lemmas
  below state the properties of `Handle`, path by path and for all requests.
 */
module Api {
  import opened Wrappers
  import opened Http
  import opened Store
  import opened Negotiate

  const InvalidBody := "Invalid request body"
  const InvalidLinkId := "Invalid link ID"

  /** strconv.Atoi's two results: the number and an error the handler never looks at. */
  datatype Converted = Converted(value: int, err: Option<string>)

  /**
    The library code the handler calls but the model does not look into:
    the renderer and encoder, url.ParseQuery and strconv.Atoi.
   */
  datatype Env = Env(
    views: Views,
    parseQuery: string -> Result<Values, string>,
    atoi: string -> Converted)

  /** A handled request: what went back to the runtime, and the database afterwards. */
  datatype Handled = Handled(outcome: Outcome, db: Db)

  function BadRequest(message: string): Outcome {
    Outcome(Response(400, map[], message), None)
  }

  function ServerError(message: string): Outcome {
    Outcome(Response(500, map[], message), None)
  }

  /** The id a PUT names, as the handler converts it. */
  function TargetId(env: Env, req: Request): int {
    env.atoi(Lookup(req.queryParams, "id")).value
  }

  /** A PUT whose form parsed to no keys at all and that names an id asks for the edit form. */
  predicate IsEditFormRequest(form: Values, req: Request) {
    |form| == 0 && Lookup(req.queryParams, "id") != ""
  }

  /**
    Every request, as a function of the store's state: a dispatch on the
    method. Whatever the request, the store only grows (see `Grows`).
   */
  ghost function Handle(env: Env, faults: Faults, db: Db, req: Request): (h: Handled)
    requires db.Valid()
    ensures Grows(db, h.db)
  {
    if req.httpMethod == MethodGet then HandleGet(env, faults, db, req)
    else if req.httpMethod == MethodPost then HandlePost(env, faults, db, req)
    else if req.httpMethod == MethodPut then HandlePut(env, faults, db, req)
    else Handled(Outcome(Response(200, map[], ""), None), db)
  }

  /**
    How one request may change the store: the invariant still holds, the
    query log is only appended to, no link disappears, and the id counter
    never goes back (so no id is handed out twice).
   */
  ghost predicate Grows(db: Db, after: Db) {
    && after.Valid()
    && db.issued <= after.issued
    && db.links.Keys <= after.links.Keys
    && db.nextId <= after.nextId
  }

  ghost function HandleGet(env: Env, faults: Faults, db: Db, req: Request): (h: Handled)
    requires db.Valid()
    ensures Grows(db, h.db)
  {
    var listed := List(faults, db);
    if listed.err.Some? then Handled(Outcome(Response(500, map[], ""), listed.err), listed.db)
    else Handled(Respond(env.views, req, LinkList(listed.value)), listed.db)
  }

  ghost function HandlePost(env: Env, faults: Faults, db: Db, req: Request): (h: Handled)
    requires db.Valid()
    ensures Grows(db, h.db)
  {
    match env.parseQuery(req.body)
    case Failure(_) => Handled(BadRequest(InvalidBody), db)
    case Success(form) =>
      var url, commentary := FormGet(form, "url"), FormGet(form, "commentary");
      if commentary == "" || url == "" then Handled(BadRequest(InvalidBody), db)
      else
        var created := Create(faults, db, CreateLinkParams(url, commentary));
        if created.err.Some? then Handled(ServerError(created.err.value), created.db)
        else
          // the error of the read-back is dropped: a failed fetch responds with the zero link
          var fetched := Get(faults, created.db, created.value);
          Handled(Respond(env.views, req, SingleLink(fetched.value)), fetched.db)
  }

  ghost function HandlePut(env: Env, faults: Faults, db: Db, req: Request): (h: Handled)
    requires db.Valid()
    ensures Grows(db, h.db)
  {
    match env.parseQuery(req.body)
    case Failure(_) => Handled(BadRequest(InvalidBody), db)
    case Success(form) =>
      var linkId := TargetId(env, req);
      var fetched := Get(faults, db, linkId);
      if IsEditFormRequest(form, req) then
        // the conversion and fetch errors are dropped: the form is rendered from whatever came back
        (match env.views.render(EditTemplate, SingleLink(fetched.value))
         case Failure(e) => Handled(ServerError(e), fetched.db)
         case Success(html) => Handled(Outcome(Response(200, map[ContentType := TextHtml], html), None), fetched.db))
      else if fetched.err.Some? then Handled(BadRequest(InvalidLinkId), fetched.db)
      else
        var url, commentary := FormGet(form, "url"), FormGet(form, "commentary");
        if commentary == "" || url == "" then Handled(BadRequest(InvalidBody), fetched.db)
        else
          var updated := Update(faults, fetched.db, UpdateLinkParams(fetched.value.id, url, commentary));
          if updated.err.Some? then Handled(ServerError(updated.err.value), updated.db)
          else
            var refetched := Get(faults, updated.db, linkId);
            if refetched.err.Some? then Handled(ServerError(refetched.err.value), refetched.db)
            else Handled(Respond(env.views, req, SingleLink(refetched.value)), refetched.db)
  }

  /**
    The handler: one request, its queries sent one after another through the
    connection, and the response (with the error for the runtime).
   */
  method Handler(queries: Queries, env: Env, req: Request) returns (resp: Response, err: Option<string>)
    requires queries.Valid()
    modifies queries
    ensures queries.Valid()
    ensures Handled(Outcome(resp, err), queries.State()) == Handle(env, queries.faults, old(queries.State()), req)
  {
    if req.httpMethod == MethodGet {
      var links, listErr := queries.ListLinks();
      if listErr.Some? {
        resp, err := Response(500, map[], ""), listErr;
        return;
      }
      var o := Respond(env.views, req, LinkList(links));
      resp, err := o.response, o.err;
    } else if req.httpMethod == MethodPost {
      var formData := env.parseQuery(req.body);
      if formData.Failure? {
        resp, err := Response(400, map[], InvalidBody), None;
        return;
      }
      var url := FormGet(formData.value, "url");
      var content := FormGet(formData.value, "commentary");
      if content == "" || url == "" {
        resp, err := Response(400, map[], InvalidBody), None;
        return;
      }
      var createdLinkId, createErr := queries.CreateLink(CreateLinkParams(url, content));
      if createErr.Some? {
        resp, err := Response(500, map[], createErr.value), None;
        return;
      }
      var createdLink, _ := queries.GetLink(createdLinkId);
      var o := Respond(env.views, req, SingleLink(createdLink));
      resp, err := o.response, o.err;
    } else if req.httpMethod == MethodPut {
      var linkIdStr := Lookup(req.queryParams, "id");
      var formData := env.parseQuery(req.body);
      if formData.Failure? {
        resp, err := Response(400, map[], InvalidBody), None;
        return;
      }
      var form := formData.value;
      if |form| == 0 && linkIdStr != "" {
        var editId := env.atoi(linkIdStr).value;
        var editObj, _ := queries.GetLink(editId);
        var tpl := env.views.render(EditTemplate, SingleLink(editObj));
        if tpl.Failure? {
          resp, err := Response(500, map[], tpl.error), None;
          return;
        }
        resp, err := Response(200, map[ContentType := TextHtml], tpl.value), None;
        return;
      }
      var linkId := env.atoi(linkIdStr).value;
      var linkObj, getErr := queries.GetLink(linkId);
      if getErr.Some? {
        resp, err := Response(400, map[], InvalidLinkId), None;
        return;
      }
      // the Go handler checks the same error a second time here; it is nil by now
      assert getErr.None?;
      var url := FormGet(form, "url");
      var content := FormGet(form, "commentary");
      if content == "" || url == "" {
        resp, err := Response(400, map[], InvalidBody), None;
        return;
      }
      var linkUrl := "";
      if url != "" && url != linkObj.url {
        linkUrl := url;
      }
      // overwritten unconditionally two lines later in the Go handler, before the update
      linkUrl := url;
      var updateErr := queries.UpdateLink(UpdateLinkParams(linkObj.id, linkUrl, content));
      if updateErr.Some? {
        resp, err := Response(500, map[], updateErr.value), None;
        return;
      }
      var refetched, refetchErr := queries.GetLink(linkId);
      if refetchErr.Some? {
        resp, err := Response(500, map[], refetchErr.value), None;
        return;
      }
      var o := Respond(env.views, req, SingleLink(refetched));
      resp, err := o.response, o.err;
    } else {
      resp, err := Response(200, map[], ""), None;
    }
  }

  // ---------------------------------------------------------------------------
  // Path by path

  /** GET only reads: one listing query, then the links through the negotiator, or 500 with the error. */
  lemma GetOnlyReads(env: Env, faults: Faults, db: Db, req: Request)
    requires db.Valid()
    requires req.httpMethod == MethodGet
    ensures var h := Handle(env, faults, db, req);
      && h.db == db.(issued := db.issued + [SelectAll])
      && (faults(|db.issued|).Some? ==> h.outcome == Outcome(Response(500, map[], ""), faults(|db.issued|)))
      && (faults(|db.issued|).None? ==> h.outcome == Respond(env.views, req, LinkList(db.Rows())))
  {
  }

  /** A method other than GET, POST and PUT: 200, no headers, no body, and no query sent. */
  lemma OtherMethodsDoNothing(env: Env, faults: Faults, db: Db, req: Request)
    requires db.Valid()
    requires req.httpMethod !in {MethodGet, MethodPost, MethodPut}
    ensures Handle(env, faults, db, req) == Handled(Outcome(Response(200, map[], ""), None), db)
  {
  }

  /** A POST whose body does not parse, or whose url or commentary is empty, is rejected before any query. */
  lemma PostRejectsInvalidBody(env: Env, faults: Faults, db: Db, req: Request)
    requires db.Valid()
    requires req.httpMethod == MethodPost
    requires || env.parseQuery(req.body).Failure?
             || FormGet(env.parseQuery(req.body).value, "url") == ""
             || FormGet(env.parseQuery(req.body).value, "commentary") == ""
    ensures Handle(env, faults, db, req) == Handled(BadRequest(InvalidBody), db)
  {
  }

  /**
    A valid POST sends exactly one insert with the given fields. If the insert
    fails, the response is 500 with its error text and nothing is stored;
    otherwise one new link is stored under a previously unused id, it is read
    back, and the read-back (the zero link if that fetch failed) goes to the
    negotiator.
   */
  lemma PostCreatesOnce(env: Env, faults: Faults, db: Db, req: Request, url: string, commentary: string)
    requires db.Valid()
    requires req.httpMethod == MethodPost
    requires env.parseQuery(req.body).Success?
    requires FormGet(env.parseQuery(req.body).value, "url") == url != ""
    requires FormGet(env.parseQuery(req.body).value, "commentary") == commentary != ""
    ensures var h := Handle(env, faults, db, req);
      var id := db.nextId;
      var n := |db.issued|;
      && (faults(n).Some? ==>
            && h.db == db.(issued := db.issued + [Insert(CreateLinkParams(url, commentary))])
            && h.outcome == ServerError(faults(n).value))
      && (faults(n).None? ==>
            && id !in db.links
            && h.db.links == db.links[id := Link(id, url, commentary)]
            && |h.db.links| == |db.links| + 1
            && h.db.issued == db.issued + [Insert(CreateLinkParams(url, commentary)), SelectById(id)]
            && h.outcome == Respond(env.views, req,
                 SingleLink(if faults(n + 1).None? then Link(id, url, commentary) else NoLink)))
  {
  }

  /**
    A PUT with an id and a form with no keys at all serves the edit form:
    one fetch, nothing written, and 200 text/html with the rendered form
    (or 500 with the renderer's error) whatever the hx-request header says.
    Conversion and fetch errors do not stop it; the form is rendered from
    the zero link then.
   */
  lemma PutServesEditForm(env: Env, faults: Faults, db: Db, req: Request)
    requires db.Valid()
    requires req.httpMethod == MethodPut
    requires env.parseQuery(req.body).Success?
    requires IsEditFormRequest(env.parseQuery(req.body).value, req)
    ensures var h := Handle(env, faults, db, req);
      var linkId := TargetId(env, req);
      var shown := if faults(|db.issued|).None? && linkId in db.links then db.links[linkId] else NoLink;
      && h.db == db.(issued := db.issued + [SelectById(linkId)])
      && (match env.views.render(EditTemplate, SingleLink(shown))
          case Success(html) => h.outcome == Outcome(Response(200, map[ContentType := TextHtml], html), None)
          case Failure(e) => h.outcome == ServerError(e))
  {
  }

  /** The edit form does not depend on the hx-request header, nor on any other header. */
  lemma EditFormIgnoresHeaders(env: Env, faults: Faults, db: Db, req: Request, headers: map<string, string>)
    requires db.Valid()
    requires req.httpMethod == MethodPut
    requires env.parseQuery(req.body).Success?
    requires IsEditFormRequest(env.parseQuery(req.body).value, req)
    ensures Handle(env, faults, db, req.(headers := headers)) == Handle(env, faults, db, req)
  {
  }

  /**
    On the apply path of PUT the link is fetched first: when that fails
    (a missing link, an id that does not convert, a remote error) the
    response is 400 "Invalid link ID" whatever the form holds, and nothing
    is written.
   */
  lemma PutChecksIdFirst(env: Env, faults: Faults, db: Db, req: Request)
    requires db.Valid()
    requires req.httpMethod == MethodPut
    requires env.parseQuery(req.body).Success?
    requires !IsEditFormRequest(env.parseQuery(req.body).value, req)
    requires TargetId(env, req) !in db.links || faults(|db.issued|).Some?
    ensures Handle(env, faults, db, req) ==
              Handled(BadRequest(InvalidLinkId), db.(issued := db.issued + [SelectById(TargetId(env, req))]))
  {
  }

  /** Ids start at 1, so an id that strconv.Atoi turns into 0 (empty or not a number) is always rejected. */
  lemma PutRejectsUnconvertibleId(env: Env, faults: Faults, db: Db, req: Request)
    requires db.Valid()
    requires req.httpMethod == MethodPut
    requires env.parseQuery(req.body).Success?
    requires !IsEditFormRequest(env.parseQuery(req.body).value, req)
    requires TargetId(env, req) == 0
    ensures Handle(env, faults, db, req).outcome == BadRequest(InvalidLinkId)
  {
    PutChecksIdFirst(env, faults, db, req);
  }

  /** A PUT whose body does not parse is 400 "Invalid request body", before any query and on either path. */
  lemma PutRejectsUnparsableBody(env: Env, faults: Faults, db: Db, req: Request)
    requires db.Valid()
    requires req.httpMethod == MethodPut
    requires env.parseQuery(req.body).Failure?
    ensures Handle(env, faults, db, req) == Handled(BadRequest(InvalidBody), db)
  {
  }

  /** Past the id check, an empty url or commentary is 400 "Invalid request body" and nothing is written. */
  lemma PutRejectsEmptyField(env: Env, faults: Faults, db: Db, req: Request)
    requires db.Valid()
    requires req.httpMethod == MethodPut
    requires env.parseQuery(req.body).Success?
    requires !IsEditFormRequest(env.parseQuery(req.body).value, req)
    requires TargetId(env, req) in db.links && faults(|db.issued|).None?
    requires || FormGet(env.parseQuery(req.body).value, "url") == ""
             || FormGet(env.parseQuery(req.body).value, "commentary") == ""
    ensures Handle(env, faults, db, req) ==
              Handled(BadRequest(InvalidBody), db.(issued := db.issued + [SelectById(TargetId(env, req))]))
  {
  }

  /**
    A valid update: fetch, one update of the same id with the new fields,
    and a read-back. The id never changes. A failed update is 500 with its
    error and stores nothing; a failed read-back is 500 with its error; else
    the stored record goes to the negotiator.
   */
  lemma PutUpdatesInPlace(env: Env, faults: Faults, db: Db, req: Request, url: string, commentary: string)
    requires db.Valid()
    requires req.httpMethod == MethodPut
    requires env.parseQuery(req.body).Success?
    requires !IsEditFormRequest(env.parseQuery(req.body).value, req)
    requires TargetId(env, req) in db.links && faults(|db.issued|).None?
    requires FormGet(env.parseQuery(req.body).value, "url") == url != ""
    requires FormGet(env.parseQuery(req.body).value, "commentary") == commentary != ""
    ensures var h := Handle(env, faults, db, req);
      var id := TargetId(env, req);
      var n := |db.issued|;
      var write := [SelectById(id), UpdateById(UpdateLinkParams(id, url, commentary))];
      && h.db.nextId == db.nextId
      && (faults(n + 1).Some? ==>
            && h.db == db.(issued := db.issued + write)
            && h.outcome == ServerError(faults(n + 1).value))
      && (faults(n + 1).None? ==>
            && h.db.links == db.links[id := Link(id, url, commentary)]
            && h.db.issued == db.issued + write + [SelectById(id)]
            && h.outcome == (if faults(n + 2).Some? then ServerError(faults(n + 2).value)
                             else Respond(env.views, req, SingleLink(Link(id, url, commentary)))))
  {
  }

  // ---------------------------------------------------------------------------
  // For every request

  /** Both required form fields are present and non-empty. */
  predicate HasFields(form: Values) {
    FormGet(form, "url") != "" && FormGet(form, "commentary") != ""
  }

  /**
    The queries one request sends, written out without the responses: a
    listing for GET; for a valid POST an insert and, when the service accepts
    it, a fetch of the new id; for PUT a fetch of the target id and, for a
    valid update of a stored link, the update and, when the service accepts
    it, a second fetch.
   */
  ghost function Sent(env: Env, faults: Faults, db: Db, req: Request): seq<Query> {
    var n := |db.issued|;
    var parsed := env.parseQuery(req.body);
    if req.httpMethod == MethodGet then [SelectAll]
    else if req.httpMethod == MethodPost then
      if parsed.Failure? || !HasFields(parsed.value) then []
      else
        var insert := Insert(CreateLinkParams(FormGet(parsed.value, "url"), FormGet(parsed.value, "commentary")));
        [insert] + (if faults(n).None? then [SelectById(db.nextId)] else [])
    else if req.httpMethod == MethodPut then
      var id := TargetId(env, req);
      if parsed.Failure? then []
      else if IsEditFormRequest(parsed.value, req) || id !in db.links || faults(n).Some? || !HasFields(parsed.value)
      then [SelectById(id)]
      else
        var update := UpdateById(UpdateLinkParams(id, FormGet(parsed.value, "url"), FormGet(parsed.value, "commentary")));
        [SelectById(id), update] + (if faults(n + 1).None? then [SelectById(id)] else [])
    else []
  }

  /** The handler sends exactly the queries `Sent` lists, in that order, and nothing else. */
  lemma HandleSendsExactly(env: Env, faults: Faults, db: Db, req: Request)
    requires db.Valid()
    ensures Handle(env, faults, db, req).db.issued == db.issued + Sent(env, faults, db, req)
  {
    var parsed := env.parseQuery(req.body);
    if req.httpMethod == MethodGet {
      GetOnlyReads(env, faults, db, req);
    } else if req.httpMethod == MethodPost {
      if parsed.Failure? || !HasFields(parsed.value) {
        PostRejectsInvalidBody(env, faults, db, req);
      } else {
        PostCreatesOnce(env, faults, db, req, FormGet(parsed.value, "url"), FormGet(parsed.value, "commentary"));
      }
    } else if req.httpMethod == MethodPut {
      var id := TargetId(env, req);
      if parsed.Failure? {
        PutRejectsUnparsableBody(env, faults, db, req);
      } else if IsEditFormRequest(parsed.value, req) {
        PutServesEditForm(env, faults, db, req);
      } else if id !in db.links || faults(|db.issued|).Some? {
        PutChecksIdFirst(env, faults, db, req);
      } else if !HasFields(parsed.value) {
        PutRejectsEmptyField(env, faults, db, req);
      } else {
        PutUpdatesInPlace(env, faults, db, req, FormGet(parsed.value, "url"), FormGet(parsed.value, "commentary"));
      }
    } else {
      OtherMethodsDoNothing(env, faults, db, req);
    }
  }

  /** The fields of a record the handler writes. */
  predicate WritesFilledFields(q: Query) {
    match q
    case Insert(p) => p.url != "" && p.commentary != ""
    case UpdateById(p) => p.url != "" && p.commentary != ""
    case _ => true
  }

  ghost predicate AllFilled(links: map<int, Link>) {
    forall id :: id in links ==> links[id].url != "" && links[id].commentary != ""
  }

  /** A request changes the stored links only by writing a record with both fields filled. */
  lemma LinksChangeOnlyByFilledWrites(env: Env, faults: Faults, db: Db, req: Request)
    requires db.Valid()
    ensures var after := Handle(env, faults, db, req).db.links;
      forall id :: id in after && (id !in db.links || after[id] != db.links[id]) ==>
        after[id].url != "" && after[id].commentary != ""
  {
    var parsed := env.parseQuery(req.body);
    if req.httpMethod == MethodGet {
      GetOnlyReads(env, faults, db, req);
    } else if req.httpMethod == MethodPost {
      if parsed.Failure? || !HasFields(parsed.value) {
        PostRejectsInvalidBody(env, faults, db, req);
      } else {
        PostCreatesOnce(env, faults, db, req, FormGet(parsed.value, "url"), FormGet(parsed.value, "commentary"));
      }
    } else if req.httpMethod == MethodPut {
      var id := TargetId(env, req);
      if parsed.Failure? {
        PutRejectsUnparsableBody(env, faults, db, req);
      } else if IsEditFormRequest(parsed.value, req) {
        PutServesEditForm(env, faults, db, req);
      } else if id !in db.links || faults(|db.issued|).Some? {
        PutChecksIdFirst(env, faults, db, req);
      } else if !HasFields(parsed.value) {
        PutRejectsEmptyField(env, faults, db, req);
      } else {
        PutUpdatesInPlace(env, faults, db, req, FormGet(parsed.value, "url"), FormGet(parsed.value, "commentary"));
      }
    } else {
      OtherMethodsDoNothing(env, faults, db, req);
    }
  }

  /**
    No request ever sends a write with an empty url or commentary, so a
    store in which every link has both keeps that property.
   */
  lemma NeverWritesEmptyFields(env: Env, faults: Faults, db: Db, req: Request)
    requires db.Valid()
    ensures var h := Handle(env, faults, db, req);
      && (forall k :: |db.issued| <= k < |h.db.issued| ==> WritesFilledFields(h.db.issued[k]))
      && (AllFilled(db.links) ==> AllFilled(h.db.links))
  {
    var log := Handle(env, faults, db, req).db.issued;
    var sent := Sent(env, faults, db, req);
    HandleSendsExactly(env, faults, db, req);
    assert forall q :: q in sent ==> WritesFilledFields(q);
    forall k | |db.issued| <= k < |log|
      ensures WritesFilledFields(log[k])
    {
      assert log[k] == sent[k - |db.issued|];
    }
    LinksChangeOnlyByFilledWrites(env, faults, db, req);
  }

  /**
    The queries sent for one request, the first of them the n-th over the
    connection: at most one of them is a write, a write is followed at once
    by a fetch exactly when the remote service accepted it, and a write the
    service refused is the last query sent.
   */
  ghost predicate WritesReadBack(sent: seq<Query>, faults: Faults, n: nat) {
    forall k :: 0 <= k < |sent| && sent[k].IsWrite() ==>
      && (forall j :: 0 <= j < |sent| && j != k ==> !sent[j].IsWrite())
      && (faults(n + k).None? <==> k + 1 < |sent| && sent[k + 1].SelectById?)
      && (faults(n + k).Some? ==> k == |sent| - 1)
  }

  /** A write the service refused, after at most one fetch, and nothing after it. */
  lemma RefusedWriteIsLast(read: seq<Query>, write: Query, faults: Faults, n: nat)
    requires |read| <= 1 && (forall k :: 0 <= k < |read| ==> read[k].SelectById?)
    requires write.IsWrite() && faults(n + |read|).Some?
    ensures WritesReadBack(read + [write], faults, n)
  {
    var sent := read + [write];
    assert sent[|read|] == write;
  }

  /** A write the service accepted, after at most one fetch, then the read-back. */
  lemma AcceptedWriteIsReadBack(read: seq<Query>, write: Query, id: int, faults: Faults, n: nat)
    requires |read| <= 1 && (forall k :: 0 <= k < |read| ==> read[k].SelectById?)
    requires write.IsWrite() && faults(n + |read|).None?
    ensures WritesReadBack(read + [write, SelectById(id)], faults, n)
  {
    var sent := read + [write, SelectById(id)];
    assert sent[|read|] == write && sent[|read| + 1] == SelectById(id);
  }

  /**
    Each request sends at most one write; a write that the remote service
    accepts is followed at once by a fetch, so the response never rests on
    locally assumed values, and a write it refuses ends the request.
   */
  lemma OneWriteThenReadBack(env: Env, faults: Faults, db: Db, req: Request)
    requires db.Valid()
    ensures WritesReadBack(Handle(env, faults, db, req).db.issued[|db.issued|..], faults, |db.issued|)
  {
    HandleSendsExactly(env, faults, db, req);
    assert Handle(env, faults, db, req).db.issued[|db.issued|..] == Sent(env, faults, db, req);
    SentWritesReadBack(env, faults, db, req);
  }

  /** `Sent` lists at most one write, and the read-back follows it exactly when the service accepted it. */
  lemma SentWritesReadBack(env: Env, faults: Faults, db: Db, req: Request)
    ensures WritesReadBack(Sent(env, faults, db, req), faults, |db.issued|)
  {
    var n := |db.issued|;
    var sent := Sent(env, faults, db, req);
    var parsed := env.parseQuery(req.body);
    var id := TargetId(env, req);
    if req.httpMethod == MethodPost && parsed.Success? && HasFields(parsed.value) {
      var insert := Insert(CreateLinkParams(FormGet(parsed.value, "url"), FormGet(parsed.value, "commentary")));
      if faults(n).Some? {
        assert sent == [] + [insert];
        RefusedWriteIsLast([], insert, faults, n);
      } else {
        assert sent == [] + [insert, SelectById(db.nextId)];
        AcceptedWriteIsReadBack([], insert, db.nextId, faults, n);
      }
    } else if && req.httpMethod == MethodPut && parsed.Success? && !IsEditFormRequest(parsed.value, req)
              && id in db.links && faults(n).None? && HasFields(parsed.value) {
      var update := UpdateById(UpdateLinkParams(id, FormGet(parsed.value, "url"), FormGet(parsed.value, "commentary")));
      if faults(n + 1).Some? {
        assert sent == [SelectById(id)] + [update];
        RefusedWriteIsLast([SelectById(id)], update, faults, n);
      } else {
        assert sent == [SelectById(id)] + [update, SelectById(id)];
        AcceptedWriteIsReadBack([SelectById(id)], update, id, faults, n);
      }
    } else {
      assert forall k :: 0 <= k < |sent| ==> !sent[k].IsWrite();
    }
  }

  /**
    The handler answers only 200, 400 or 500, and every 400 it gives is one
    of its two own messages with no error for the runtime: the negotiator's
    unsupported-type branch is never reached, since the handler only ever
    passes a link or a list of links.
   */
  lemma StatusCodesAndBadRequests(env: Env, faults: Faults, db: Db, req: Request)
    requires db.Valid()
    ensures var o := Handle(env, faults, db, req).outcome;
      && o.response.statusCode in {200, 400, 500}
      && (o.response.statusCode == 400 ==>
            o.err.None? && o.response.body in {InvalidBody, InvalidLinkId})
  {
  }

  /**
    Repeating a PUT changes nothing more once it has changed something: the
    store only ever moves to the single record the request describes.
   */
  lemma PutIsIdempotent(env: Env, faults: Faults, db: Db, req: Request)
    requires db.Valid()
    requires req.httpMethod == MethodPut
    requires Handle(env, faults, db, req).db.links != db.links
    ensures var once := Handle(env, faults, db, req).db;
      Handle(env, faults, once, req).db.links == once.links
  {
  }
}
