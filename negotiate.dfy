/**
  Content negotiation for the link API (respond): a request that carries the
  header hx-request: true gets an HTML fragment rendered from a template,
  every other request gets JSON.

  Template rendering and JSON encoding are collaborators the model does not
  look into: `Views` holds them as functions that either produce text or fail.
 */
module Negotiate {
  import opened Wrappers
  import opened Http
  import opened Store

  datatype Template = ListTemplate | LinkTemplate | EditTemplate

  /**
    The value handed to the negotiator. The source passes Go's `any` and
    switches on its dynamic type; the two shapes it recognises are a list of
    links and a single link, and every other dynamic type is `Unsupported`,
    carrying the type's printed name.
   */
  datatype Data = LinkList(links: seq<Link>) | SingleLink(link: Link) | Unsupported(typeName: string)

  /** The template engine and the JSON encoder: each yields text or an error. */
  datatype Views = Views(render: (Template, Data) -> Result<string, string>, encode: Data -> Result<string, string>)

  const UnsupportedPrefix := "unsupported data type for HTML fragment generation: "

  /** The caller asks for an HTML fragment: the header hx-request is exactly "true". */
  predicate WantsFragment(req: Request) {
    Lookup(req.headers, "hx-request") == "true"
  }

  /** The template a fragment of this shape is rendered with. */
  function FragmentTemplate(data: Data): Template
    requires !data.Unsupported?
  {
    if data.LinkList? then ListTemplate else LinkTemplate
  }

  /**
    Chooses between an HTML fragment and JSON. Success is 200 with the
    content type of the chosen format and the produced text as body; a
    failing renderer or encoder is 500; a shape no template exists for is 400,
    and only when a fragment was asked for. Failures carry no headers and no
    body, and hand the error to the runtime.
   */
  function Respond(views: Views, req: Request, data: Data): (o: Outcome)
    ensures o.response.statusCode in {200, 400, 500}
    ensures o.response.statusCode == 200 <==> o.err.None?
    ensures o.response.statusCode == 400 <==> WantsFragment(req) && data.Unsupported?
    ensures o.response.statusCode == 400 ==> o.err == Some(UnsupportedPrefix + data.typeName)
    ensures o.response.statusCode == 500 <==>
              if WantsFragment(req)
              then !data.Unsupported? && views.render(FragmentTemplate(data), data).Failure?
              else views.encode(data).Failure?
    ensures o.response.statusCode != 200 ==> o.response.headers == map[] && o.response.body == ""
    ensures o.err.None? && WantsFragment(req) ==>
              && o.response.headers == map[ContentType := TextHtml]
              && views.render(FragmentTemplate(data), data) == Success(o.response.body)
    ensures o.err.None? && !WantsFragment(req) ==>
              && o.response.headers == map[ContentType := ApplicationJson]
              && views.encode(data) == Success(o.response.body)
  {
    if WantsFragment(req) then
      match data
      case LinkList(_) => Fragment(views.render(ListTemplate, data))
      case SingleLink(_) => Fragment(views.render(LinkTemplate, data))
      case Unsupported(typeName) =>
        Outcome(Response(400, map[], ""), Some(UnsupportedPrefix + typeName))
    else
      match views.encode(data)
      case Failure(e) => Outcome(Response(500, map[], ""), Some(e))
      case Success(json) => Outcome(Response(200, map[ContentType := ApplicationJson], json), None)
  }

  /** The response for a rendered fragment, or 500 with the renderer's error. */
  function Fragment(rendered: Result<string, string>): Outcome {
    match rendered
    case Failure(e) => Outcome(Response(500, map[], ""), Some(e))
    case Success(html) => Outcome(Response(200, map[ContentType := TextHtml], html), None)
  }

  /**
    The choice depends on the request only through the hx-request header:
    two requests that agree on it get the same response for the same data.
   */
  lemma RespondReadsOnlyTheFragmentHeader(views: Views, req1: Request, req2: Request, data: Data)
    requires Lookup(req1.headers, "hx-request") == Lookup(req2.headers, "hx-request")
    ensures Respond(views, req1, data) == Respond(views, req2, data)
  {
  }
}
