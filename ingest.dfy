/** `fetchAndParseURL` (services/playlistParser.ts:83-91, public/parser.worker.js:76-84) and the
    messages the ingestion errors carry. */
module Ingest {
  import opened Types
  import opened Text
  import opened Proxy
  import opened Net
  import opened M3U

  /** The URL actually requested: `proxifyHttpUrl(url) || url`. */
  function Target(url: string, secure: bool): (t: string)
    ensures secure && PlainScheme <= url ==> t == ProxyRoute + EncodeUriComponent(url)
    ensures !(secure && PlainScheme <= url) ==> t == url
  {
    OrElse(Proxify(Some(url), secure), url)
  }

  function FetchAndParse(fetch: string -> Response, url: string, secure: bool): (o: Outcome<seq<Category>>)
    ensures o.requests == [Target(url, secure)]
  {
    var target := Target(url, secure);
    var response := fetch(target);
    if response.Refused? then Outcome([target], Err(Rejected(response.message)))
    else if !response.ok then Outcome([target], Err(HttpStatus(response.status)))
    else Outcome([target], Parse(response.text, secure))
  }

  /** A response that is not ok throws its status; an ok response is parsed as a playlist, and
      the parse decides the outcome. */
  lemma FetchOutcome(fetch: string -> Response, url: string, secure: bool)
    ensures var r, o := fetch(Target(url, secure)), FetchAndParse(fetch, url, secure);
            && (r.Refused? ==> o.result == Err(Rejected(r.message)))
            && (r.Reply? && !r.ok ==> o.result == Err(HttpStatus(r.status)))
            && (r.Reply? && r.ok ==> o.result == Parse(r.text, secure))
            && (o.result.Ok? <==> r.Reply? && r.ok && Header <= r.text)
  {
    var r := fetch(Target(url, secure));
    if r.Reply? && r.ok {
      HeaderRequired(r.text, secure);
    }
  }

  // ---------------------------------------------------------------------------
  // Error messages

  const HeaderMessage := "Archivo M3U inválido: Falta la cabecera #EXTM3U"
  const HttpMessage := "¡Error HTTP! estado: "
  const CategoriesMessage := "Error al obtener las categorías de Xtream"
  const StreamsMessage := "Error al obtener los streams de Xtream"
  const EmptyMessage := "La lista está vacía o no se pudo analizar."

  /** `e.message` of the error thrown. */
  function Message(e: Error): string {
    match e
    case MissingHeader => HeaderMessage
    case HttpStatus(status) => HttpMessage + IntToString(status)
    case CategoriesUnavailable => CategoriesMessage
    case StreamsUnavailable => StreamsMessage
    case Rejected(message) => message
    case TypeFault(detail) => detail
    case EmptyCatalog => EmptyMessage
  }

  /** The status of a failed response can be read back from its message. */
  lemma HttpMessageInjective(a: int, b: int)
    requires Message(HttpStatus(a)) == Message(HttpStatus(b))
    ensures a == b
  {
    var ma, mb := Message(HttpStatus(a)), Message(HttpStatus(b));
    assert IntToString(a) == ma[|HttpMessage|..];
    assert IntToString(b) == mb[|HttpMessage|..];
    IntToStringInjective(a, b);
  }
}
