/**
 * The slice of Go's net/http that the handlers and middleware of main.go use: an
 * incoming request reduced to what they read, and a response writer whose header
 * map, status and body they change step by step.
 */
module Http {
  import opened Colour

  /** The request as the server code sees it: r.Method (`verb`), r.Header.Get("Origin") and
      r.Header.Get("Referer") (both "" when absent), the URL path, the query parameters,
      and the text fields of a multipart body (empty when there is none). */
  datatype Request = Request(verb: string, origin: string, referer: string, path: string,
                             query: map<string, string>, body: map<string, string>)

  /** url.Values.Get: the value of a field, "" when it is absent. */
  function Get(values: map<string, string>, key: string): string {
    if key in values then values[key] else ""
  }

  /** r.Form once ParseMultipartForm has run: the query parameters come first and the
      multipart fields are appended behind them, so for a key in both the query value is
      the one read. */
  function Form(r: Request): (f: map<string, string>)
    ensures forall k :: k in f <==> k in r.query || k in r.body
    ensures forall k :: k in r.query ==> f[k] == r.query[k]
    ensures forall k :: k !in r.query && k in r.body ==> f[k] == r.body[k]
  {
    r.body + r.query
  }

  /** r.URL.Query().Get(key): the query alone, whatever the body holds. */
  function QueryValue(r: Request, key: string): string {
    Get(r.query, key)
  }

  /** r.FormValue(key): the query value if there is one, otherwise the multipart field. */
  function FormValue(r: Request, key: string): string {
    Get(Form(r), key)
  }

  /** The image the image endpoint encodes as PNG: the QR code of `content` at
      `size` x `size` pixels in `foreground`, with or without the avatar overlay. */
  datatype Bitmap = Bitmap(content: string, size: int, foreground: RGBA, withAvatar: bool)

  /** One write to the response body. */
  datatype Chunk =
    | Text(text: string)
    | Json(fields: map<string, string>)
    | Png(image: Bitmap)
    | StaticFile(path: string)

  const StatusOK: int := 200
  const StatusNoContent: int := 204
  const StatusBadRequest: int := 400
  const StatusForbidden: int := 403
  const StatusInternalServerError: int := 500

  /** The response header fields the server code touches, under their canonical names. */
  datatype HeaderKey =
    | ContentType | ContentLength | ContentSecurityPolicy
    | AccessControlAllowOrigin | AccessControlAllowMethods
    | AccessControlAllowHeaders | AccessControlAllowCredentials
    | XContentTypeOptions | XFrameOptions | XXSSProtection
    | ReferrerPolicy | PermissionsPolicy | StrictTransportSecurity
  {
    /** The field name as it goes on the wire. */
    function Name(): string {
      match this
      case ContentType => "Content-Type"
      case ContentLength => "Content-Length"
      case ContentSecurityPolicy => "Content-Security-Policy"
      case AccessControlAllowOrigin => "Access-Control-Allow-Origin"
      case AccessControlAllowMethods => "Access-Control-Allow-Methods"
      case AccessControlAllowHeaders => "Access-Control-Allow-Headers"
      case AccessControlAllowCredentials => "Access-Control-Allow-Credentials"
      case XContentTypeOptions => "X-Content-Type-Options"
      case XFrameOptions => "X-Frame-Options"
      case XXSSProtection => "X-XSS-Protection"
      case ReferrerPolicy => "Referrer-Policy"
      case PermissionsPolicy => "Permissions-Policy"
      case StrictTransportSecurity => "Strict-Transport-Security"
    }
  }

  type Header = map<HeaderKey, string>

  /** What a handler does to the response: header keys it deletes and sets, the status
      it writes (implicitly 200 with the first body write) and the body chunk. */
  datatype Reply = Reply(deleted: set<HeaderKey>, headers: Header, status: int, body: Chunk)

  /** Header values http.Error sets. */
  const TextPlain: string := "text/plain; charset=utf-8"
  const NoSniff: string := "nosniff"

  /** The reply of http.Error(w, msg, code). */
  function ErrorReply(msg: string, code: int): Reply {
    Reply({ContentLength},
          map[ContentType := TextPlain, XContentTypeOptions := NoSniff],
          code, Text(msg + "\n"))
  }

  /** The header map once a reply's deletions and settings are applied. */
  function Updated(header: Header, reply: Reply): Header {
    (header - reply.deleted) + reply.headers
  }

  /** A reply that deletes nothing and sets one header updates just that header. */
  lemma UpdatedByOne(header: Header, k: HeaderKey, v: string, status: int, body: Chunk)
    ensures Updated(header, Reply({}, map[k := v], status, body)) == header[k := v]
  {
  }

  /** A reply that deletes and sets nothing leaves the header map as it is. */
  lemma UpdatedNothing(header: Header, status: int, body: Chunk)
    ensures Updated(header, Reply({}, map[], status, body)) == header
  {
  }

  /** http.ResponseWriter: the header map, the status once written (0 before), and
      the body chunks written so far. */
  class ResponseWriter {
    var header: Header
    var status: int
    var body: seq<Chunk>

    constructor ()
      ensures header == map[] && status == 0 && body == []
    {
      header, status, body := map[], 0, [];
    }

    /** w.Header().Set(key, value). */
    method SetHeader(key: HeaderKey, value: string)
      modifies this
      ensures header == old(header)[key := value]
      ensures status == old(status) && body == old(body)
    {
      header := header[key := value];
    }

    /** w.Header().Del(key). */
    method DeleteHeader(key: HeaderKey)
      modifies this
      ensures header == old(header) - {key}
      ensures status == old(status) && body == old(body)
    {
      header := header - {key};
    }

    /** w.WriteHeader(code): only the first status written counts. Go panics on a
        code outside 100..999. */
    method WriteHeader(code: int)
      requires 100 <= code <= 999
      modifies this
      ensures status == (if old(status) == 0 then code else old(status))
      ensures header == old(header) && body == old(body)
    {
      if status == 0 {
        status := code;
      }
    }

    /** w.Write: the first write sends status 200 if none was written. */
    method Write(chunk: Chunk)
      modifies this
      ensures status == (if old(status) == 0 then StatusOK else old(status))
      ensures body == old(body) + [chunk]
      ensures header == old(header)
    {
      WriteHeader(StatusOK);
      body := body + [chunk];
    }

    /** http.Error: plain-text headers, the status, and the message with a newline. */
    method Error(msg: string, code: int)
      requires 100 <= code <= 999
      modifies this
      ensures header == Updated(old(header), ErrorReply(msg, code))
      ensures status == (if old(status) == 0 then code else old(status))
      ensures body == old(body) + [Text(msg + "\n")]
    {
      DeleteHeader(ContentLength);
      SetHeader(ContentType, TextPlain);
      SetHeader(XContentTypeOptions, NoSniff);
      WriteHeader(code);
      Write(Text(msg + "\n"));
    }
  }
}
