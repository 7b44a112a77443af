/**
 * The two API handlers of main.go, qrContent and qrImage, and the server they are
 * mounted in: securityHeaders in front of a mux with the two API routes and the
 * static file server. The payload builder, the QR encoder's failure, the clock and
 * the zone are the environment a request is served in.
 */
module Handlers {
  import opened Wrappers
  import opened GoText
  import opened GoTime
  import opened Colour
  import opened QrRequest
  import opened Http
  import opened Middleware

  /** What the handlers depend on and do not compute themselves: the current time in
      milliseconds and the zone offset in seconds (for addTimeStampToDesc), the payload
      builder, and the QR encoder's refusal of a content string (qrcode.New's error
      text, None when it accepts). */
  datatype Env = Env(nowMs: int, zoneOffset: int, build: PayloadBuilder, encodeError: string -> Option<string>)

  /** The form fields the handlers read (and the page sends; `avatar` is the page's
      saved image, which the server reads as a file upload). */
  const FieldBankBin: string := "bankBin"
  const FieldAccountNo: string := "accountNo"
  const FieldReceiverName: string := "receiverName"
  const FieldAmount: string := "amount"
  const FieldDesc: string := "desc"
  const FieldSize: string := "size"
  const FieldQrColor: string := "qrcolor"
  const FieldTimeStamp: string := "timeStamp"
  const FieldAvatar: string := "avatar"

  /** The two API routes, the content types of their answers and the JSON member. */
  const ContentRoute: string := "/orbit-qr/content"
  const ImageRoute: string := "/orbit-qr"
  const ContentJson: string := "application/json"
  const ContentPng: string := "image/png"
  const ContentMember: string := "content"

  const MissingFields: string := "Thiếu tham số"
  const EncodeFailed: string := "Không tạo được QR: "

  /* Both handlers run the same steps over the field values they read: qrContent over
     the query (r.URL.Query()), qrImage over the form (r.FormValue). */

  /** The description after the timestamp is appended, as both handlers compute it
      before the gate. */
  function StampedDesc(values: map<string, string>, env: Env): string {
    AddTimeStampToDesc(Get(values, FieldDesc), Get(values, FieldTimeStamp), env.nowMs, env.zoneOffset)
  }

  predicate Gate(values: map<string, string>) {
    RequiredPresent(Get(values, FieldBankBin), Get(values, FieldAccountNo), Get(values, FieldReceiverName))
  }

  /** The payload both handlers build from field values that pass the gate. */
  function Payload(values: map<string, string>, env: Env): string {
    GenerateQr(env.build, Get(values, FieldBankBin), Get(values, FieldAccountNo), Get(values, FieldReceiverName),
               Get(values, FieldAmount), StampedDesc(values, env), "")
  }

  // ---------------------------------------------------------------- qrContent

  /** qrContent's reply, from the query alone: 400 "Thiếu tham số" when a required
      field is missing, else a JSON object whose only member "content" is the payload. */
  function ContentReply(r: Request, env: Env): (reply: Reply)
    ensures !Gate(r.query) ==> reply == ErrorReply(MissingFields, StatusBadRequest)
    ensures Gate(r.query) ==> reply.status == StatusOK && reply.deleted == {}
                              && reply.headers == map[ContentType := ContentJson]
                              && reply.body == Json(map[ContentMember := env.build(Normalise(
                                   QueryValue(r, FieldBankBin), QueryValue(r, FieldAccountNo), QueryValue(r, FieldReceiverName),
                                   QueryValue(r, FieldAmount), StampedDesc(r.query, env), ""))])
  {
    if !Gate(r.query) then ErrorReply(MissingFields, StatusBadRequest)
    else Reply({}, map[ContentType := ContentJson], StatusOK, Json(map[ContentMember := Payload(r.query, env)]))
  }

  /** qrContent, step by step on the response writer. */
  method QrContent(w: ResponseWriter, r: Request, env: Env)
    modifies w
    ensures var reply := ContentReply(r, env);
      && w.header == Updated(old(w.header), reply)
      && w.status == (if old(w.status) == 0 then reply.status else old(w.status))
      && w.body == old(w.body) + [reply.body]
  {
    var bankBin := QueryValue(r, FieldBankBin);
    var accountNo := QueryValue(r, FieldAccountNo);
    var receiverName := QueryValue(r, FieldReceiverName);
    var amount := QueryValue(r, FieldAmount);
    var desc := QueryValue(r, FieldDesc);
    var timeStr := QueryValue(r, FieldTimeStamp);

    desc := AddTimeStampToDesc(desc, timeStr, env.nowMs, env.zoneOffset);

    if bankBin == "" || accountNo == "" || receiverName == "" {
      w.Error(MissingFields, StatusBadRequest);
      return;
    }

    var content := GenerateQr(env.build, bankBin, accountNo, receiverName, amount, desc, "");
    assert content == Payload(r.query, env);
    UpdatedByOne(w.header, ContentType, ContentJson, StatusOK, Json(map[ContentMember := content]));
    w.SetHeader(ContentType, ContentJson);
    w.Write(Json(map[ContentMember := content]));
  }

  // ---------------------------------------------------------------- qrImage

  /** qrImage's reply, from the form: 400 "Thiếu tham số" when a required field is
      missing; 500 with the encoder's message when the QR encoder refuses the payload;
      otherwise a PNG of the payload at the clamped size in the requested colour,
      carrying the avatar when one was uploaded and decodes (`avatarOverlaid`). */
  function ImageReply(r: Request, env: Env, avatarOverlaid: bool): (reply: Reply)
    ensures !Gate(Form(r)) ==> reply == ErrorReply(MissingFields, StatusBadRequest)
    ensures Gate(Form(r)) && env.encodeError(Payload(Form(r), env)).Some? ==>
              reply == ErrorReply(EncodeFailed + env.encodeError(Payload(Form(r), env)).value, StatusInternalServerError)
    ensures Gate(Form(r)) && env.encodeError(Payload(Form(r), env)).None? ==>
              && reply.status == StatusOK && reply.deleted == {}
              && reply.headers == map[ContentType := ContentPng]
              && reply.body.Png? && reply.body.image.content == Payload(Form(r), env)
              && 1 <= reply.body.image.size <= MaxSize
              && reply.body.image.size == ClampSize(FormValue(r, FieldSize))
              && reply.body.image.foreground == QrColour(FormValue(r, FieldQrColor))
              && reply.body.image.withAvatar == avatarOverlaid
  {
    if !Gate(Form(r)) then ErrorReply(MissingFields, StatusBadRequest)
    else
      var content := Payload(Form(r), env);
      match env.encodeError(content)
      case Some(msg) => ErrorReply(EncodeFailed + msg, StatusInternalServerError)
      case None =>
        var image := Bitmap(content, ClampSize(FormValue(r, FieldSize)), QrColour(FormValue(r, FieldQrColor)), avatarOverlaid);
        Reply({}, map[ContentType := ContentPng], StatusOK, Png(image))
  }

  /** qrImage, step by step on the response writer. */
  method QrImage(w: ResponseWriter, r: Request, env: Env, avatarOverlaid: bool)
    modifies w
    ensures var reply := ImageReply(r, env, avatarOverlaid);
      && w.header == Updated(old(w.header), reply)
      && w.status == (if old(w.status) == 0 then reply.status else old(w.status))
      && w.body == old(w.body) + [reply.body]
  {
    var bankBin := FormValue(r, FieldBankBin);
    var accountNo := FormValue(r, FieldAccountNo);
    var receiverName := FormValue(r, FieldReceiverName);
    var amount := FormValue(r, FieldAmount);
    var desc := FormValue(r, FieldDesc);
    var sizeStr := FormValue(r, FieldSize);
    var colorStr := FormValue(r, FieldQrColor);
    var timeStr := FormValue(r, FieldTimeStamp);

    desc := AddTimeStampToDesc(desc, timeStr, env.nowMs, env.zoneOffset);

    if bankBin == "" || accountNo == "" || receiverName == "" {
      w.Error(MissingFields, StatusBadRequest);
      return;
    }

    var size := ClampSize(sizeStr);
    var qrColor := QrColour(colorStr);

    var content := GenerateQr(env.build, bankBin, accountNo, receiverName, amount, desc, "");

    assert content == Payload(Form(r), env);
    match env.encodeError(content)
    case Some(msg) =>
      assert ImageReply(r, env, avatarOverlaid) == ErrorReply(EncodeFailed + msg, StatusInternalServerError);
      w.Error(EncodeFailed + msg, StatusInternalServerError);
      return;
    case None =>
      var qrImg := Bitmap(content, size, qrColor, false);
      if avatarOverlaid {
        qrImg := qrImg.(withAvatar := true);
      }

      ImageReplyDrawn(r, env, avatarOverlaid, qrImg);
      UpdatedByOne(w.header, ContentType, ContentPng, StatusOK, Png(qrImg));
      w.SetHeader(ContentType, ContentPng);
      w.Write(Png(qrImg));
  }

  /** The success case of ImageReply, for a bitmap built from the same ingredients. */
  lemma ImageReplyDrawn(r: Request, env: Env, avatarOverlaid: bool, image: Bitmap)
    requires Gate(Form(r))
    requires env.encodeError(Payload(Form(r), env)).None?
    requires image == Bitmap(Payload(Form(r), env), ClampSize(FormValue(r, FieldSize)), QrColour(FormValue(r, FieldQrColor)), avatarOverlaid)
    ensures ImageReply(r, env, avatarOverlaid) == Reply({}, map[ContentType := ContentPng], StatusOK, Png(image))
  {
  }

  // ---------------------------------------------------------------- properties

  /** A request missing any of the three required fields, among the values an endpoint
      reads, gets the same 400 from that endpoint whatever the environment: the payload
      builder and the encoder are never consulted. */
  lemma MissingFieldRejected(r: Request, env1: Env, env2: Env, avatar1: bool, avatar2: bool)
    ensures !Gate(r.query) ==>
      ContentReply(r, env1) == ContentReply(r, env2) == ErrorReply(MissingFields, StatusBadRequest)
      && ContentReply(r, env1).body == Text(MissingFields + "\n")
    ensures !Gate(Form(r)) ==>
      ImageReply(r, env1, avatar1) == ImageReply(r, env2, avatar2) == ErrorReply(MissingFields, StatusBadRequest)
  {
  }

  /** qrContent never reads the body: fields sent only in a form body count as missing. */
  lemma ContentIgnoresBody(r: Request, env: Env)
    requires r.query == map[]
    ensures ContentReply(r, env) == ErrorReply(MissingFields, StatusBadRequest)
  {
    assert Get(r.query, FieldBankBin) == "";
  }

  /** The image endpoint encodes exactly the content the JSON endpoint returns when the
      query of the one carries the field values the form of the other does, for the same
      clock and builder. */
  lemma EndpointsAgree(content: Request, image: Request, env: Env, avatarOverlaid: bool)
    requires content.query == Form(image)
    requires Gate(content.query) && env.encodeError(Payload(content.query, env)).None?
    ensures ContentReply(content, env).body.fields[ContentMember] == ImageReply(image, env, avatarOverlaid).body.image.content
  {
  }

  // ---------------------------------------------------------------- the server

  /** The mux: "/orbit-qr/content" and "/orbit-qr" are exact routes to the two handlers;
      every other path goes to the static file server, which answers on its own. */
  function Route(r: Request, env: Env, avatarOverlaid: bool): (reply: Reply)
    ensures r.path == ContentRoute ==> reply == ContentReply(r, env)
    ensures r.path == ImageRoute ==> reply == ImageReply(r, env, avatarOverlaid)
    ensures r.path != ContentRoute && r.path != ImageRoute ==>
      reply.body == StaticFile(r.path) && reply.status == StatusOK && reply.deleted == {} && reply.headers == map[]
  {
    if r.path == ContentRoute then ContentReply(r, env)
    else if r.path == ImageRoute then ImageReply(r, env, avatarOverlaid)
    else Reply({}, map[], StatusOK, StaticFile(r.path))
  }

  /** The mux dispatching a request on the writer: exactly one reply, that of the
      route the path selects. */
  method Mux(w: ResponseWriter, r: Request, env: Env, avatarOverlaid: bool)
    modifies w
    ensures var reply := Route(r, env, avatarOverlaid);
      && w.header == Updated(old(w.header), reply)
      && w.status == (if old(w.status) == 0 then reply.status else old(w.status))
      && w.body == old(w.body) + [reply.body]
  {
    if r.path == ContentRoute {
      QrContent(w, r, env);
    } else if r.path == ImageRoute {
      QrImage(w, r, env, avatarOverlaid);
    } else {
      UpdatedNothing(w.header, StatusOK, StaticFile(r.path));
      w.Write(StaticFile(r.path));
    }
  }

  /** The server: securityHeaders, then the mux. A preflight is answered 204 with no
      body and reaches no handler; every other request gets the security headers and
      then exactly one handler's reply. */
  method Serve(r: Request, env: Env, avatarOverlaid: bool) returns (w: ResponseWriter)
    ensures r.verb == MethodOptions ==>
      w.header == SecurityHeaderSet(r.origin, r.verb) && w.status == StatusNoContent && w.body == []
    ensures r.verb != MethodOptions ==>
      var reply := Route(r, env, avatarOverlaid);
      && w.header == Updated(SecurityHeaderSet(r.origin, r.verb), reply)
      && w.status == reply.status
      && w.body == [reply.body]
  {
    w := new ResponseWriter();
    SecuredOverrides(map[], r.origin, r.verb);
    assert map[] + SecurityHeaderSet(r.origin, r.verb) == SecurityHeaderSet(r.origin, r.verb);
    var outcome := SecurityHeaders(w, r);
    if outcome == Stop {
      return;
    }
    Mux(w, r, env, avatarOverlaid);
  }
}
