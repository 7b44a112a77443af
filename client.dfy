/**
 * The page side of a QR request in app.js: getParams reads the form, updateAll either
 * hides the result panels or sends every non-empty parameter to both endpoints. The
 * lemmas at the end follow such a request into the server's handlers.
 */
module Client {
  import opened Wrappers
  import opened GoText
  import opened GoTime
  import opened JsText
  import opened QrRequest
  import opened Http
  import opened Handlers

  /** What getParams reads: the selected bank's BIN (`searchInput.dataset.bin`, absent
      until a bank is chosen), the values of the form inputs, and the saved avatar
      (`localStorage.getItem("avatar")`, null when none is saved). */
  datatype Page = Page(
    datasetBin: Option<string>, accountNo: string, receiverName: string, amount: string,
    desc: string, qrSize: string, qrColor: string, avatar: Option<string>)

  datatype Params = Params(
    bankBin: string, accountNo: string, receiverName: string, amount: string,
    desc: string, size: string, qrcolor: string, timeStamp: string, avatar: Option<string>)

  const DefaultSizeText: string := "512"

  /** getParams: the text fields trimmed, the size defaulting to "512", and the current
      time in milliseconds as the timestamp. */
  function GetParams(page: Page, nowMs: nat): (p: Params)
    ensures p.bankBin == page.datasetBin.GetOr("")
    ensures p.accountNo == Trim(page.accountNo) && p.receiverName == Trim(page.receiverName)
    ensures p.amount == Trim(page.amount) && p.desc == Trim(page.desc)
    ensures p.size != "" && (page.qrSize != "" ==> p.size == page.qrSize)
    ensures page.qrSize == "" ==> p.size == DefaultSizeText
    ensures p.qrcolor == page.qrColor && p.avatar == page.avatar
    ensures p.timeStamp != ""
  {
    Params(
      bankBin := page.datasetBin.GetOr(""),
      accountNo := Trim(page.accountNo),
      receiverName := Trim(page.receiverName),
      amount := Trim(page.amount),
      desc := Trim(page.desc),
      size := if page.qrSize != "" then page.qrSize else DefaultSizeText,
      qrcolor := page.qrColor,
      timeStamp := FormatInt(nowMs),
      avatar := page.avatar)
  }

  /** The timestamp the page sends parses back, on the server, as the page's clock. */
  lemma TimeStampReadsBack(page: Page, nowMs: nat)
    requires nowMs <= MaxInt64
    ensures ParseInt64(GetParams(page, nowMs).timeStamp) == Some(nowMs)
  {
    ParseFormatInt64(nowMs);
  }

  /** The parameters as (name, value) pairs, in the order getParams lists them; a null
      avatar has no value. */
  function Fields(p: Params): seq<(string, string)> {
    [(FieldBankBin, p.bankBin), (FieldAccountNo, p.accountNo), (FieldReceiverName, p.receiverName),
     (FieldAmount, p.amount), (FieldDesc, p.desc), (FieldSize, p.size), (FieldQrColor, p.qrcolor),
     (FieldTimeStamp, p.timeStamp)]
    + (if p.avatar.Some? then [(FieldAvatar, p.avatar.value)] else [])
  }

  /** `if (params[k]) u.searchParams.set(k, params[k])`: only non-empty values are sent. */
  function Truthy(fields: seq<(string, string)>): (q: map<string, string>)
    ensures forall k :: k in q ==> q[k] != ""
    ensures forall i :: 0 <= i < |fields| && fields[i].1 != "" ==> fields[i].0 in q
  {
    if fields == [] then map[]
    else
      var rest := Truthy(fields[1..]);
      if fields[0].1 != "" then rest[fields[0].0 := fields[0].1] else rest
  }

  /** The value a name has in the pairs: the last non-empty value given for it, or "". */
  lemma {:induction false} TruthyValue(fields: seq<(string, string)>, i: nat)
    requires i < |fields|
    requires forall j :: 0 <= j < |fields| && j != i ==> fields[j].0 != fields[i].0
    ensures (if fields[i].0 in Truthy(fields) then Truthy(fields)[fields[i].0] else "") == fields[i].1
  {
    if i > 0 {
      TruthyValue(fields[1..], i - 1);
    } else {
      NotNamed(fields[1..], fields[0].0);
    }
  }

  lemma {:induction false} NotNamed(fields: seq<(string, string)>, key: string)
    requires forall j :: 0 <= j < |fields| ==> fields[j].0 != key
    ensures key !in Truthy(fields)
  {
    if fields != [] {
      NotNamed(fields[1..], key);
    }
  }

  /** What updateAll does. */
  datatype Action = HidePanels | Send(query: map<string, string>)

  /** updateAll: with the BIN, the account number or the receiver name empty it hides
      both result panels and sends nothing; otherwise both requests carry the non-empty
      parameters. */
  function UpdateAll(p: Params): (a: Action)
    ensures a.HidePanels? <==> p.bankBin == "" || p.accountNo == "" || p.receiverName == ""
    ensures a.Send? ==> forall k :: k in a.query ==> a.query[k] != ""
  {
    if p.bankBin == "" || p.accountNo == "" || p.receiverName == "" then HidePanels
    else Send(Truthy(Fields(p)))
  }

  /** updateContentPreview's request: a GET of the content route with the parameters
      in the query. */
  function ContentRequest(origin: string, referer: string, values: map<string, string>): Request {
    Request("GET", origin, referer, ContentRoute, values, map[])
  }

  /** updateQRImage's request: a POST of the image route with the parameters as
      multipart fields and no query. */
  function ImageRequest(origin: string, referer: string, values: map<string, string>): Request {
    Request("POST", origin, referer, ImageRoute, map[], values)
  }

  /** The image handler's form holds exactly the fields the page posted. */
  lemma ImageFormIsFields(origin: string, referer: string, values: map<string, string>)
    ensures Form(ImageRequest(origin, referer, values)) == values
  {
    assert values + map[] == values;
  }

  /** The names getParams lists are all different. */
  lemma FieldNamesDistinct(p: Params)
    ensures forall j, k :: 0 <= j < k < |Fields(p)| ==> Fields(p)[j].0 != Fields(p)[k].0
  {
    var f := Fields(p);
    assert FieldBankBin[0] == 'b' && FieldReceiverName[0] == 'r' && FieldDesc[0] == 'd';
    assert FieldSize[0] == 's' && FieldQrColor[0] == 'q' && FieldTimeStamp[0] == 't';
    assert FieldAccountNo[1] == 'c' && FieldAmount[1] == 'm' && FieldAvatar[1] == 'v';
    assert forall j :: 0 <= j < |f| ==> f[j].0 in [FieldBankBin, FieldAccountNo, FieldReceiverName, FieldAmount,
                                                    FieldDesc, FieldSize, FieldQrColor, FieldTimeStamp, FieldAvatar];
  }

  /** The server reads each listed parameter back as it was listed. */
  lemma FieldRead(p: Params, i: nat)
    requires i < |Fields(p)|
    ensures var q := Truthy(Fields(p));
      (if Fields(p)[i].0 in q then q[Fields(p)[i].0] else "") == Fields(p)[i].1
  {
    FieldNamesDistinct(p);
    TruthyValue(Fields(p), i);
  }

  /** Dropping empty values loses nothing: the server reads each parameter back exactly
      as getParams produced it. */
  lemma ServerReadsParams(p: Params)
    requires UpdateAll(p).Send?
    ensures var q := UpdateAll(p).query;
      && Get(q, FieldBankBin) == p.bankBin && Get(q, FieldAccountNo) == p.accountNo
      && Get(q, FieldReceiverName) == p.receiverName && Get(q, FieldAmount) == p.amount
      && Get(q, FieldDesc) == p.desc && Get(q, FieldSize) == p.size
      && Get(q, FieldQrColor) == p.qrcolor && Get(q, FieldTimeStamp) == p.timeStamp
  {
    var f := Fields(p);
    assert f[0] == (FieldBankBin, p.bankBin) && f[1] == (FieldAccountNo, p.accountNo);
    assert f[2] == (FieldReceiverName, p.receiverName) && f[3] == (FieldAmount, p.amount);
    assert f[4] == (FieldDesc, p.desc) && f[5] == (FieldSize, p.size);
    assert f[6] == (FieldQrColor, p.qrcolor) && f[7] == (FieldTimeStamp, p.timeStamp);
    FieldRead(p, 0);
    FieldRead(p, 1);
    FieldRead(p, 2);
    FieldRead(p, 3);
    FieldRead(p, 4);
    FieldRead(p, 5);
    FieldRead(p, 6);
    FieldRead(p, 7);
  }

  /** The two requests the page sends read the same field values on the server; they
      pass both handlers' required-field gate, and the server stamps the description
      with the page's clock. */
  lemma SentRequestAccepted(page: Page, nowMs: nat, env: Env, origin: string, referer: string)
    requires nowMs <= MaxInt64
    requires UpdateAll(GetParams(page, nowMs)).Send?
    ensures var q := UpdateAll(GetParams(page, nowMs)).query;
      var content, image := ContentRequest(origin, referer, q), ImageRequest(origin, referer, q);
      && content.query == Form(image)
      && Gate(content.query)
      && StampedDesc(content.query, env) == Trim(page.desc) + "|" + Stamp(nowMs, env.zoneOffset)
  {
    var p := GetParams(page, nowMs);
    ImageFormIsFields(origin, referer, UpdateAll(p).query);
    ServerReadsParams(p);
    TimeStampReadsBack(page, nowMs);
    TimeStampParsed(p.desc, p.timeStamp, env.nowMs, env.zoneOffset, nowMs);
  }

  /** An empty size field reaches the server as "512", and a size of 1 to 2048 typed in
      decimal is the image size. */
  lemma SentSizeUsed(page: Page, nowMs: nat, origin: string, referer: string, n: int)
    requires UpdateAll(GetParams(page, nowMs)).Send?
    ensures var r := ImageRequest(origin, referer, UpdateAll(GetParams(page, nowMs)).query);
      && (page.qrSize == "" ==> ClampSize(FormValue(r, FieldSize)) == DefaultSize)
      && (1 <= n <= MaxSize && page.qrSize == FormatInt(n) ==> ClampSize(FormValue(r, FieldSize)) == n)
  {
    var p := GetParams(page, nowMs);
    ImageFormIsFields(origin, referer, UpdateAll(p).query);
    ServerReadsParams(p);
    if page.qrSize == "" {
      DefaultSizeTextParses();
    }
    if 1 <= n <= MaxSize && page.qrSize == FormatInt(n) {
      ClampSizeHonours(n);
    }
  }

  /** The page's default size text is the server's default size. */
  lemma DefaultSizeTextParses()
    ensures ClampSize(DefaultSizeText) == DefaultSize
  {
    assert DefaultSizeText[0] == '5';
    assert DigitsValue(DefaultSizeText) == 512 by {
      assert DefaultSizeText[..2] == "51" && "51"[..1] == "5";
    }
  }

  /** The page and the server trim different characters: U+0085 (NEXT LINE) is not white
      space to JavaScript, so a receiver name made of it is sent, but Go's TrimSpace
      removes it and the payload gets an empty name. */
  lemma NextLineNameReachesPayloadEmpty(page: Page, nowMs: nat)
    requires page.receiverName == "\U{0085}"
    requires page.datasetBin.GetOr("") != "" && Trim(page.accountNo) != ""
    ensures UpdateAll(GetParams(page, nowMs)).Send?
    ensures GetParams(page, nowMs).receiverName == "\U{0085}"
    ensures TrimSpace(ToUpper(GetParams(page, nowMs).receiverName)) == ""
  {
    NextLineTrims(page.receiverName);
  }

  lemma NextLineTrims(name: string)
    requires name == "\U{0085}"
    ensures Trim(name) == name && TrimSpace(ToUpper(name)) == ""
  {
    assert !IsJsSpace(name[0]);
    assert TrimStart(name) == name;
    assert TrimEnd(name) == name;
    assert ToUpper(name) == name;
    assert AllSpace(name);
    TrimSpaceOfSpaces(name);
  }
}
