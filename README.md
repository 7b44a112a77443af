# Orbit QR: a verified model of the request and client logic

Orbit QR is a small Go web server. It builds VietQR bank-transfer payloads and QR images.
Its browser page lets a user pick a bank, fill in an account, and see a QR code that
refreshes on a countdown. This project models the decision logic of that system in Dafny
and proves what it promises.

Server side (`main.go`):
- the required-field gate of both endpoints;
- the field clean-up in `GenerateQr`;
- the image size clamp;
- the `qrcolor` parser `parseHexColor`;
- the timestamp suffix `addTimeStampToDesc`, including the millisecond-to-calendar
  conversion of Go's `time` package;
- the two security middlewares `securityHeaders` and `strictDomainGuard`;
- the two handlers `qrContent` and `qrImage`, and the mux they are mounted in.

Client side (`public/scripts/app.js`):
- `getParams` and the `updateAll` gate;
- the bank search box;
- the refresh countdown.

Module layout:
- `GoText`, `GoTime` and `JsText` model the library behaviour the code relies on:
  - `strings.TrimSpace`, `TrimPrefix`, `ToUpper`, `strconv.ParseInt`;
  - `time.UnixMilli` and `Format`;
  - JavaScript `trim`, `toLowerCase` and `padStart`.
- `Colour` and `QrRequest` hold the pure parsers and normalisers of `main.go`.
- `Http` models the response writer as a class whose header map, status and body
  the handlers change step by step.
- `Middleware` and `Handlers` are the imperative server code. Each method is proved
  against a pure reply function, and the properties are proved about those functions.
- `BankSearch`, `Countdown` and `Client` model the page.
- `Client` also follows a request from the page into the handlers.

The payload builder `vietqr.GenerateViQR`, the QR encoder's failure, the clock and the
server's zone offset are inputs of the model (`Handlers.Env`).

`time.UnixMilli(1700000000000)` in UTC is 2023-11-14 22:13:20, so the description
suffix for that timestamp is `|20231114221320`; `QrRequest.TimeStampExample` proves it.

Behaviours the model keeps exactly as written:
- The required-field gate tests the raw values. A receiver name of white space passes
  and reaches the payload builder as an empty name (`QrRequest.BlankReceiverPassesGate`).
- A preflight gets its 204 before the hardening headers are set, so it carries only
  the frame-ancestors policy and the CORS headers.
- `parseHexColor` strips `#` before trimming, so `" #FF0000"` is black.
- `parseHexColor` tests the byte length, so `"é1234"` is read as three pairs.
- `strconv.Atoi` accepts a sign, so `"+100"` is the size 100.
- `qrContent` reads only the query and `qrImage` reads the form, so fields posted in a
  body to the content route count as missing (`Handlers.ContentIgnoresBody`).
- The Referer test of `strictDomainGuard` is a bare prefix test
  (`Middleware.LookalikeRefererPasses`).
- The page and the server trim different characters. U+0085 is white space to Go but
  not to JavaScript (`Client.NextLineNameReachesPayloadEmpty`).

## Model

| member | source | states |
|---|---|---|
| GoText.Utf8OfAscii | main.go:268 | an ASCII string is stored as one byte per character, each its character code |
| GoText.Utf8OfNonAscii | main.go:268 | a string holding any non-ASCII character takes more bytes than characters |
| GoText.TrimLeft | main.go:267 | the result is a suffix of the input that does not start with white space |
| GoText.TrimRight | main.go:267 | the result is a prefix of the input that does not end with white space |
| GoText.TrimSpace | main.go:125-133 | the trimmed text neither starts nor ends with white space and is no longer than the input |
| GoText.TrimLeftCutsSpaces | main.go:267 | only white space is removed in front |
| GoText.TrimRightCutsSpaces | main.go:267 | only white space is removed at the end |
| GoText.TrimSpaceCutsSpaces | main.go:125-133 | TrimSpace keeps a contiguous part of the input with only white space cut away on both sides |
| GoText.TrimSpaceIdempotent | main.go:125-133 | trimming twice is trimming once |
| GoText.TrimSpaceOfSpaces | main.go:133 | a string of white space alone trims to the empty string |
| GoText.TrimPrefix | main.go:267 | with the prefix present the input is prefix plus result, otherwise the input is returned unchanged |
| GoText.ToUpper | main.go:133 | same length, no lower-case letter left, and each character differs from the input only in letter case |
| GoText.ToUpperIdempotent | main.go:133 | upper-casing twice is upper-casing once |
| GoText.ToUpperTrimSpaceCommute | main.go:133 | upper-casing and trimming commute, because upper-casing never touches white space |
| GoText.Decimal | public/scripts/app.js:106 | the decimal text of n is non-empty digits that read back as n, starting with 0 only when it is "0" itself |
| GoText.ParseInt64 | main.go:143 | a successful parse is within the int64 range |
| GoText.ParseInt64Iff | main.go:143 | a string parses to v exactly when it is an optional '+' or '-' then at least one digit whose signed value is v, within the int64 range |
| GoText.ParseInt64Rejects | main.go:143-146 | " 12", "12a", "", "+" and "-" are errors |
| GoText.ParseFormatInt64 | main.go:143 | every int64 written in decimal parses back as itself |
| GoText.DecimalLength | main.go:148 | the decimal text of n has at most k digits exactly when n is below 10^k |
| GoText.DigitsValueAppend | main.go:143 | digits written one after another have the value of the first shifted left by the length of the second, plus the second |
| GoTime.UnixSeconds | main.go:147 | the second of time.UnixMilli(ms) is the floor of ms/1000, despite Go's truncating division |
| GoTime.DaysBeforeMonth | main.go:148 | January starts the year at day 0 and the thirteenth month boundary is the year's length |
| GoTime.MonthStep | main.go:148 | each month takes up exactly its number of days in the year |
| GoTime.YearStep | main.go:148 | each year starts exactly one year length after the previous one |
| GoTime.CycleYear | main.go:148 | the 400-, 100-, 4- and 1-year cycle decomposition gives the start day and the leap-year rule of the year it names |
| GoTime.MonthOf | main.go:148 | the month found for a day of the year is the month that contains that day |
| GoTime.CivilFromDayNumber | main.go:148 | the date computed from a day number is a real calendar date whose day number is the input |
| GoTime.DayNumberInjective | main.go:148 | distinct real dates have distinct day numbers |
| GoTime.CivilOfDayNumber | main.go:148 | every real date is recovered from its day number |
| GoTime.ClockOf | main.go:148 | hour, minute and second are in range and add back up to the second of the day |
| GoTime.ReadingOf | main.go:147-148 | the wall-clock reading of a local second is a real date and time that denotes that second |
| GoTime.LocalDateTime | main.go:147-148 | the reading of time.UnixMilli(ms) in a fixed-offset zone is a real date and time denoting the instant's whole second |
| GoTime.InstantOfInjective | main.go:147-148 | distinct real readings denote distinct seconds in a zone |
| GoTime.LocalDateTimeOfInstant | main.go:147-148 | every reading is recovered from any millisecond of the second it denotes |
| GoTime.ReadingOfInstant | main.go:147-148 | every reading is recovered from the local second it denotes |
| GoTime.PaddedIntDigits | main.go:148 | a value below 10^width prints as exactly width digits that read back as the value |
| GoTime.FormatReadsBack | main.go:148 | for years 0 to 9999 the layout 20060102150405 gives 14 digits that read back as the reading |
| GoTime.StampReadsBack | main.go:147-148 | for years 0 to 9999 the stamp of a timestamp is 14 digits that read back as its local reading |
| GoTime.StampWidensAfterYear9999 | main.go:148 | from year 10000 on the year takes more digits and the stamp is longer than 14 characters |
| GoTime.TwoDigits | main.go:148 | two-digit fields print with a leading zero where needed |
| GoTime.FormatExample | main.go:148 | 2023-11-14 22:13:20 prints as 20231114221320 |
| GoTime.StampExample | main.go:147-148 | 1700000000000 ms in UTC prints as 20231114221320 |
| Colour.ParseHexColor | main.go:266-275 | alpha is always 255, and any text whose clean-up is not six bytes long gives opaque black |
| Colour.QrColourIsParsed | main.go:83-86 | the empty-colour guard gives what the parser gives, black |
| Colour.HexPairRoundTrip | main.go:271-273 | two hex digits of a byte, in either case, parse back as that byte |
| Colour.HexColourRoundTrip | main.go:266-275 | every colour written as six hex digits, with or without '#', in either case, parses back as itself and opaque |
| Colour.SixAsciiCharacters | main.go:268-274 | six ASCII characters after clean-up are read as three pairs |
| Colour.PlainBody | main.go:267 | text with no '#' in front and no white space at either end is its own clean-up |
| Colour.PlainSix | main.go:266-275 | six ASCII characters that need no clean-up are read pair by pair |
| Colour.RedExample | main.go:266-275 | "FF0000" is pure opaque red |
| Colour.NonHexPairExample | main.go:271-274 | a pair that is not hex gives 0 for its channel while the others are read |
| Colour.WrongLengthIsBlack | main.go:268-270 | ASCII text whose clean-up is not six characters long is black |
| Colour.SpaceBeforeHashIsBlack | main.go:267-270 | white space before the '#' keeps the '#', so space, '#' and six digits is black |
| Colour.SpaceKeepsHash | main.go:267 | a '#' behind a space is not removed; only the space is |
| Colour.SpaceAfterHashIsRead | main.go:267 | white space between the '#' and the digits is trimmed, so the colour is that of the digits |
| Colour.MultiByteExample | main.go:268-274 | "é1234" is five characters but six bytes, so it is read as three pairs and the pair holding 'é' is 0 |
| QrRequest.Normalise | main.go:122-134 | each text field is TrimSpace of its own argument (bankBin becomes the acquirer id), the receiver name is also upper-cased with no lower-case letter left, and mcc passes through |
| QrRequest.NormaliseIdempotent | main.go:122-134 | normalising normalised fields changes nothing |
| QrRequest.BlankReceiverPassesGate | main.go:45-50 | a receiver name of white space passes the raw gate and reaches the builder as an empty name |
| QrRequest.AddTimeStampToDesc | main.go:139-150 | an empty timestamp leaves the description unchanged, otherwise the result is the description, then '|', then more |
| QrRequest.TimeStampSuffix | main.go:139-150 | a parsed timestamp adds '|' and 14 digits that read back as its local date and time (years 0 to 9999) |
| QrRequest.TimeStampParsed | main.go:143-149 | a timestamp that parses is the one printed |
| QrRequest.TimeStampFallsBackToNow | main.go:143-149 | a timestamp that does not parse is replaced by the current time |
| QrRequest.ParseTimeStampExample | main.go:143 | "1700000000000" parses as 1700000000000 |
| QrRequest.TimeStampExample | main.go:139-150 | with offset 0 the timestamp 1700000000000 gives the suffix "\|20231114221320" |
| QrRequest.ClampSize | main.go:76-81 | the size is always 1 to 2048; a value that parses within 1..2048 is used, anything else gives 512 |
| QrRequest.ClampSizeHonours | main.go:76-81 | every size from 1 to 2048 written in decimal is used exactly |
| QrRequest.ClampSizeSignExample | main.go:78 | "+100" gives 100 while "-100" falls back to 512 |
| Http.Form | main.go:60-67 | the form holds the query and body keys, the query value winning for a key in both |
| Http.ResponseWriter.SetHeader | main.go:51 | one header key takes the value, nothing else changes |
| Http.ResponseWriter.DeleteHeader | main.go:46 | one header key is removed, nothing else changes |
| Http.ResponseWriter.WriteHeader | main.go:215 | only the first status written counts |
| Http.ResponseWriter.Write | main.go:117 | the chunk is appended to the body and the status becomes 200 if none was written |
| Http.ResponseWriter.Error | main.go:46 | plain-text headers, the status if none was written, and the message with a newline as body |
| Middleware.WithCors | main.go:205-211 | exactly the four CORS headers are added, only for an allow-listed origin, with the origin echoed and the fixed methods, headers and credentials values; other headers keep their values |
| Middleware.WithHardening | main.go:219-227 | the six hardening headers are added with their fixed values exactly when the request is not a preflight; other headers keep their values |
| Middleware.SecurityHeaderSet | main.go:190-231 | the frame-ancestors policy always; CORS headers iff the origin is allow-listed; hardening headers iff not a preflight; nothing else, and every header with the source's value, Allow-Origin echoing the origin |
| Middleware.SecuredOverrides | main.go:190-231 | securityHeaders only sets, so every other header already present survives |
| Middleware.CorsOnTop | main.go:206-211 | the CORS step adds the same headers on top of any existing map |
| Middleware.HardeningOnTop | main.go:220-227 | the hardening step adds the same headers on top of any existing map |
| Middleware.NoOriginNoCors | main.go:206 | a request with no Origin never receives CORS headers |
| Middleware.SecurityHeaders | main.go:190-231 | the writer gets exactly the security headers; a preflight is answered 204 and stopped; anything else is forwarded with status and body untouched |
| Middleware.RefererAllowed | main.go:255-260 | the loop over the allow-list answers true exactly when some entry is a prefix of the Referer, in any iteration order |
| Middleware.Guard | main.go:233-264 | refused as direct access iff both headers are empty; passes iff some header is present and the origin is listed or the Referer has a listed prefix |
| Middleware.StrictDomainGuard | main.go:233-264 | forwards with the response untouched iff the guard passes; otherwise a 403 with the matching message |
| Middleware.LookalikeRefererPasses | main.go:255-260 | a Referer host that merely begins with the listed origin passes |
| Middleware.ListedOriginPasses | main.go:249-252 | the listed origin passes whatever the Referer |
| Middleware.ForeignOriginRefused | main.go:262 | a foreign Origin with no Referer is refused as an invalid domain |
| Handlers.ContentReply | main.go:35-53 | reading the query alone, a missing required field gives 400 "Thiếu tham số"; otherwise 200 JSON whose content is the builder's payload of the normalised, stamped fields |
| Handlers.QrContent | main.go:35-53 | the writer receives exactly the content endpoint's reply |
| Handlers.ImageReply | main.go:55-118 | reading the form, 400 on a missing field, 500 with the encoder's message when it refuses, else a PNG of the payload at the clamped size in the requested colour |
| Handlers.QrImage | main.go:55-118 | the writer receives exactly the image endpoint's reply |
| Handlers.MissingFieldRejected | main.go:45-48 | a required field missing from the values an endpoint reads gives that endpoint's 400 whatever the builder, encoder and clock |
| Handlers.ContentIgnoresBody | main.go:36-48 | with an empty query the content endpoint answers 400, whatever the body carries |
| Handlers.EndpointsAgree | main.go:88 | when the content request's query holds the image request's form values, the image encodes exactly the content the JSON endpoint returns |
| Handlers.Route | main.go:314-321 | the content path gets the content reply, the image path the image reply, and any other path the static file server with status 200 and no header changes |
| Handlers.Mux | main.go:314-321 | the writer receives exactly one reply, that of the route the path selects |
| Handlers.Serve | main.go:314-324 | a preflight gets only the security headers and 204 with no body; any other request gets the security headers and then exactly one route's reply |
| JsText.TrimStart | public/scripts/app.js:100-103 | the result is a suffix of the input that does not start with white space |
| JsText.TrimEnd | public/scripts/app.js:100-103 | the result is a prefix of the input that does not end with white space |
| JsText.Trim | public/scripts/app.js:100-103 | the trimmed text neither starts nor ends with white space |
| JsText.TrimStartCutsSpaces | public/scripts/app.js:100-103 | only white space is removed in front |
| JsText.TrimEndCutsSpaces | public/scripts/app.js:100-103 | only white space is removed at the end |
| JsText.TrimCutsSpaces | public/scripts/app.js:100-103 | trim keeps a contiguous part of the input with only white space cut away on both sides |
| JsText.TrimEmpty | public/scripts/app.js:255-257 | trim gives the empty string exactly for a string of white space |
| JsText.ToLower | public/scripts/app.js:255 | same length, no upper-case letter left, and only upper-case letters change |
| JsText.ToLowerIdempotent | public/scripts/app.js:259-261 | lower-casing twice is lower-casing once |
| JsText.PadStart | public/scripts/app.js:176-177 | the text is padded in front with the fill character to the width and ends with the input |
| BankSearch.Filter | public/scripts/app.js:258-261 | every kept bank is from the list and matches; every matching bank is kept |
| BankSearch.FilterAppend | public/scripts/app.js:258-261 | filtering keeps the order of the banks |
| BankSearch.FilterNone | public/scripts/app.js:258-261 | with no matching bank the filter is empty |
| BankSearch.Listed | public/scripts/app.js:258-262 | the listed banks are a prefix of the matches, of length the smaller of their number and 50 |
| BankSearch.FirstFiftyMatches | public/scripts/app.js:258-262 | a matching bank is listed, at its place among the matches, exactly when fewer than 50 matches come before it |
| BankSearch.SearchView | public/scripts/app.js:254-272 | hidden iff empty, empty for a blank keyword, otherwise the rendered listed banks, at most 50 |
| BankSearch.ItemsMatch | public/scripts/app.js:258-267 | every item shown is the text of a bank that matches the keyword |
| BankSearch.BlankKeywordHides | public/scripts/app.js:255-257 | a keyword of white space alone clears and hides the list |
| BankSearch.NoMatchHides | public/scripts/app.js:263 | when no bank matches the list is hidden and empty |
| BankSearch.MatchShown | public/scripts/app.js:258-271 | every matching bank among the first 50 matches is shown |
| BankSearch.BankList.Search | public/scripts/app.js:254-272 | the handler leaves the list showing exactly the search view of the input |
| Countdown.MmSsReadsBack | public/scripts/app.js:176-178 | below 100 minutes the text is mm:ss and reads back as the seconds left, with seconds below 60 |
| Countdown.Pad2Digits | public/scripts/app.js:176-177 | below 100 the padded text is the tens digit and the units digit |
| Countdown.MmSsDigits | public/scripts/app.js:176-178 | below 100 minutes the text character by character |
| Countdown.MmSsParts | public/scripts/app.js:177 | for a count that is not negative JavaScript's remainder is the usual one |
| Countdown.StartText | public/scripts/app.js:174-178 | the first text shown is "00:10" |
| Countdown.Started | public/scripts/app.js:172-187 | a start runs the interval, keeps the refresh count and leaves one second counted down |
| Countdown.Ticked | public/scripts/app.js:175-184 | a tick with time left shows it and counts down; a tick with nothing left refreshes once and starts again |
| Countdown.Run | public/scripts/app.js:186 | the interval keeps running tick after tick |
| Countdown.CountsDown | public/scripts/app.js:174-184 | for the first nine ticks the text counts 00:09 down to 00:01 with no refresh |
| Countdown.TenthTickRefreshes | public/scripts/app.js:179-182 | the tenth tick refreshes exactly once and restarts the countdown |
| Countdown.RefreshesEveryTenTicks | public/scripts/app.js:172-197 | after 10m + k ticks the page has refreshed exactly m times and is k ticks into a fresh countdown |
| Countdown.CountdownTimer.StartCountdown | public/scripts/app.js:172-187 | the timer's new state is the started state |
| Countdown.CountdownTimer.UpdateAllWithExpiry | public/scripts/app.js:192-197 | one more refresh, then a fresh start |
| Countdown.CountdownTimer.Tick | public/scripts/app.js:175-184 | the timer's new state is the ticked state |
| Countdown.CountdownTimer.Reset | public/scripts/app.js:294-295 | the interval stops and the text becomes "--:--", nothing else changes |
| Client.GetParams | public/scripts/app.js:97-109 | text fields trimmed, the size never empty and defaulting to "512", the colour and avatar as stored, a non-empty timestamp |
| Client.TimeStampReadsBack | public/scripts/app.js:106 | the timestamp the page sends parses back on the server as the page's clock |
| Client.Truthy | public/scripts/app.js:113 | only non-empty values are sent, and every non-empty value's name is sent |
| Client.TruthyValue | public/scripts/app.js:113 | with distinct names, each name's sent value is its value, or absent when empty |
| Client.UpdateAll | public/scripts/app.js:159-168 | the panels are hidden and nothing sent iff the BIN, account or receiver is empty; every value sent is non-empty |
| Client.FieldNamesDistinct | public/scripts/app.js:97-109 | the parameter names are all different |
| Client.FieldRead | public/scripts/app.js:111-126 | the server reads each listed parameter back as it was listed |
| Client.ServerReadsParams | public/scripts/app.js:111-126 | dropping empty values loses nothing: the server reads every parameter as getParams produced it |
| Client.ImageFormIsFields | public/scripts/app.js:124-138 | the image handler's form holds exactly the fields the page posted |
| Client.SentRequestAccepted | public/scripts/app.js:159-168 | the content query and the image form carry the same values, which pass the server's gate, and the description is stamped with the page's clock |
| Client.SentSizeUsed | public/scripts/app.js:104 | an empty size field becomes the server's 512, and a typed size of 1 to 2048 is used |
| Client.DefaultSizeTextParses | public/scripts/app.js:104 | the page's default size text is the server's default size |
| Client.NextLineNameReachesPayloadEmpty | public/scripts/app.js:101 | a receiver name of U+0085 passes the page's gate but the server trims it to an empty name |

## Left out

- Avatar compositing (`AddCircularAvatarToQR`, `imaging.OverlayCenter`) is float geometry inside image libraries. The model records only whether an avatar was overlaid (`avatarOverlaid`).
- Handlers.ImageReply: whether the avatar upload exists, saves and decodes is an input, not derived from the request.
- QR matrix and PNG encoding (`qrcode.New`, `qr.Image`, `png.Encode`) are external libraries. The image is the `Bitmap` of its ingredients, and the encoder's error is the `encodeError` input.
- The payload construction inside `vietqr.GenerateViQR` is external. It is the uninterpreted `build` function of the normalised fields.
- Multipart parsing, temporary files, `os.TempDir`, logging, `main`, the port and the embedded file system are left out.
- Handlers.Route: the static file server's own answers (404, content types, listings) are not modelled; its reply is `StaticFile(path)` with status 200.
- Handlers.Route: paths are taken as clean. Go's ServeMux first answers an unclean path (such as `/x/../orbit-qr/content`) with a 301 redirect to the clean one, and that redirect is not modelled.
- Http.Request: a body is its multipart text fields. A URL-encoded body, whose values Go puts before the query values in `r.Form`, is not modelled.
- Handlers.Serve: `strictDomainGuard` is not installed by `main`, so the server uses `securityHeaders` only. The guard is modelled on its own.
- `time.Now()` and the local zone are inputs: `nowMs` and a fixed `zoneOffset` in seconds.
- GoTime.LocalDateTime: daylight-saving changes and zone lookups are not modelled.
- GoText.ToUpper: only ASCII letters are upper-cased, because full Unicode case mapping is not modelled.
- JsText.ToLower: only ASCII letters are lower-cased, for the same reason.
- Colour.ParseHexColor: strings are sequences of Unicode scalar values, so byte strings that are not valid UTF-8 are not modelled.
- Http.FormValue: each form key has one value; repeated keys are not modelled.
- Http.ResponseWriter.SetHeader: Go ignores header changes after the status is written, and the model does not. No modelled code sets a header after writing.
- The JSON encoding of the content reply is the `Json` chunk, not its bytes.
- Countdown.CountdownTimer.Tick: the decrement of the finished countdown's `remaining` after a refresh is not modelled. No later tick reads it.
- Countdown.MmSsReadsBack: stated for fewer than 6000 seconds. The page only shows counts up to 10.
- Timers are steps: `setInterval` and `setTimeout` timing, `debounce` and `updateExpiryTimer`'s text are left out.
- DOM updates, `fetch`, `localStorage`, `FileReader`, `base64ToBlob`, printing and the clipboard are browser effects and are left out.
- BankSearch.Filter: bank fields that are neither absent, null nor strings are not modelled.
- JsText.Trim: JavaScript strings are UTF-16, and lone surrogates are not modelled.
- Client.GetParams: the clock `Date.now()` is the input `nowMs`, a natural number.
