/**
 * The request-normalisation logic of main.go: the required-field gate of both
 * endpoints, the image size clamp, the timestamp suffix of the description and the
 * field clean-up GenerateQr does before handing the fields to the payload builder.
 */
module QrRequest {
  import opened Wrappers
  import opened GoText
  import opened GoTime

  /** The fields of vietqr.RequestGenerateViQR that GenerateQr fills in. */
  datatype PayloadRequest = PayloadRequest(
    accountNo: string, acqId: string, amount: string,
    description: string, mcc: string, receiverName: string)

  /** The payload builder vietqr.GenerateViQR, whose internals are not modelled. */
  type PayloadBuilder = PayloadRequest -> string

  // ---------------------------------------------------------------- required fields

  /** Both endpoints answer 400 unless the three raw values are non-empty. The test is
      on the values as received, before any trimming. */
  predicate RequiredPresent(bankBin: string, accountNo: string, receiverName: string) {
    bankBin != "" && accountNo != "" && receiverName != ""
  }

  // ---------------------------------------------------------------- GenerateQr

  predicate Trimmed(s: string) {
    s == [] || (!IsSpace(s[0]) && !IsSpace(s[|s| - 1]))
  }

  /** GenerateQr's clean-up: every text field loses its surrounding white space, the
      receiver name is also upper-cased, and mcc passes through untouched. */
  function Normalise(bankBin: string, accountNo: string, receiverName: string,
                     amount: string, desc: string, mcc: string): (r: PayloadRequest)
    ensures Trimmed(r.accountNo) && Trimmed(r.acqId) && Trimmed(r.amount)
    ensures Trimmed(r.description) && Trimmed(r.receiverName)
    ensures forall i :: 0 <= i < |r.receiverName| ==> !IsLowerAscii(r.receiverName[i])
    ensures r.accountNo == TrimSpace(accountNo) && r.acqId == TrimSpace(bankBin)
    ensures r.amount == TrimSpace(amount) && r.description == TrimSpace(desc)
    ensures r.receiverName == TrimSpace(ToUpper(receiverName))
    ensures r.mcc == mcc
  {
    ToUpperTrimSpaceCommute(receiverName);
    PayloadRequest(
      accountNo := TrimSpace(accountNo),
      acqId := TrimSpace(bankBin),
      amount := TrimSpace(amount),
      description := TrimSpace(desc),
      mcc := mcc,
      receiverName := ToUpper(TrimSpace(receiverName)))
  }

  /** GenerateQr: the payload string the builder makes of the cleaned fields. */
  function GenerateQr(build: PayloadBuilder, bankBin: string, accountNo: string, receiverName: string,
                      amount: string, desc: string, mcc: string): string
  {
    build(Normalise(bankBin, accountNo, receiverName, amount, desc, mcc))
  }

  /** Cleaning cleaned fields changes nothing. */
  lemma NormaliseIdempotent(bankBin: string, accountNo: string, receiverName: string,
                            amount: string, desc: string, mcc: string)
    ensures var r := Normalise(bankBin, accountNo, receiverName, amount, desc, mcc);
      Normalise(r.acqId, r.accountNo, r.receiverName, r.amount, r.description, r.mcc) == r
  {
    var r := Normalise(bankBin, accountNo, receiverName, amount, desc, mcc);
    TrimSpaceIdempotent(accountNo);
    TrimSpaceIdempotent(bankBin);
    TrimSpaceIdempotent(amount);
    TrimSpaceIdempotent(desc);
    var u := ToUpper(receiverName);
    TrimSpaceIdempotent(u);
    ToUpperTrimSpaceCommute(TrimSpace(u));
    ToUpperIdempotent(TrimSpace(u));
    ToUpperTrimSpaceCommute(u);
    ToUpperIdempotent(receiverName);
  }

  /** The raw gate lets a receiver name of white space through, and the builder then
      receives an empty name. */
  lemma BlankReceiverPassesGate(bankBin: string, accountNo: string, receiverName: string,
                                amount: string, desc: string, mcc: string)
    requires bankBin != "" && accountNo != "" && receiverName != [] && AllSpace(receiverName)
    ensures RequiredPresent(bankBin, accountNo, receiverName)
    ensures Normalise(bankBin, accountNo, receiverName, amount, desc, mcc).receiverName == ""
  {
    TrimSpaceOfSpaces(receiverName);
  }

  // ---------------------------------------------------------------- timestamp suffix

  /** addTimeStampToDesc: without a timestamp the description is unchanged; otherwise
      "|" and the YYYYMMDDhhmmss reading of the timestamp (or of `nowMs` when it does not
      parse as an int64) in the server's zone are appended. */
  function AddTimeStampToDesc(desc: string, timeStr: string, nowMs: int, zoneOffset: int): (r: string)
    ensures timeStr == "" ==> r == desc
    ensures timeStr != "" ==> |r| > |desc| && r[..|desc|] == desc && r[|desc|] == '|'
  {
    if timeStr == "" then desc
    else
      var ms := ParseInt64(timeStr).GetOr(nowMs);
      desc + "|" + Stamp(ms, zoneOffset)
  }

  /** A timestamp that parses is the one printed, and for the years 0 to 9999 the suffix
      is 14 digits that read back as its local date and time. */
  lemma TimeStampSuffix(desc: string, timeStr: string, nowMs: int, zoneOffset: int, ms: int)
    requires ParseInt64(timeStr) == Some(ms)
    requires 0 <= LocalDateTime(ms, zoneOffset).date.year <= 9999
    ensures var r := AddTimeStampToDesc(desc, timeStr, nowMs, zoneOffset);
      |r| == |desc| + 15 && r[..|desc|] == desc && r[|desc|] == '|' &&
      ReadStamp(r[|desc| + 1..]) == Some(LocalDateTime(ms, zoneOffset))
  {
    StampReadsBack(ms, zoneOffset);
    var r := AddTimeStampToDesc(desc, timeStr, nowMs, zoneOffset);
    assert r[|desc| + 1..] == Stamp(ms, zoneOffset);
  }

  /** A timestamp that parses is the one printed. */
  lemma TimeStampParsed(desc: string, timeStr: string, nowMs: int, zoneOffset: int, ms: int)
    requires ParseInt64(timeStr) == Some(ms)
    ensures AddTimeStampToDesc(desc, timeStr, nowMs, zoneOffset) == desc + "|" + Stamp(ms, zoneOffset)
  {
  }

  /** A timestamp that does not parse is replaced by the current time. */
  lemma TimeStampFallsBackToNow(desc: string, timeStr: string, nowMs: int, zoneOffset: int)
    requires timeStr != "" && ParseInt64(timeStr).None?
    ensures AddTimeStampToDesc(desc, timeStr, nowMs, zoneOffset) == desc + "|" + Stamp(nowMs, zoneOffset)
  {
  }

  lemma ParseTimeStampExample()
    ensures ParseInt64("1700000000000") == Some(1700000000000)
  {
    var s := "1700000000000";
    assert s == "17" + "00000000000";
    DigitsValueAppend("17", "00000000000");
    DigitsValueLeadingZeros("00000000000", []);
    assert "00000000000" + [] == "00000000000";
    assert DigitsValue("17") == 17 by { assert "17"[..1] == "1"; }
    assert Pow10(11) == 100000000000;
  }

  /** 1700000000000 in UTC gives the suffix "|20231114221320". */
  lemma TimeStampExample(desc: string, nowMs: int)
    ensures AddTimeStampToDesc(desc, "1700000000000", nowMs, 0) == desc + "|20231114221320"
  {
    calc {
      AddTimeStampToDesc(desc, "1700000000000", nowMs, 0);
      { ParseTimeStampExample();
        TimeStampParsed(desc, "1700000000000", nowMs, 0, 1700000000000); }
      desc + "|" + Stamp(1700000000000, 0);
      { StampExample(); }
      desc + "|" + "20231114221320";
      { assert "|" + "20231114221320" == "|20231114221320"; }
      desc + "|20231114221320";
    }
  }

  // ---------------------------------------------------------------- image size

  const DefaultSize: int := 512
  const MaxSize: int := 2048

  /** The image endpoint's size: the parsed `size` when it is an integer in 1..2048,
      and 512 for an empty, unparsable or out-of-range value. */
  function ClampSize(sizeStr: string): (size: int)
    ensures 1 <= size <= MaxSize
    ensures (exists v :: ParseInt64(sizeStr) == Some(v) && 0 < v <= MaxSize) ==> Some(size) == ParseInt64(sizeStr)
    ensures !(exists v :: ParseInt64(sizeStr) == Some(v) && 0 < v <= MaxSize) ==> size == DefaultSize
  {
    var size := DefaultSize;
    if sizeStr != "" then
      match ParseInt64(sizeStr)
      case Some(s) => if s > 0 && s <= MaxSize then s else size
      case None => size
    else size
  }

  /** Every size from 1 to 2048, written in decimal, is used exactly. */
  lemma ClampSizeHonours(n: int)
    requires 1 <= n <= MaxSize
    ensures ClampSize(FormatInt(n)) == n
  {
    ParseFormatInt64(n);
  }

  /** Atoi's sign is accepted: "+100" is 100, while "-100" falls back to 512. */
  lemma ClampSizeSignExample()
    ensures ClampSize("+100") == 100 && ClampSize("-100") == DefaultSize
  {
    assert "+100"[1..] == "100" && "-100"[1..] == "100";
    assert DigitsValue("100") == 100 by {
      assert "100"[..2] == "10" && "10"[..1] == "1";
    }
  }
}
