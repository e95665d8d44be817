/**
 * The collector's upload endpoint: upload_image decides the reply to a POST
 * from its Content-Type header and body. The clock, the file write and the
 * web framework stay outside: the current time is a parameter, the write is
 * returned as a request (path and bytes) and whether it raised is a parameter.
 */
module UploadServer {
  import opened Wrappers

  type byte = bv8

  /** UPLOAD_FOLDER: the directory images are saved under. */
  const UploadFolder: string := "uploaded_images"

  /** The parts of a request the endpoint reads: the Content-Type header (if
      present) and Flask's request.data, the body bytes Flask did not parse
      as form data. */
  datatype Request = Request(contentType: Option<string>, data: seq<byte>)

  /** The wall-clock time, to the second, as datetime.now() gives it. */
  datatype DateTime = DateTime(year: nat, month: nat, day: nat, hour: nat, minute: nat, second: nat)

  /** Calendar fields in their datetime ranges (days up to 31 in every month;
      years from 1000, which %Y writes as four digits). */
  type Clock = dt: DateTime | 1000 <= dt.year <= 9999 && 1 <= dt.month <= 12 && 1 <= dt.day <= 31
    && dt.hour < 24 && dt.minute < 60 && dt.second < 60
    witness DateTime(2000, 1, 1, 0, 0, 0)

  /** Whether writing the file raised, and str() of the exception if it did. */
  datatype SaveResult = SaveOk | SaveRaised(message: string)

  /** The JSON body of the reply. */
  datatype ReplyBody =
    | ErrorBody(error: string)
    | SuccessBody(success: bool, message: string, filename: string, size: nat)

  /** The file the endpoint opens for writing, and what it writes. */
  datatype FileWrite = FileWrite(path: string, contents: seq<byte>)

  /** The reply's status and body, and the write attempted on the way. */
  datatype Handled = Handled(status: nat, body: ReplyBody, write: Option<FileWrite>)

  /** t occurs in s starting at index i. */
  predicate OccursAt(s: string, t: string, i: nat) {
    i + |t| <= |s| && s[i..i + |t|] == t
  }

  /** Python's `t in s` on strings: t occurs in s as a contiguous substring. */
  function Contains(s: string, t: string): (b: bool)
    ensures b <==> exists i: nat :: OccursAt(s, t, i)
    decreases |s|
  {
    if |s| < |t| then false
    else if s[..|t|] == t then
      assert OccursAt(s, t, 0);
      true
    else
      var b := Contains(s[1..], t);
      assert forall i: nat :: OccursAt(s, t, i + 1) <==> OccursAt(s[1..], t, i) by {
        forall i: nat ensures OccursAt(s, t, i + 1) <==> OccursAt(s[1..], t, i) {
          if i + 1 + |t| <= |s| {
            assert s[1..][i..i + |t|] == s[i + 1..i + 1 + |t|];
          }
        }
      }
      assert !OccursAt(s, t, 0);
      assert (exists i: nat :: OccursAt(s, t, i)) ==> exists i: nat :: OccursAt(s[1..], t, i) by {
        if exists i: nat :: OccursAt(s, t, i) {
          var i: nat :| OccursAt(s, t, i);
          assert i > 0;
          assert OccursAt(s[1..], t, i - 1);
        }
      }
      b
  }

  /** The header check: present and naming image/jpeg somewhere in its value. */
  predicate ContentTypeOk(contentType: Option<string>) {
    contentType.Some? && Contains(contentType.value, "image/jpeg")
  }

  function Digit(d: nat): (c: char)
    requires d < 10
    ensures '0' <= c <= '9'
  {
    ('0' as int + d) as char
  }

  /** The value of a decimal digit character (0 for any other character). */
  function DigitValue(c: char): nat {
    if '0' <= c <= '9' then c as int - '0' as int else 0
  }

  /** n in two decimal digits, zero padded. */
  function Pad2(n: nat): (s: string)
    requires n < 100
    ensures |s| == 2
  {
    [Digit(n / 10), Digit(n % 10)]
  }

  /** n in four decimal digits, zero padded. */
  function Pad4(n: nat): (s: string)
    requires n < 10000
    ensures |s| == 4
  {
    Pad2(n / 100) + Pad2(n % 100)
  }

  /** strftime("%Y%m%d_%H%M%S"). */
  function Timestamp(now: Clock): (s: string)
    ensures |s| == 15 && s[8] == '_'
    ensures forall k :: 0 <= k < 15 && k != 8 ==> '0' <= s[k] <= '9'
  {
    Pad4(now.year) + Pad2(now.month) + Pad2(now.day) + "_" + Pad2(now.hour) + Pad2(now.minute) + Pad2(now.second)
  }

  function Num2(s: string, at: nat): nat
    requires at + 2 <= |s|
  {
    10 * DigitValue(s[at]) + DigitValue(s[at + 1])
  }

  /** Reads the date and time back out of a timestamp. */
  function ReadTimestamp(s: string): DateTime
    requires |s| == 15
  {
    DateTime(100 * Num2(s, 0) + Num2(s, 2), Num2(s, 4), Num2(s, 6), Num2(s, 9), Num2(s, 11), Num2(s, 13))
  }

  /** The filename the image is saved under. */
  function FileName(timestamp: string): string {
    "esp32cam_" + timestamp + ".jpg"
  }

  /** os.path.join(UPLOAD_FOLDER, filename) for a relative filename: one separator between. */
  function SavePath(filename: string): string {
    UploadFolder + "/" + filename
  }

  /** upload_image: reject a missing or wrong Content-Type, then an empty body;
      otherwise write the image under a timestamped name and report it, or
      report the exception the write raised. */
  function UploadImage(req: Request, now: Clock, save: SaveResult): (r: Handled)
    ensures r.status == 400 <==> !ContentTypeOk(req.contentType) || |req.data| == 0
    ensures r.status == 500 <==> ContentTypeOk(req.contentType) && |req.data| > 0 && save.SaveRaised?
    ensures r.status == 200 <==> ContentTypeOk(req.contentType) && |req.data| > 0 && save.SaveOk?
    ensures r.write.Some? <==> ContentTypeOk(req.contentType) && |req.data| > 0
    ensures r.body.SuccessBody? <==> r.status == 200
  {
    if !ContentTypeOk(req.contentType) then
      Handled(400, ErrorBody("Content-Type must be image/jpeg"), None)
    else if |req.data| == 0 then
      Handled(400, ErrorBody("No image data received"), None)
    else
      var filename := FileName(Timestamp(now));
      var write := Some(FileWrite(SavePath(filename), req.data));
      match save
      case SaveOk => Handled(200, SuccessBody(true, "Image saved successfully", filename, |req.data|), write)
      case SaveRaised(message) => Handled(500, ErrorBody(message), write)
  }

  /** A missing header, or one not naming image/jpeg, is refused before the
      body is looked at: an empty body then still gets the Content-Type error. */
  lemma BadContentTypeWins(req: Request, now: Clock, save: SaveResult)
    requires !ContentTypeOk(req.contentType)
    ensures UploadImage(req, now, save) == Handled(400, ErrorBody("Content-Type must be image/jpeg"), None)
  {
  }

  /** The header check is a substring test: parameters around the media type
      pass, another type or an absent header does not. */
  lemma ContentTypeExamples()
    ensures ContentTypeOk(Some("image/jpeg"))
    ensures ContentTypeOk(Some("image/jpeg; charset=binary"))
    ensures !ContentTypeOk(Some("image/png"))
    ensures !ContentTypeOk(None)
  {
    assert "image/jpeg"[0..10] == "image/jpeg";
    assert "image/jpeg; charset=binary"[0..10] == "image/jpeg";
    assert |"image/png"| < |"image/jpeg"|;
  }

  /** A good header with an empty body is refused with the no-data error. */
  lemma EmptyBodyRejected(req: Request, now: Clock, save: SaveResult)
    requires ContentTypeOk(req.contentType) && req.data == []
    ensures UploadImage(req, now, save) == Handled(400, ErrorBody("No image data received"), None)
  {
  }

  /** A good request whose write succeeds: 200, success, the body's length as
      the size, the timestamped name, and the whole body written under the
      upload folder. */
  lemma SuccessReply(req: Request, now: Clock)
    requires ContentTypeOk(req.contentType) && req.data != []
    ensures var r := UploadImage(req, now, SaveOk);
      r.status == 200 && r.body.SuccessBody? && r.body.success && r.body.size == |req.data|
      && r.body.filename == "esp32cam_" + Timestamp(now) + ".jpg"
      && r.write == Some(FileWrite("uploaded_images/" + r.body.filename, req.data))
  {
    assert "uploaded_images/" + FileName(Timestamp(now)) == SavePath(FileName(Timestamp(now)));
  }

  /** A write that raises turns into 500 with the exception's text. */
  lemma SaveFailureReply(req: Request, now: Clock, message: string)
    requires ContentTypeOk(req.contentType) && req.data != []
    ensures UploadImage(req, now, SaveRaised(message)).status == 500
    ensures UploadImage(req, now, SaveRaised(message)).body == ErrorBody(message)
  {
  }

  /** The timestamp can be read back: formatting loses nothing down to the second. */
  lemma TimestampRoundTrip(now: Clock)
    ensures ReadTimestamp(Timestamp(now)) == now
  {
  }

  /** Two uploads get the same file exactly when they arrive in the same
      second: a later upload within that second overwrites the earlier one. */
  lemma SameFileIffSameSecond(a: Clock, b: Clock)
    ensures SavePath(FileName(Timestamp(a))) == SavePath(FileName(Timestamp(b))) <==> a == b
  {
    var pa, pb := SavePath(FileName(Timestamp(a))), SavePath(FileName(Timestamp(b)));
    if pa == pb {
      var off := |UploadFolder| + 1 + 9;
      assert pa[off..off + 15] == Timestamp(a);
      assert pb[off..off + 15] == Timestamp(b);
      TimestampRoundTrip(a);
      TimestampRoundTrip(b);
    }
  }
}
