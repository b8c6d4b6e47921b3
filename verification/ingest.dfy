/** Selecting an image: the client-side size and type checks, and the
    extraction of the base64 payload from the data URL a `FileReader`
    produces. The bytes of the file are not modelled; only the attributes the
    checks read. */
module Ingest {
  import opened Wrappers
  import opened Text

  /** A browser `File`, reduced to the attributes the upload handlers read. */
  datatype File = File(name: string, size: nat, mimeType: string)

  /** The upload cap: 5 MiB. */
  const MaxUploadBytes: nat := 5 * 1024 * 1024

  /** The content-type prefix an image must carry. */
  const ImageTypePrefix: string := "image/"

  /** Why a selected file is turned away. */
  datatype Rejection = TooLarge | UnsupportedType

  predicate IsImageType(mimeType: string) {
    StartsWith(mimeType, ImageTypePrefix)
  }

  /** The two checks of the upload handler, size first and type second. */
  function Validate(f: File): (r: Result<File, Rejection>)
    ensures r.Success? <==> f.size <= MaxUploadBytes && |f.mimeType| >= 6 && f.mimeType[..6] == "image/"
    ensures r.Success? ==> r.value == f
    ensures r == Failure(TooLarge) <==> f.size > MaxUploadBytes
    ensures r == Failure(UnsupportedType) <==> f.size <= MaxUploadBytes && !IsImageType(f.mimeType)
  {
    if f.size > MaxUploadBytes then Failure(TooLarge)
    else if !IsImageType(f.mimeType) then Failure(UnsupportedType)
    else Success(f)
  }

  /** The boundary of the size check: a file of exactly 5 MiB passes it, and
      one byte more does not, whatever its type. */
  lemma SizeBoundary(name: string, mimeType: string)
    ensures Validate(File(name, 5242880, mimeType)) != Failure(TooLarge)
    ensures Validate(File(name, 5242881, mimeType)) == Failure(TooLarge)
    ensures Validate(File(name, 5242880, "image/png")) == Success(File(name, 5242880, "image/png"))
  {
  }

  /** `dataUrl.split(',')[1]` taken as a truthy string: the text between the
      first and the second comma, absent when there is no comma or when that
      text is empty. */
  function Base64Payload(dataUrl: string): (r: Option<string>)
    ensures r.Some? ==> r.value != "" && ',' !in r.value && |r.value| < |dataUrl|
  {
    var parts := Split(dataUrl, ',');
    if |parts| >= 2 && parts[1] != "" then
      assert |Join(parts, ',')| > |parts[1]| by { JoinLongerThanSecond(parts, ','); }
      assert Join(parts, ',') == dataUrl by { SplitJoin(dataUrl, ','); }
      Some(parts[1])
    else None
  }

  lemma JoinLongerThanSecond(parts: seq<string>, sep: char)
    requires |parts| >= 2
    ensures |Join(parts, sep)| > |parts[1]|
  {
    if |parts| > 2 {
      var tail := parts[1..];
      assert |Join(tail, sep)| >= |tail[0]|;
    }
  }

  /** Any string that holds a comma splits uniquely as `a + "," + p + b` with
      no comma in `a` or `p` and `b` empty or starting at the next comma; the
      payload is then `p`, or nothing when `p` is empty. */
  lemma PayloadBetweenCommas(a: string, p: string, b: string)
    requires ',' !in a && ',' !in p
    requires b == "" || b[0] == ','
    ensures Base64Payload(a + "," + p + b) == (if p == "" then None else Some(p))
  {
    var s := a + "," + p + b;
    assert s == a + [','] + (p + b);
    SplitPeel(a, ',', p + b);
    var rest := Split(p + b, ',');
    assert Split(s, ',') == [a] + rest;
    SplitFirstPiece(p, ',', b);
  }

  /** Without any comma there is no payload and the submit fails. */
  lemma PayloadNeedsComma(s: string)
    requires ',' !in s
    ensures Base64Payload(s) == None
  {
    SplitNoSeparator(s, ',');
  }

  /** Round trip with the encoder: the payload of a base64 data URL is the
      base64 text it was built from. */
  lemma PayloadOfDataUrl(mimeType: string, data: string)
    requires ',' !in mimeType && ',' !in data && data != ""
    ensures Base64Payload("data:" + mimeType + ";base64," + data) == Some(data)
  {
    var a := "data:" + mimeType + ";base64";
    assert "data:" + mimeType + ";base64," + data == a + "," + data + "";
    PayloadBetweenCommas(a, data, "");
  }
}
