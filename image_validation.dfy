/** The upload checks of `ImageProcessingService`: a guard chain over the uploaded file whose
    first failing check names the error, the file-signature test on the first twelve bytes of
    the upload, and the dimension bounds for a medicine photo. */
module ImageValidation {
  import opened Wrappers
  import opened Strings

  newtype uint8 = x: int | 0 <= x < 256

  /** The largest accepted upload, ten mebibytes. */
  const MaxFileSize: nat := 10 * 1024 * 1024

  /** The length of the header buffer the signature test reads into. */
  const HeaderLength: nat := 12

  const JpegMagic: seq<uint8> := [0xFF, 0xD8, 0xFF]
  /** The eight-byte signature of section 5.2 of the PNG specification (W3C). */
  const PngMagic: seq<uint8> := [0x89, 0x50, 0x4E, 0x47, 0x0D, 0x0A, 0x1A, 0x0A]
  const Gif87Magic: seq<uint8> := [0x47, 0x49, 0x46, 0x38, 0x37, 0x61]
  const Gif89Magic: seq<uint8> := [0x47, 0x49, 0x46, 0x38, 0x39, 0x61]
  /** `RIFF`, which a WebP file must follow with `WEBP` at bytes 8 to 11. */
  const RiffMagic: seq<uint8> := [0x52, 0x49, 0x46, 0x46]
  const WebpTag: seq<uint8> := [0x57, 0x45, 0x42, 0x50]
  const BmpMagic: seq<uint8> := [0x42, 0x4D]

  const AllowedContentTypes: set<string> := {"image/jpeg", "image/png", "image/gif", "image/webp", "image/bmp"}

  const EmptyMessage := "Image file is empty or null"
  const TooLargeMessage := "Image file too large. Maximum size is 10MB"
  const BadTypeMessage := "Invalid image type. Allowed types: JPEG, PNG, GIF, WebP, BMP"
  const BadSignatureMessage := "Invalid image file - file signature does not match content type"

  /** An uploaded file: its bytes (its size is their number) and its declared content type,
      absent as `None`. */
  datatype Upload = Upload(content: seq<uint8>, contentType: Option<string>)

  predicate HasPrefix(data: seq<uint8>, prefix: seq<uint8>)
  {
    |prefix| <= |data| && data[..|prefix|] == prefix
  }

  /** `startsWith(data, prefix)`: the data is at least as long as the prefix and agrees with it
      at every position of the prefix. */
  method StartsWith(data: array<uint8>, prefix: seq<uint8>) returns (r: bool)
    ensures r <==> HasPrefix(data[..], prefix)
  {
    if data.Length < |prefix| {
      return false;
    }
    for i := 0 to |prefix|
      invariant data[..i] == prefix[..i]
    {
      if data[i] != prefix[i] {
        assert data[..][..|prefix|][i] != prefix[i];
        return false;
      }
    }
    assert data[..][..|prefix|] == data[..|prefix|];
    return true;
  }

  /** `InputStream.read(buffer)` on a stream over the upload: the first bytes of the upload,
      as many as the buffer holds, go to the front of the buffer; the count, or -1 for an empty
      upload. */
  method Read(buffer: array<uint8>, content: seq<uint8>) returns (n: int)
    modifies buffer
    ensures n == (if |content| == 0 then -1 else Min(buffer.Length, |content|))
    ensures buffer[..] == content[..Min(buffer.Length, |content|)] + old(buffer[Min(buffer.Length, |content|)..])
  {
    var k := Min(buffer.Length, |content|);
    forall i | 0 <= i < k {
      buffer[i] := content[i];
    }
    assert buffer[..] == content[..k] + old(buffer[k..]);
    n := if |content| == 0 then -1 else k;
  }

  function Min(a: int, b: int): int
  {
    if a <= b then a else b
  }

  /** The header buffer after the read: the first twelve bytes of the upload, padded with the
      zeros the buffer was created with. */
  function Header(content: seq<uint8>): (h: seq<uint8>)
    ensures |h| == HeaderLength
    ensures forall i :: 0 <= i < HeaderLength ==> h[i] == (if i < |content| then content[i] else 0)
  {
    content[..Min(HeaderLength, |content|)] + seq(HeaderLength - Min(HeaderLength, |content|), _ => 0)
  }

  /** The signature comparisons on the header, in the order they are made. */
  predicate Recognised(h: seq<uint8>)
  {
    HasPrefix(h, JpegMagic) || HasPrefix(h, PngMagic) ||
    HasPrefix(h, Gif87Magic) || HasPrefix(h, Gif89Magic) ||
    (HasPrefix(h, RiffMagic) && |h| >= 12 && h[8..12] == WebpTag) ||
    HasPrefix(h, BmpMagic)
  }

  /** What `isValidImageMagicBytes` answers for an upload: at least two bytes were read and
      the padded header carries a recognised signature. */
  predicate SignatureValid(content: seq<uint8>)
  {
    |content| >= 2 && Recognised(Header(content))
  }

  /** `isValidImageMagicBytes`: a zeroed twelve-byte header is filled from the upload; fewer
      than two bytes read is a failure; then the JPEG, PNG, GIF, WebP and BMP signatures are
      tried. */
  method IsValidImageMagicBytes(content: seq<uint8>) returns (r: bool)
    ensures r == SignatureValid(content)
  {
    var header := new uint8[HeaderLength];
    forall i | 0 <= i < header.Length {
      header[i] := 0;
    }
    var bytesRead := Read(header, content);
    assert header[..] == Header(content);
    if bytesRead < 2 {
      return false;
    }
    var jpeg := StartsWith(header, JpegMagic);
    if jpeg {
      return true;
    }
    var png := StartsWith(header, PngMagic);
    if png {
      return true;
    }
    var gif87 := StartsWith(header, Gif87Magic);
    var gif89 := StartsWith(header, Gif89Magic);
    if gif87 || gif89 {
      return true;
    }
    var riff := StartsWith(header, RiffMagic);
    if riff && header.Length >= 12 {
      if header[8] == 0x57 && header[9] == 0x45 && header[10] == 0x42 && header[11] == 0x50 {
        assert header[..][8..12] == WebpTag;
        return true;
      }
      assert header[..][8..12] == [header[8], header[9], header[10], header[11]];
    }
    var bmp := StartsWith(header, BmpMagic);
    return bmp;
  }

  /** The same test stated on the upload itself, with no buffer: one of the signatures lies
      wholly within the upload. */
  predicate RecognisedContent(c: seq<uint8>)
  {
    HasPrefix(c, JpegMagic) || HasPrefix(c, PngMagic) ||
    HasPrefix(c, Gif87Magic) || HasPrefix(c, Gif89Magic) ||
    (HasPrefix(c, RiffMagic) && |c| >= 12 && c[8..12] == WebpTag) ||
    HasPrefix(c, BmpMagic)
  }

  /** Padding a short upload with zeros never completes a signature, because no signature
      holds a zero byte: the header carries a signature exactly when the upload does. */
  lemma {:induction false} PaddedPrefix(c: seq<uint8>, sig: seq<uint8>)
    requires 0 < |sig| <= HeaderLength && forall i :: 0 <= i < |sig| ==> sig[i] != 0
    ensures HasPrefix(Header(c), sig) <==> HasPrefix(c, sig)
  {
    var h := Header(c);
    if |c| < |sig| {
      assert h[..|sig|][|c|] == 0 != sig[|c|];
    } else {
      assert c[..|sig|] == h[..|sig|];
    }
  }

  /** The buffered test and the reference definition agree on every upload. */
  lemma SignatureValidIsRecognisedContent(c: seq<uint8>)
    ensures SignatureValid(c) <==> RecognisedContent(c)
  {
    var h := Header(c);
    PaddedPrefix(c, JpegMagic);
    PaddedPrefix(c, PngMagic);
    PaddedPrefix(c, Gif87Magic);
    PaddedPrefix(c, Gif89Magic);
    PaddedPrefix(c, RiffMagic);
    PaddedPrefix(c, BmpMagic);
    if |c| >= 12 {
      assert h[8..12] == c[8..12];
    } else {
      assert h[11] == 0;
      assert h[8..12] != WebpTag;
    }
  }

  /** A signature alone decides, so a two-byte upload starting `BM` passes and a JPEG start
      cut to two bytes does not. */
  lemma ShortUploads()
    ensures SignatureValid([0x42, 0x4D])
    ensures !SignatureValid([0xFF, 0xD8])
    ensures !SignatureValid([0x42])
  {
    var cut: seq<uint8> := [0xFF, 0xD8];
    SignatureValidIsRecognisedContent(cut);
    assert cut[..2] == cut && cut[0] != BmpMagic[0];
  }

  /** The first failing check of `validateImage`, in its order: a missing or empty file,
      the size cap, the content type (lower-cased, and a missing one fails), the signature. */
  function Rejection(file: Option<Upload>): (m: Option<string>)
    ensures file.None? || |file.value.content| == 0 ==> m == Some(EmptyMessage)
    ensures file.Some? && |file.value.content| > MaxFileSize ==> m == Some(TooLargeMessage)
    ensures m.None? <==>
              file.Some? && 0 < |file.value.content| <= MaxFileSize &&
              file.value.contentType.Some? && ToLower(file.value.contentType.value) in AllowedContentTypes &&
              RecognisedContent(file.value.content)
  {
    SignatureValidIsRecognisedContent(if file.Some? then file.value.content else []);
    if file.None? || |file.value.content| == 0 then Some(EmptyMessage)
    else if |file.value.content| > MaxFileSize then Some(TooLargeMessage)
    else if file.value.contentType.None? || ToLower(file.value.contentType.value) !in AllowedContentTypes then Some(BadTypeMessage)
    else if !SignatureValid(file.value.content) then Some(BadSignatureMessage)
    else None
  }

  /** `validateImage(file)`: succeeds when every check passes, and otherwise fails with the
      `IOException` message of the first check that does not. */
  method ValidateImage(file: Option<Upload>) returns (r: Result<(), string>)
    ensures r.Ok? <==> Rejection(file).None?
    ensures r.Err? ==> r.error == Rejection(file).value
  {
    if file.None? || |file.value.content| == 0 {
      return Err(EmptyMessage);
    }
    if |file.value.content| > MaxFileSize {
      return Err(TooLargeMessage);
    }
    var contentType := file.value.contentType;
    if contentType.None? || ToLower(contentType.value) !in AllowedContentTypes {
      return Err(BadTypeMessage);
    }
    var valid := IsValidImageMagicBytes(file.value.content);
    if !valid {
      return Err(BadSignatureMessage);
    }
    return Ok(());
  }

  /** An upload of exactly ten mebibytes is not refused for its size; one byte more is. */
  lemma SizeCapIsInclusive(c: seq<uint8>, contentType: Option<string>)
    requires |c| == MaxFileSize
    ensures Rejection(Some(Upload(c, contentType))) != Some(TooLargeMessage)
    ensures Rejection(Some(Upload(c + [0], contentType))) == Some(TooLargeMessage)
  {
  }

  /** The declared content type is compared without regard to case and is not checked
      against the signature: a BMP upload declared as `IMAGE/PNG` passes. */
  lemma TypeNotCrossChecked()
    ensures Rejection(Some(Upload([0x42, 0x4D], Some("IMAGE/PNG")))) == None
  {
    assert ToLower("IMAGE/PNG") == "image/png";
  }

  /** `isValidMedicineImage` on the decoded image's size, `None` when the upload does not
      decode: both sides between 100 and 5000 pixels, bounds included. */
  function IsValidMedicineImage(size: Option<(int, int)>): (ok: bool)
    ensures ok <==> size.Some? && 100 <= size.value.0 <= 5000 && 100 <= size.value.1 <= 5000
  {
    match size
    case None => false
    case Some((width, height)) =>
      var minDimension := 100;
      var maxDimension := 5000;
      if width < minDimension || height < minDimension then false
      else if width > maxDimension || height > maxDimension then false
      else true
  }
}
