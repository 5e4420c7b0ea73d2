/** The `/images` routes: format conversion and metadata of an uploaded image.
    Decoding and encoding are done by the imaging library, which the model
    takes as parameters. */
module Images {
  import opened Wrappers
  import opened JsString
  import opened Bytes
  import opened Http

  /** A decoded image: its size, the MIME type it was read as, and its pixels. */
  datatype Image = Image(width: nat, height: nat, mime: string, bitmap: seq<byte>)

  /** `req.body.format?.toLowerCase() || 'png'`: the lower-cased format, or
      `png` when the field is missing or empty. */
  function TargetFormat(format: Option<string>): (r: string)
    ensures r != ""
    ensures format.Some? && format.value != "" ==> r == ToLower(format.value)
    ensures format.None? || format.value == "" ==> r == "png"
  {
    if format.Some? && ToLower(format.value) != "" then ToLower(format.value) else "png"
  }

  /** The `switch` on the format: `jpg` and `jpeg` give JPEG, `bmp` gives BMP,
      every other format gives PNG. */
  function MimeOf(format: string): (r: string)
    ensures r == "image/jpeg" <==> format == "jpg" || format == "jpeg"
    ensures r == "image/bmp" <==> format == "bmp"
    ensures r == "image/png" <==> format !in {"jpg", "jpeg", "bmp"}
  {
    if format == "jpg" || format == "jpeg" then "image/jpeg"
    else if format == "bmp" then "image/bmp"
    else "image/png"
  }

  /** The MIME type a conversion request is answered in, by the requested
      format read without regard to case. */
  lemma MimeOfRequest(format: Option<string>)
    ensures var mime := MimeOf(TargetFormat(format));
      && (mime == "image/jpeg" <==> format.Some? && ToLower(format.value) in {"jpg", "jpeg"})
      && (mime == "image/bmp" <==> format.Some? && ToLower(format.value) == "bmp")
      && (mime == "image/png" <==> !(format.Some? && ToLower(format.value) in {"jpg", "jpeg", "bmp"}))
  {
    if format.Some? && format.value == "" {
      assert ToLower(format.value) == "";
    }
  }

  /** Upper-case formats are honoured. */
  lemma UpperCaseJpegIsJpeg()
    ensures MimeOf(TargetFormat(Some("JPEG"))) == "image/jpeg"
  {
    assert ToLower("JPEG") == "jpeg";
  }

  /** An unknown format falls back to PNG rather than failing. */
  lemma UnknownFormatIsPng()
    ensures MimeOf(TargetFormat(Some("gif"))) == "image/png"
  {
    assert ToLower("gif") == "gif";
    assert "gif"[0] != "jpg"[0] && "gif"[0] != "jpeg"[0] && "gif"[0] != "bmp"[0];
  }

  /** The answer to a conversion: the encoded image with its Content-Type, or a
      JSON error with its status and, for a library failure, the thrown message. */
  datatype Conversion = Sent(contentType: string, data: seq<byte>)
                      | Failed(status: nat, error: string, details: Option<string>)

  /** POST `/convert` with the uploaded `image` file and the `format` field;
      `read` is the library's decoder and `encode` its encoder for a MIME type. */
  function Convert(file: Option<seq<byte>>, format: Option<string>,
                   read: seq<byte> -> Attempt<Image>, encode: (Image, string) -> Attempt<seq<byte>>)
    : (r: Conversion)
    ensures file.None? <==> r == Failed(400, "No image", None)
    ensures file.Some? && read(file.value).Threw? ==>
              r == Failed(500, "Conversion failed", Some(read(file.value).message))
    ensures file.Some? && read(file.value).Done? ==>
              var mime := MimeOf(TargetFormat(format));
              match encode(read(file.value).value, mime)
              case Threw(message) => r == Failed(500, "Conversion failed", Some(message))
              case Done(data) => r == Sent(mime, data)
  {
    if file.None? then Failed(400, "No image", None)
    else
      var mime := MimeOf(TargetFormat(format));
      match read(file.value)
      case Threw(message) => Failed(500, "Conversion failed", Some(message))
      case Done(image) =>
        match encode(image, mime)
        case Threw(message) => Failed(500, "Conversion failed", Some(message))
        case Done(data) => Sent(mime, data)
  }

  /** A successful conversion is sent in one of the three supported types, and
      the Content-Type is the type the encoder was asked for. */
  lemma ConvertedType(file: Option<seq<byte>>, format: Option<string>,
                      read: seq<byte> -> Attempt<Image>, encode: (Image, string) -> Attempt<seq<byte>>)
    requires Convert(file, format, read, encode).Sent?
    ensures var r := Convert(file, format, read, encode);
      && r.contentType in {"image/jpeg", "image/bmp", "image/png"}
      && file.Some? && read(file.value).Done?
      && encode(read(file.value).value, r.contentType) == Done(r.data)
  {
  }

  /** The metadata answer: the library's reading of the image's size and type. */
  datatype Metadata = Metadata(width: nat, height: nat, mime: string)

  /** POST `/metadata` with the uploaded `image` file. */
  function ReadMetadata(file: Option<seq<byte>>, read: seq<byte> -> Attempt<Image>): (r: Reply<Metadata>)
    ensures file.None? <==> r == Fail(400, "No image")
    ensures file.Some? && read(file.value).Threw? ==> r == Fail(500, "Metadata read failed")
    ensures file.Some? && read(file.value).Done? ==>
              var image := read(file.value).value;
              r == Ok(Metadata(image.width, image.height, image.mime))
  {
    if file.None? then Fail(400, "No image")
    else match read(file.value)
      case Threw(_) => Fail(500, "Metadata read failed")
      case Done(image) => Ok(Metadata(image.width, image.height, image.mime))
  }

  /** Without a file neither route calls the library: the answer is the same
      for every decoder and encoder. */
  lemma NoFileIgnoresLibrary(format: Option<string>,
                             read1: seq<byte> -> Attempt<Image>, read2: seq<byte> -> Attempt<Image>,
                             encode1: (Image, string) -> Attempt<seq<byte>>,
                             encode2: (Image, string) -> Attempt<seq<byte>>)
    ensures Convert(None, format, read1, encode1) == Convert(None, format, read2, encode2)
    ensures ReadMetadata(None, read1) == ReadMetadata(None, read2)
  {
  }
}
