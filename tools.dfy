/** The `/tools` routes: the caller's address, Base64 conversion, and the
    argument checks in front of the QR-code and RSS libraries. */
module Tools {
  import opened Wrappers
  import opened JsString
  import opened Http
  import Utf8
  import Base64

  /** `s.split(',')[0]`: the text before the first comma, or all of `s`. */
  function BeforeComma(s: string): (r: string)
    ensures |r| <= |s| && r == s[..|r|]
    ensures ',' !in r
    ensures |r| < |s| ==> s[|r|] == ','
  {
    if s == [] || s[0] == ',' then [] else [s[0]] + BeforeComma(s[1..])
  }

  /** GET `/ip`: the first hop of the client address, trimmed; without any
      address the handler throws and the application answers 500. */
  function ClientIp(forwardedFor: Option<string>, remoteAddress: Option<string>): (r: Reply<string>)
    ensures ClientAddress(forwardedFor, remoteAddress).None? <==> r == Fail(500, "Server Error")
    ensures r.Ok? ==> ',' !in r.body
  {
    match ClientAddress(forwardedFor, remoteAddress)
    case None => Fail(500, "Server Error")
    case Some(address) =>
      var hop := BeforeComma(address);
      TrimKeepsOut(hop, ',');
      var ip := Trim(hop);
      Ok(ip)
  }

  /** Trimming adds no character: one missing from `s` is missing from `Trim(s)`. */
  lemma TrimKeepsOut(s: string, c: char)
    requires c !in s
    ensures c !in Trim(s)
  {
    TrimBounds(s);
  }

  /** Of a proxy chain `client, proxy1, ...` the answer is the client, trimmed,
      whatever the socket's own address is. */
  lemma ClientIpIsFirstHop(first: string, rest: string, remoteAddress: Option<string>)
    requires ',' !in first
    ensures ClientIp(Some(first + "," + rest), remoteAddress) == Ok(Trim(first))
  {
    var chain := first + "," + rest;
    assert chain[|first|] == ',';
    assert ClientAddress(Some(chain), remoteAddress) == Some(chain);
    BeforeCommaOfChain(first, rest);
    assert ClientIp(Some(chain), remoteAddress) == Ok(Trim(BeforeComma(chain)));
  }

  /** The text before the first comma of `first,rest` is `first`. */
  lemma {:induction false} BeforeCommaOfChain(first: string, rest: string)
    requires ',' !in first
    ensures BeforeComma(first + "," + rest) == first
  {
    if first != [] {
      assert (first + "," + rest)[1..] == first[1..] + "," + rest;
      BeforeCommaOfChain(first[1..], rest);
    }
  }

  /** A single address without a comma is the whole hop. */
  lemma {:induction false} BeforeCommaWithoutComma(s: string)
    requires ',' !in s
    ensures BeforeComma(s) == s
  {
    if s != [] {
      BeforeCommaWithoutComma(s[1..]);
    }
  }

  /** A client address without a comma, from the header or from the socket,
      is answered whole, trimmed. */
  lemma ClientIpSingleHop(forwardedFor: Option<string>, remoteAddress: Option<string>, address: string)
    requires ClientAddress(forwardedFor, remoteAddress) == Some(address) && ',' !in address
    ensures ClientIp(forwardedFor, remoteAddress) == Ok(Trim(address))
  {
    BeforeCommaWithoutComma(address);
  }

  /** A non-empty forwarded-for header with a single hop is answered trimmed,
      whatever the socket's address. */
  lemma ClientIpSingleForwardedHop(hop: string, remoteAddress: Option<string>)
    requires hop != "" && ',' !in hop
    ensures ClientIp(Some(hop), remoteAddress) == Ok(Trim(hop))
  {
    ClientIpSingleHop(Some(hop), remoteAddress, hop);
  }

  /** An absent or empty forwarded-for header falls back to the socket address. */
  lemma ClientIpFallsBack(forwardedFor: Option<string>, remoteAddress: string)
    requires !TruthyString(forwardedFor) && ',' !in remoteAddress
    ensures ClientIp(forwardedFor, Some(remoteAddress)) == Ok(Trim(remoteAddress))
  {
    ClientIpSingleHop(forwardedFor, Some(remoteAddress), remoteAddress);
  }

  const MissingTextOrAction := "Missing text or action"

  /** POST `/base64` with body fields `action` and `text`: 400 unless both are
      non-empty; `encode` gives the Base64 of the UTF-8 bytes of `text`, and
      every other action decodes `text` leniently and reads the bytes as UTF-8. */
  function ConvertBase64(action: Option<string>, text: Option<string>): (r: Reply<string>)
    ensures !TruthyString(text) || !TruthyString(action) <==> r == Fail(400, MissingTextOrAction)
    ensures r.Ok? && action == Some("encode") ==> r.body == Base64.Encode(Utf8.Encode(text.value))
    ensures r.Ok? && action != Some("encode") ==> r.body == Utf8.Decode(Base64.Decode(text.value))
  {
    if !TruthyString(text) || !TruthyString(action) then Fail(400, MissingTextOrAction)
    else if action.value == "encode" then Ok(Base64.Encode(Utf8.Encode(text.value)))
    else Ok(Utf8.Decode(Base64.Decode(text.value)))
  }

  /** Decoding what `encode` answered gives back the original text. */
  lemma Base64RoundTrip(text: string)
    requires text != ""
    ensures ConvertBase64(Some("encode"), Some(text)).Ok?
    ensures ConvertBase64(Some("decode"), Some(ConvertBase64(Some("encode"), Some(text)).body)) == Ok(text)
  {
    var bytes := Utf8.Encode(text);
    assert bytes == Utf8.EncodeChar(text[0]) + Utf8.Encode(text[1..]);
    var encoded := Base64.Encode(bytes);
    assert |encoded| >= 4;
    Base64.DecodeEncode(bytes);
    Utf8.DecodeEncode(text);
  }

  /** Any action other than exactly `encode` decodes, upper-case `ENCODE` included. */
  lemma OnlyExactEncodeEncodes(text: string)
    requires text != ""
    ensures ConvertBase64(Some("ENCODE"), Some(text)) == Ok(Utf8.Decode(Base64.Decode(text)))
  {
    assert "ENCODE" != "encode" by { assert "ENCODE"[0] != "encode"[0]; }
  }

  /** GET `/qr` with query `text`: 400 before the library is called when `text`
      is missing or empty; otherwise the data URL the renderer gives, or 500. */
  function QrCode(text: Option<string>, render: string -> Attempt<string>): (r: Reply<string>)
    ensures !TruthyString(text) <==> r == Fail(400, "Missing text")
    ensures TruthyString(text) && render(text.value).Threw? ==> r == Fail(500, "QR generation failed")
    ensures TruthyString(text) && render(text.value).Done? ==> r == Ok(render(text.value).value)
  {
    if !TruthyString(text) then Fail(400, "Missing text")
    else match render(text.value)
      case Threw(_) => Fail(500, "QR generation failed")
      case Done(dataUrl) => Ok(dataUrl)
  }

  /** GET `/rss` with query `url`: 400 before the parser is called when `url`
      is missing or empty; otherwise the parsed feed, or 500. */
  function RssFeed<F>(url: Option<string>, parseUrl: string -> Attempt<F>): (r: Reply<F>)
    ensures !TruthyString(url) <==> r == Fail(400, "Missing url")
    ensures TruthyString(url) && parseUrl(url.value).Threw? ==> r == Fail(500, "RSS parsing failed")
    ensures TruthyString(url) && parseUrl(url.value).Done? ==> r == Ok(parseUrl(url.value).value)
  {
    if !TruthyString(url) then Fail(400, "Missing url")
    else match parseUrl(url.value)
      case Threw(_) => Fail(500, "RSS parsing failed")
      case Done(feed) => Ok(feed)
  }

  /** The argument checks do not depend on the libraries: two renderers (or
      two parsers) give the same answer to a request without its argument. */
  lemma MissingArgumentIgnoresLibrary<F>(text: Option<string>, render1: string -> Attempt<string>,
                                         render2: string -> Attempt<string>,
                                         parse1: string -> Attempt<F>, parse2: string -> Attempt<F>)
    requires !TruthyString(text)
    ensures QrCode(text, render1) == QrCode(text, render2)
    ensures RssFeed(text, parse1) == RssFeed(text, parse2)
  {
  }
}
