# ghp-tools core, modelled in Dafny

ghp-tools is a small Express API: GitHub helpers, text and image tools, a
comment board and a GitHub-only fetch proxy. This project models its core:

- **The in-memory key-value store** of `src/lib/db.js` (module `Store`). This is the
  JavaScript `Map` used when no Redis configuration is present. It offers
  `get`, `set` with `nx` and `ex`, `incr`, and `keys` with a `*` pattern
  (module `Glob`). `Store.State` is the store as a value: the Map's insertion
  order, its entries, and the deletion timers `set ... { ex }` has scheduled.
  Functions over `State` specify each operation. The class `Store.MemoryStore`
  is the object the routes call. Each of its methods is proved to change its
  fields exactly as the matching function does.
- **The comment board** of `src/routes/comments.js` (module `Comments`). GET
  reads a page's list. POST runs these checks in order:
  1. the length checks, counted in UTF-16 units as JavaScript does;
  2. the per-address rate limit;
  3. the write of the new comment at the head of a list capped at 50;
  4. a 60-second rate-limit flag;
  5. two usage counters.

  `Comments.Post` is the transition on `State`. `Comments.PostComment` runs
  the same steps against a `MemoryStore`.
- **The fetch proxy** of `src/routes/fetch.js` (module `Fetch`):
  1. the ordered URL checks, with their four 400 errors;
  2. the `github.com`-or-subdomain host rule;
  3. the header filter over the inbound headers (hop-by-hop names and
     undefined values dropped);
  4. the `user-agent` default;
  5. the copy of eight response headers;
  6. the 502 on a transport failure.
- **The tools** of `src/routes/tools.js` (module `Tools`): `/ip` (the first
  hop of `x-forwarded-for`, or the socket address); `/base64` (UTF-8 to
  base64 and back, in modules `Utf8` and `Base64`); and the argument checks
  in front of the QR-code and RSS libraries.
- **The image routes** of `src/routes/images.js` (module `Images`): the
  format to MIME-type decision, and the error answers of `/convert` and
  `/metadata`.

JavaScript semantics that the routes depend on are written out (module
`JsString`, and `Values.Truthy`):

- truthiness of `''`, `0` and `undefined`;
- the ECMAScript whitespace that `trim` removes;
- `length` in UTF-16 code units;
- the fact that `.` in a regular expression does not match line terminators.

Some parts come from outside the code, and the model takes them as parameters:

- the libraries: markdown, HTML sanitising, URL parsing, the outbound HTTP
  request, QR rendering, RSS parsing, and image decoding and encoding;
- the random comment id and the clock.

A library that throws is a `Http.Attempt` with `Threw`. Every JSON error
answer is a `Http.Reply` with `Fail(status, error)`.

**Notes on the code as written:**

- The proxy's header filter (`src/routes/fetch.js:78-87`) drops only the 11
  hop-by-hop names and headers with an undefined value. `cookie`, and any
  header with a custom prefix, is forwarded unchanged (`Fetch.ForwardedExact`).
- The comments and fetch routers are modelled as written. `app.js:24-27`
  mounts only the github, tools, system and images routers.

## Model

| member | source | states |
|---|---|---|
| Store.Lookup | src/lib/db.js:13 | `storage.get`: a value exactly when the key is stored, and then the stored value |
| Store.Assign | src/lib/db.js:14-22 | `set` answers `null` exactly when `nx` is set and the key is present, and then changes nothing. Otherwise: the key holds the new value; every other key is unchanged; a new key goes to the end of the insertion order while an existing key keeps its place; `ex` schedules exactly one deletion of the key. The insertion order stays a duplicate-free list of the keys. |
| Store.Increment | src/lib/db.js:23-28 | `incr` stores and returns the old count plus 1 (1 for an absent key); no other key and no timer changes; the insertion order stays well formed |
| Store.IncrementTimes | src/lib/db.js:23-28 | n successive `incr` calls give n values and leave every other key unchanged |
| Store.IncrementTimesCounts | src/lib/db.js:23-28 | n successive `incr` calls return count+1, ..., count+n; the key ends at count+n; no other key changes |
| Store.Filter | src/lib/db.js:29-32 | the keys `keys` returns: exactly the listed keys the pattern matches, in their listed order, each once |
| Store.Remove | src/lib/db.js:19 | `Map.delete` removes the key from the insertion order and keeps the order duplicate-free |
| Store.Expire | src/lib/db.js:18-20 | when the timer runs, its key is gone whatever it then holds; other keys and the other timers stay; the store stays well formed |
| Store.ExpiryIgnoresRewrite | src/lib/db.js:14-20 | a key written with `ex` and then rewritten without `ex` is still deleted when the first timer runs |
| Store.MemoryStore.constructor | src/lib/db.js:10 | the store starts empty with no timer pending |
| Store.MemoryStore.Get | src/lib/db.js:13 | `get` gives the stored value, or `undefined` exactly when the key is absent |
| Store.MemoryStore.Set | src/lib/db.js:14-22 | the object's new state and reply are those of `Store.Assign` on its old state |
| Store.MemoryStore.Incr | src/lib/db.js:23-28 | the object's new state and result are those of `Store.Increment` on its old state |
| Store.MemoryStore.Keys | src/lib/db.js:29-32 | `keys` lists exactly the stored keys the pattern matches, each once, in insertion order |
| Store.MemoryStore.FireTimer | src/lib/db.js:19 | running a pending timer moves the object to `Store.Expire` of its old state |
| Glob.Matches | src/lib/db.js:30 | the anchored match of the built regular expression; a pattern without `*` matches exactly itself, because the expression is anchored at both ends |
| Glob.StarMatch | src/lib/db.js:30 | the pattern `*` matches exactly the keys without a line terminator |
| Glob.PrefixMatch | src/lib/db.js:30 | `prefix*` matches exactly the keys that start with the prefix and continue without a line terminator |
| Http.ClientAddress | src/routes/tools.js:15 | `x-forwarded-for` when it is present and non-empty, otherwise the socket address |
| JsString.TrimStart | src/routes/comments.js:46 | removes exactly the longest leading run of ECMAScript whitespace |
| JsString.TrimEnd | src/routes/comments.js:46 | removes exactly the longest trailing run of ECMAScript whitespace |
| JsString.Trim | src/routes/comments.js:46 | the result neither starts nor ends with whitespace, and is no longer than the input |
| JsString.TrimIsInfix | src/routes/comments.js:46 | the result is a contiguous part of the input with only whitespace before and after it; with the ends stated by `Trim`, this fixes the result |
| JsString.TrimPlain | src/routes/comments.js:46 | a text without whitespace is its own trim |
| JsString.TrimBlank | src/routes/comments.js:46 | a text of whitespace only trims to the empty text |
| JsString.ToLower | src/routes/fetch.js:32 | each character is lowercased in place; the length is kept |
| JsString.Utf16Length | src/routes/comments.js:50 | JavaScript's `length` is between the number of scalar values and twice that, and equals it for text in the Basic Multilingual Plane |
| Comments.ReplaceColons | src/routes/comments.js:56 | every `:` of the address becomes `_`, and the length is kept |
| Comments.RateLimitKey | src/routes/comments.js:56 | the key is `ratelimit:comment:` followed by the address, position by position, with each `:` replaced by `_` |
| Comments.RateLimitKeyShape | src/routes/comments.js:56 | the rate-limit key is `ratelimit:comment:` followed by the address with no colon left; it is never a list key or a usage counter |
| Comments.ListKeyIsNotCounter | src/routes/comments.js:74-84 | a page's list key is never a usage counter key |
| Comments.CheckContent | src/routes/comments.js:46-52 | "too short" exactly when the content is missing or its trimmed UTF-16 length is below 2. Otherwise "too long" exactly when its untrimmed length exceeds 500. Content that passes has 1 to 500 characters. |
| Comments.StoredList | src/routes/comments.js:74-75 | `|| []` gives the stored list, or the empty list when the key is absent or its value is falsy; a truthy value that is not a list makes `unshift` throw (the 500 exit) |
| Comments.NewComment | src/routes/comments.js:43-71 | the comment carries the random id, the timestamp, the sanitised markdown of the content, and the sanitised author, `Anonymous` when omitted |
| Comments.CapPrepend | src/routes/comments.js:74-77 | after `unshift` and `slice(0, 50)`, the new comment is first and is followed by the old list's first entries; the length is min(old+1, 50) |
| Comments.Post | src/routes/comments.js:41-91 | every error answer leaves the store exactly as it was |
| Comments.PostRejects | src/routes/comments.js:46-60 | a failed length check gives its 400 before any store access; a truthy rate-limit flag gives 429 before any write |
| Comments.PostSucceeds | src/routes/comments.js:62-86 | a successful post answers with the built comment, whose author defaults to `Anonymous`. The store then holds the capped list with that comment first, and `'1'` under the rate-limit key with one 60-second timer. Each usage counter has grown by exactly 1, and no other key has changed. |
| Comments.PostKeepsListsCapped | src/routes/comments.js:73-78 | if no comment list is longer than 50 before a post, none is after it |
| Comments.SecondPostIsLimited | src/routes/comments.js:55-60 | after a successful post, another valid post from the same address, to any page, gets 429 and changes nothing |
| Comments.LimitLiftsAfterExpiry | src/routes/comments.js:81 | running the timer scheduled by a successful post removes that address's rate-limit flag |
| Comments.ListComments | src/routes/comments.js:25-33 | GET answers the stored value, or `[]` when the key is absent or its value is falsy |
| Comments.PostComment | src/routes/comments.js:41-91 | run against the store object, POST ends in the store and the answer `Comments.Post` gives for the client address |
| Comments.Saved | src/routes/comments.js:78-84 | the four writes of a successful post keep the store well formed: its insertion order lists each key once |
| Comments.Save | src/routes/comments.js:78-84 | the four writes of a successful post, in order, leave the store object in the state `Comments.Saved` computes |
| Comments.SavedEffect | src/routes/comments.js:78-84 | those writes give the list key the new list and the rate-limit key `'1'` with a 60 s timer; each counter grows by 1; nothing else changes |
| Fetch.GithubHostIsDomainOrSubdomain | src/routes/fetch.js:31-34 | `Fetch.IsAllowedGithubHost`: a host is allowed exactly when its lowercased form ends in `github.com` at a label boundary (the whole host or after a dot) |
| Fetch.SubdomainAccepted | src/routes/fetch.js:31-34 | `api.github.com` is allowed |
| Fetch.UpperCaseHostAccepted | src/routes/fetch.js:31-34 | `GitHub.com` is allowed (case-insensitive) |
| Fetch.LookalikeRefused | src/routes/fetch.js:31-34 | `evilgithub.com` is refused |
| Fetch.PrefixHostRefused | src/routes/fetch.js:31-34 | `github.com.evil.io` is refused |
| Fetch.ValidateUrl | src/routes/fetch.js:58-76 | each of the four 400 errors happens exactly when its check is the first to fail (missing url, unparsable, protocol not http(s), host not allowed); an accepted URL passed all four |
| Fetch.FtpIsRefused | src/routes/fetch.js:70-72 | an `ftp:` URL is refused for its protocol, whatever its host |
| Fetch.Forwarded | src/routes/fetch.js:78-87 | the `reduce` never forwards a header whose lowercased name is hop-by-hop |
| Fetch.ForwardedExact | src/routes/fetch.js:78-87 | a header is forwarded exactly when its value is defined and its lowercased name is not hop-by-hop; it keeps its name and value |
| Fetch.WithUserAgent | src/routes/fetch.js:89-91 | a truthy `user-agent` is kept; otherwise it becomes `Mozilla/5.0`; no other header changes |
| Fetch.ForwardHeaders | src/routes/fetch.js:78-87 | the header object built entry by entry is the filter `Fetch.Forwarded` of the inbound entries |
| Fetch.PassedThrough | src/routes/fetch.js:20-29 | the copied headers are exactly the passthrough names the upstream defines, with their upstream values |
| Fetch.CopyResponseHeaders | src/routes/fetch.js:102-107 | the response gets exactly the passthrough headers the upstream defines, with their upstream values |
| Fetch.HandleFetch | src/routes/fetch.js:57-113 | a refused URL gets its 400 and no request is sent. Otherwise the request goes to the parsed URL with the filtered headers and the user-agent default. An upstream answer of any status is handed to `res.send` with its status, its body and the passthrough headers. A transport failure gives 502. |
| Tools.BeforeComma | src/routes/tools.js:16 | `split(',')[0]` is the longest comma-free prefix |
| Tools.ClientIp | src/routes/tools.js:14-17 | 500 exactly when there is no client address, because `split` then throws (`app.js:50-53`); an answered address contains no comma |
| Tools.ClientIpIsFirstHop | src/routes/tools.js:16 | for `client,proxies...` the answer is the trimmed client, whatever the socket address |
| Tools.BeforeCommaOfChain | src/routes/tools.js:16 | the text before the first comma of `first,rest` is `first` |
| Tools.BeforeCommaWithoutComma | src/routes/tools.js:16 | an address without a comma is a single hop |
| Tools.ClientIpSingleHop | src/routes/tools.js:15-16 | a client address without a comma, from the header or the socket, is answered whole, trimmed |
| Tools.ClientIpSingleForwardedHop | src/routes/tools.js:15-16 | a non-empty `x-forwarded-for` with a single hop is answered trimmed, whatever the socket address |
| Tools.ClientIpFallsBack | src/routes/tools.js:15-16 | without a non-empty `x-forwarded-for`, the trimmed socket address is answered |
| Tools.ConvertBase64 | src/routes/tools.js:59-66 | 400 exactly when `text` or `action` is missing or empty. Otherwise `encode` gives the base64 of the UTF-8 bytes, and every other action decodes. |
| Tools.Base64RoundTrip | src/routes/tools.js:63-65 | decoding the answer of `encode` gives back the original text |
| Tools.OnlyExactEncodeEncodes | src/routes/tools.js:63 | `ENCODE` is not `encode`: it decodes |
| Tools.QrCode | src/routes/tools.js:25-34 | 400 exactly when `text` is missing or empty. Otherwise the rendered data URL, or 500 when the renderer throws. |
| Tools.RssFeed | src/routes/tools.js:42-51 | 400 exactly when `url` is missing or empty. Otherwise the parsed feed, or 500 when the parser throws. |
| Tools.MissingArgumentIgnoresLibrary | src/routes/tools.js:28-45 | without its argument, the answer of `/qr` and of `/rss` does not depend on the library |
| Base64.ValueOfLetter | src/routes/tools.js:64-65 | every letter of the RFC 4648 section 4 alphabet decodes to its value and is not `=` |
| Base64.Encode | src/routes/tools.js:64 | n bytes become 4 * ceil(n / 3) characters |
| Base64.Decode | src/routes/tools.js:65 | the lenient decoder gives at most 3 bytes for every 4 characters |
| Base64.SextetsOfLetters | src/routes/tools.js:65 | the decoder reads encoded letters back as their values |
| Base64.SextetsOfPadding | src/routes/tools.js:65 | decoding stops at `=` |
| Base64.Group | src/routes/tools.js:64 | 3 bytes become 4 six-bit values |
| Base64.GroupRoundTrip | src/routes/tools.js:64-65 | the 4 values of a 3-byte group reassemble into those bytes |
| Base64.DecodeEncodeOne | src/routes/tools.js:64-65 | one byte (`xx==`) round-trips |
| Base64.DecodeEncodeTwo | src/routes/tools.js:64-65 | two bytes (`xxx=`) round-trip |
| Base64.GroupBytes | src/routes/tools.js:64-65 | the first group's values give back the first three bytes |
| Base64.DecodeEncodeGroup | src/routes/tools.js:64-65 | decoding the encoding of 3 or more bytes gives the first group followed by the round trip of the rest |
| Base64.DecodeEncode | src/routes/tools.js:64-65 | decoding the encoding of any bytes gives back those bytes |
| Utf8.Encode | src/routes/tools.js:64 | a text of n scalar values takes between n and 4n bytes |
| Utf8.EncodeChar | src/routes/tools.js:64 | a scalar value takes 1 to 4 bytes |
| Utf8.DecodeStep | src/routes/tools.js:65 | each decoder step consumes at least one byte and no more than there are |
| Utf8.Decode | src/routes/tools.js:65 | the decoder gives at most one character per byte, and at least one for a non-empty input |
| Utf8.DecodeStepEncodeChar | src/routes/tools.js:64-65 | the decoder reads an encoded scalar value back as itself, whatever follows |
| Utf8.DecodeTwo | src/routes/tools.js:64-65 | two-byte sequences read back |
| Utf8.DecodeThree | src/routes/tools.js:64-65 | three-byte sequences read back |
| Utf8.DecodeFour | src/routes/tools.js:64-65 | four-byte sequences read back |
| Utf8.DecodeEncode | src/routes/tools.js:64-65 | decoding the UTF-8 of any text gives back the text |
| Images.TargetFormat | src/routes/images.js:18 | the format is never empty: it is the lowercased field, or `png` when the field is missing or empty |
| Images.MimeOf | src/routes/images.js:21-27 | the `switch`: JPEG exactly for `jpg` or `jpeg`, BMP exactly for `bmp`, PNG for every other format |
| Images.MimeOfRequest | src/routes/images.js:18-27 | JPEG exactly for `jpg` or `jpeg` (any case); BMP exactly for `bmp`; PNG for everything else, missing format included |
| Images.UpperCaseJpegIsJpeg | src/routes/images.js:18-24 | `JPEG` gives `image/jpeg` |
| Images.UnknownFormatIsPng | src/routes/images.js:22-27 | `gif` falls back to `image/png` |
| Images.Convert | src/routes/images.js:14-34 | 400 `No image` exactly when there is no file. A decode or encode failure gives 500 with the thrown message. Otherwise the encoded image is sent with the chosen MIME type as its Content-Type. |
| Images.ConvertedType | src/routes/images.js:21-30 | a sent image's Content-Type is one of the three types, and it is the type the encoder was asked for |
| Images.ReadMetadata | src/routes/images.js:42-54 | 400 exactly when there is no file; 500 when decoding fails; otherwise the decoded width, height and MIME type |
| Images.NoFileIgnoresLibrary | src/routes/images.js:14-45 | without a file, neither route's answer depends on the image library |

## Left out

- The Redis branch of `src/lib/db.js:34-46`: it is a network client, and its
  behaviour is the server's.
- Store.MemoryStore.FireTimer: `setTimeout` deletions are an explicit step.
  Any pending timer may run, not only the earliest by time, and the clock is
  not modelled.
- Store.Increment: `incr` is modelled only on absent keys and integer values.
  JavaScript's `+ 1` on a stored string concatenates; that coercion is not
  modelled. Integers are unbounded, so double-precision rounding above 2^53 is
  not modelled either.
- Store.MemoryStore.Incr: the same restriction as `Store.Increment`.
- Store.MemoryStore.Keys: the pattern may not contain regular-expression
  operators other than `*`. With such characters, the code builds a different
  regular expression.
- JsString.ToLower: only ASCII letters are lowercased. The three uses in the
  model are not affected:
  - `Images.MimeOfRequest` compares with `jpg`, `jpeg` and `bmp`, and no
    non-ASCII character lowercases to those letters;
  - `Fetch.IsAllowedGithubHost` receives a hostname the URL parser has
    already lowercased and punycode-encoded;
  - `Fetch.Forwarded` lowercases header names, which Node only accepts as
    ASCII tokens.
- Comments.Post: `author` and `content` are strings or absent. Non-string JSON
  values, which would reach `trim` or the sanitiser, are not modelled.
- Tools.ConvertBase64: `text` and `action` are strings or absent. The
  `Conversion failed` 400 answer of `src/routes/tools.js:67-69`, which only a
  non-string `text` can cause, is not modelled.
- Fetch.ValidateUrl: `url` is a string or absent; a repeated query parameter
  (an array) is not modelled.
- Images.TargetFormat: `format` is a string or absent; a non-string value,
  whose `toLowerCase` would throw, is not modelled.
- The markdown renderer, the HTML sanitiser, `Math.random` and the clock are
  parameters (`Comments.Collaborators`). Their outputs are opaque strings.
- Comments.ListComments: a store that throws (`Failed to fetch comments`) is
  not modelled, because the in-memory store never throws.
- Concurrent requests: each handler runs as one atomic transition.
  Interleavings at the `await`s of `src/routes/comments.js:57-84` are not
  modelled.
- Fetch.HandleFetch: the URL parser and the outbound request are
  parameters. The axios timeout of 10 s and its limit of 5 redirects show
  only as `TransportFailure`.
- Express details are not modelled: the charset Express appends to
  `Content-Type`, the headers added by the helmet and cors middleware, and
  how Express combines multi-valued headers.
- Fetch.HandleFetch: what `res.send` of a `Buffer` (`src/routes/fetch.js:109`)
  adds is not modelled. It sets `Content-Type: application/octet-stream` when
  the upstream gave none, generates an ETag when none was copied, and answers
  a fresh 2xx request (a matching `If-None-Match`, say) with 304 and an
  empty body.
- Base64.Decode: a `=` in the middle of the input ends decoding here. Node
  versions differ on the characters after it.
- Base64.Decode: a character outside the alphabet is skipped here. Some Node
  versions read each UTF-16 unit of the input through its low byte, so that
  `Ł` (U+0141) would read as `A`; that behaviour depends on the Node version
  and is not modelled.
- Utf8.Encode: text is a sequence of Unicode scalar values. A JavaScript
  string with a lone surrogate, which `Buffer.from` turns into U+FFFD, cannot
  be written.
- src/routes/github.js, src/routes/system.js, app.js and server.js are not
  part of this model; the only reference to app.js is the 500 answer its
  error handler gives (`app.js:50-53`).
