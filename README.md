# Upload relay server, modelled in Dafny

The server exposes one route, `POST /api/upload`. A multipart parser holds
the uploaded file in memory and first runs a `fileFilter` callback on the
file's declared MIME type. The route handler then answers 400 if no file
arrived. Otherwise it creates a `basic-ftp` client, connects with settings
from the environment, ensures the upload directory exists, and uploads the
bytes under the name `<Date.now()>-<original name with whitespace replaced by
_>`. It closes the client and answers 200 with `{success, url, filename}`. If
any FTP step rejects, it closes the client and answers 500 with
`"Erreur FTP : " + message`.

The model has five modules:

- `JsText` (JsText.dfy): the JavaScript built-ins these steps depend on. These
  are the regular-expression class `\s`, `String(n)` for an integral number,
  a template literal `${v}` of a possibly `undefined` value, and `parseInt`
  without a radix (leading whitespace, sign, `0x` prefix, longest digit run,
  `NaN`).
- `UploadFilter` (UploadFilter.dfy): the `fileFilter` allow-list and the
  verdict it passes to its callback.
- `Naming` (Naming.dfy): the stored filename and the public URL.
- `FtpConfig` (FtpConfig.dfy): the environment, the port default
  `parseInt(FTP_PORT) || 21`, and the options passed to `client.access`.
- `UploadRoute` (UploadRoute.dfy): the handler, written as a method. It uses
  an `FtpClient` class that records the awaited calls made on it, counts
  `close()` calls, and notes how many calls had been made when it was
  closed. Whether each remote call resolves or rejects is a parameter
  (`FtpBehaviour`).

What the proofs show, in the system's terms:

- The filter accepts a `file.mimetype` string exactly when it is one of the
  five listed types, compared exactly. A `mimetype` string made of an
  allowed type with anything appended, such as `; charset=…`, is rejected.
- The stored name never contains whitespace. Apart from whitespace, it keeps
  every character of the `file.originalname` string the handler receives,
  so any `/` or `.` in that string is part of the remote path.
- `Sanitize` preserves length and is idempotent. It leaves a name unchanged
  exactly when the name contains no whitespace.
- The stored name is fully determined by the timestamp and the sanitized
  name. Two uploads get the same name exactly when their timestamps match
  and their names sanitize alike, so `a b.png` and `a_b.png` uploaded in the
  same millisecond collide. The source's comment promises a unique name; the
  code does not guarantee one.
- The public URL is the base URL (`undefined` if it is unset), then `/`,
  then the filename. The base URL is not normalised.
- The port is never 0. It is 21 when `FTP_PORT` is unset, not a number, or
  zero. Otherwise it is the parsed value, with no range check: `-5` stays
  `-5`. A decimal port with leading whitespace or trailing non-digits is
  read as written, except that `0` followed by `x` or `X` starts a
  hexadecimal number: `0x15` gives 21 and `0xA` gives 10.
- Without a file, the handler answers 400 and creates no client.
- With a file, it makes a prefix of access → ensureDir → uploadFrom. It stops
  at the first rejection and reports that rejection's message, or it
  succeeds with the URL and name of the uploaded file. The client is closed
  exactly once, after the last call, on both paths.

The server has no content sniffing, random-token naming, rate limiting or
size-exceeded handling in its handler, so the model has none either.

## Model

| member | source | states |
|---|---|---|
| UploadFilter.Includes | server.js:31 | `allowed.includes(mimetype)` is true exactly when the type is in the list |
| UploadFilter.FileFilter | server.js:23-36 | the callback gets `(null, true)` exactly for the five allowed types and `(Error("Type de fichier non autorisé"), false)` otherwise |
| UploadFilter.DecoratedTypeRejected | server.js:24-31 | matching is exact: an allowed type followed by any non-empty suffix is rejected |
| Naming.Sanitize | server.js:63 | `replace(/\s/g, "_")` keeps the length of the name |
| Naming.SanitizeAt | server.js:63 | at every index, whitespace becomes `_` and every other character (`/` and `.` included) is kept |
| Naming.SanitizeHasNoWhitespace | server.js:63 | the sanitized name contains no whitespace |
| Naming.SanitizeFixedPoint | server.js:63 | a name is unchanged by sanitizing if and only if it contains no whitespace |
| Naming.SanitizeIdempotent | server.js:63 | sanitizing twice equals sanitizing once |
| Naming.SanitizeEqual | server.js:63 | two names sanitize alike iff they have equal length and agree position-wise up to whitespace/`_` |
| Naming.StoredNameHasNoWhitespace | server.js:62-63 | the stored filename contains no whitespace at all |
| Naming.StoredName | server.js:62-63 | the filename starts with the decimal timestamp and a dash, and is as long as those and the original name together |
| Naming.StoredNameKeepsCharacters | server.js:62-63 | after the timestamp and the dash, each character of the filename is the original name's character at the same position, with only whitespace changed |
| Naming.StoredNameCollides | server.js:61-63 | two filenames are equal iff the timestamps are equal and the original names sanitize alike |
| Naming.WhitespaceVariantCollides | server.js:61-63 | replacing a whitespace character by `_` gives a different original name with the same stored filename |
| Naming.PublicUrl | server.js:73 | the URL is the base (`undefined` when unset), then `/`, then the filename, and ends with the filename |
| Naming.PublicUrlDeterminesFilename | server.js:73 | for a fixed base, the URL determines the filename |
| JsText.Digits | server.js:63 | the timestamp's digits are decimal digits with no leading zero |
| JsText.DigitsRoundTrip | server.js:63 | reading the decimal digits of `n` back gives `n` |
| JsText.ToDecimalShape | server.js:63 | `${timestamp}` starts with `-` iff the timestamp is negative, holds only digits after that and has no whitespace |
| JsText.ToDecimalInjective | server.js:63 | distinct timestamps render as distinct strings |
| JsText.TrimStart | server.js:52 | `parseInt` starts reading at a character that is not whitespace |
| JsText.TrimStartSpec | server.js:52 | what `parseInt` skips is a run of whitespace at the front, and the rest is kept |
| JsText.DigitPrefixLengthSpec | server.js:52 | the digit run `parseInt` converts is made of digits and stops at the first non-digit |
| JsText.SignedNotANumber | server.js:52 | text starting with neither a sign nor a digit parses to `NaN` |
| JsText.ParseIntOfDecimal | server.js:52 | `parseInt` reads back `String(n)` after any whitespace and before any suffix that does not continue the number |
| FtpConfig.FtpPort | server.js:52 | the port falls back to 21 when the parse is falsy, so it is never 0 |
| FtpConfig.FtpPortDefault | server.js:52 | the port is 21 iff the parse is `NaN`, 0 or 21, and otherwise it is the parsed number |
| FtpConfig.FtpPortOfDecimal | server.js:52 | a decimal `FTP_PORT` (padded or followed by non-digits) is used as written, and `"0"` gives 21 |
| FtpConfig.FtpPortOfHex | server.js:52 | a `0x` prefix is read as hexadecimal: `"0x15"` gives 21 and `"0xA"` gives 10 |
| FtpConfig.FtpPortUnset | server.js:52 | an unset `FTP_PORT` gives 21 |
| FtpConfig.FtpPortNotANumber | server.js:52 | an `FTP_PORT` that is not a number after its whitespace gives 21 |
| UploadRoute.ToHttp | server.js:42-85 | 200 with `{success: true, url, filename}` iff success, 400 `"Aucun fichier reçu"` iff no file, 500 with `"Erreur FTP : "` followed by the cause iff an FTP step failed |
| UploadRoute.FtpClient.constructor | server.js:45 | a new client has made no calls and has not been closed |
| UploadRoute.FtpClient.Access | server.js:50-56 | appends one `access` call with the given options and reports whether it rejected |
| UploadRoute.FtpClient.EnsureDir | server.js:59 | appends one `ensureDir` call for the configured directory and reports whether it rejected |
| UploadRoute.FtpClient.UploadFrom | server.js:66-69 | appends one `uploadFrom` call with the bytes and remote name and reports whether it rejected |
| UploadRoute.FtpClient.Close | server.js:71-82 | counts one more close, changes no call, and records how many calls preceded it |
| UploadRoute.HandleUpload | server.js:40-87 | no file gives `NoFile` and no client. Otherwise the calls are the planned ones up to the first failure, the result is that failure's message or `Ok(url, filename)`, and `close` is called exactly once, after the last call |
| UploadRoute.CallsFollowPlan | server.js:48-69 | the calls made are a prefix of access → ensureDir → uploadFrom, a step is reached iff all earlier ones succeeded, and the upload carries the file's bytes under the stored name |

## Left out

- Express app setup, the CORS origin list, `app.listen` and the health-check route: framework wiring with no logic of its own.
- multer's memory storage and its 50 MB `fileSize` limit: library behaviour. The model also omits how multer routes the filter's error. A rejected type never reaches the handler; Express's default error handler answers instead. The handler is modelled from the point where `req.file` is present or absent.
- The FTP protocol, the `verbose` flag and `Readable.from`: each remote call is an abstract step that resolves or rejects with a message (`FtpBehaviour`). The uploaded stream is modelled as the buffer's bytes.
- `dotenv` and `process.env`: the variables are the fields of `Env`, each possibly unset.
- `Date.now()`: the timestamp is a parameter. `String(n)` is modelled for integers; the exponent form that JavaScript uses from 1e21 upward cannot occur for a clock value and is not modelled.
- `console.error` logging in the catch block.
- UploadRoute.FtpClient.Close: modelled as never throwing. If `close()` threw on the success path, the catch block would close the client a second time.
- JsText.ParseIntOfDecimal: parses exact integers. `parseInt` returns a double, so digit strings above 2^53 would be rounded; ports never reach that size.
- Naming.Sanitize: works on Unicode scalar values, while JavaScript strings are UTF-16 code units. No `\s` character lies outside the basic plane, so the result is the same, but lengths count scalar values rather than code units.
- How the multipart parser derives `file.mimetype` and `file.originalname`: library behaviour. The parser passes on the declared media type as a normalised `type/subtype` without parameters, and keeps only the base name of the client's filename. The model takes both strings as given, so its statements about appended parameters and about `/` or `..` in the name describe the strings the filter and the handler receive, not what a client may send.
- Error objects whose `message` is not a string: the rejection message is a string in the model.
