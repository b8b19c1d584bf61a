# Response finalisation of simple-image-server, modelled in Dafny

This project models how the image server finishes one request
(`internal/util/model/handlerfinalizer.go`). It covers the status, the
header list, the body and the log lines that end up in the HTTP response.

- `FailedFinalizer.Finalize` logs the failure cause, if there is one. It then
  sets `Content-Type: text/html` and status 500, and writes the fixed error
  body.
- `SucceededFinalizer.Finalize` runs the image processor. A processor error,
  or a nil result, goes to the failed finaliser. Otherwise it:
  - adds `Cache-Control` unless the max-age setting is the sentinel -1;
  - adds the caller's headers;
  - tries a WebP re-encode when the `webp` parameter is non-empty, and falls
    back to the processed image if that fails;
  - `Set`s the final content type;
  - writes the body once.

Files:

- `wrappers.dfy`: `Option`, used for Go's nil-able values.
- `decimal.dfy`: Go's `%d` rendering (`IntToDecimal`) and `ParseInt`, which
  reads it back. The round trip is proved, and so is uniqueness: sign, no
  leading zero and value together fix the text.
- `http.dfy`: the response record.
  - `Header`, `LogEntry`, and the `Add`/`Set` semantics of the header list.
  - `ValuesOf(headers, key)` gives the values stored for a key, in order.
  - `Snapshot` is the abstract value of a response.
  - The class `Response` holds `status`, `headers` and `body`, plus a ghost log
    trace and a ghost write counter. Its methods change these in place.
- `handlerfinalizer.dfy`: the finalisers.
  - They are datatypes holding the `Response` they write into, like the Go
    value structs holding the request context.
  - Each `Finalize` method's postcondition ties the new response state to a
    function of the old state: `FailedResult`, `SucceededResult`.
  - The success path is split into `AddHeaders` (source lines 68-77), its
    header loop `AddCallerHeaders` (lines 73-77) and `Serve` (lines 68-96, which calls `AddHeaders`).
    This keeps each proof small.
- `properties.dfy`: lemmas about those functions, and so about the
  finalisers.

Collaborators are plain inputs:

- The image processor's outcome is a `ProcessOutcome`: an optional result, a
  message and an optional error.
- The WebP encoder's outcome is an `EncodeOutcome`.
- The body write's outcome is an `Option<GoError>`.
- The order in which Go's `range` visits the caller's header map is a
  sequence `order` that lists each key exactly once (`IsEnumeration`).
- The package constants (`CacheControlMaxAge` in days, `ErrorMessage`,
  `LogErrorMessage`) arrive in a `Settings` value. Their concrete text is not
  part of this model.

Log lines record a severity, what they say (`Composed(message, errorText)`,
`Bare(message)`, `Wrapped(errorText)`) and whether a stack trace is attached.
The logger's exact formatting is abstract.

Behaviour of the code worth noting:

- `Cache-Control` is added whenever the setting is not -1. Zero or negative
  day counts give `max-age` values of zero or below.
- The failure content type is `text/html`.
- The final content type is set with `Set`. It therefore replaces a
  `Content-Type` that came in through the caller's headers.
- The success path never sets the status. It stays whatever the response
  held, which is 200 for a fresh response (`Http.Initial`).

## Model

| member | source | states |
|---|---|---|
| `Decimal.NatToDecimal` | internal/util/model/handlerfinalizer.go:70 | the `%d` digits of a natural: at least one, all decimal digits, and a leading `0` exactly for zero |
| `Decimal.ParseNatToDecimal` | internal/util/model/handlerfinalizer.go:70 | reading the rendered digits back gives the number |
| `Decimal.IntToDecimal` | internal/util/model/handlerfinalizer.go:70 | `%d` of any integer starts with `-` exactly when it is negative, has no leading zero in its digits, and parses back to the integer |
| `Decimal.CanonicalDigits` | internal/util/model/handlerfinalizer.go:70 | a digit string without a superfluous leading zero is exactly the rendering of its own value |
| `Decimal.IntTextUnique` | internal/util/model/handlerfinalizer.go:70 | any text with the right sign, no leading zero and the right value is exactly `%d` of the number, so those three facts fix the rendered text |
| `Http.ValuesOfMembers` | internal/util/model/handlerfinalizer.go:68-91 | the values listed for a key are exactly the values of the header entries with that key, so `ValuesOf` is a faithful view of the header list |
| `Http.WithoutKeyMembers` | internal/util/model/handlerfinalizer.go:91 | the first half of `Header.Set`: it keeps exactly the entries whose key differs |
| `Http.AddHeaderValues` | internal/util/model/handlerfinalizer.go:75 | `Header.Add` appends the value to that key's values and leaves every other key's values unchanged |
| `Http.SetHeaderValues` | internal/util/model/handlerfinalizer.go:91 | after `Header.Set` the key has exactly the new value; every other key keeps its values |
| `Http.Response.Add` | internal/util/model/handlerfinalizer.go:75 | the response's headers become the old list plus one entry; status, body and log are unchanged |
| `Http.Response.Set` | internal/util/model/handlerfinalizer.go:91 | the headers become `SetHeader` of the old list; nothing else changes |
| `Http.Response.SetStatusCode` | internal/util/model/handlerfinalizer.go:45 | only the status changes |
| `Http.Response.Write` | internal/util/model/handlerfinalizer.go:92 | the data is appended to the body, the write count goes up by one, and the write's outcome is returned unchanged |
| `Http.Response.Log` | internal/util/model/handlerfinalizer.go:40 | one entry is appended to the log trace; nothing else changes |
| `HandlerFinalizer.FailedFinalizer.Finalize` | internal/util/model/handlerfinalizer.go:34-51 | the response afterwards is `FailedResult` of the response before: cause logged, `Content-Type` set to text/html, status 500, error body written, write error logged |
| `HandlerFinalizer.SucceededFinalizer.Finalize` | internal/util/model/handlerfinalizer.go:54-66 | the response afterwards is `SucceededResult` of the response before: a processor error or nil result hands over to the failed finaliser and stops; otherwise the image is served |
| `HandlerFinalizer.SucceededFinalizer.AddHeaders` | internal/util/model/handlerfinalizer.go:68-77 | the headers become the old list, then the Cache-Control entry (unless the setting is -1), then one entry per caller header in visiting order; nothing else changes |
| `HandlerFinalizer.SucceededFinalizer.AddCallerHeaders` | internal/util/model/handlerfinalizer.go:73-77 | after the loop the headers are the old list followed by one entry per key of the caller's map, with that key's value, in visiting order; nothing else changes |
| `HandlerFinalizer.SucceededFinalizer.Serve` | internal/util/model/handlerfinalizer.go:68-96 | the response afterwards is `ServedResult`: headers added, the negotiated content type `Set`, the negotiated body written once, warnings and write errors logged, status untouched |
| `HandlerFinalizer.CacheControlValue` | internal/util/model/handlerfinalizer.go:68-71 | a value exists exactly when the days setting is not -1; it is `public, max-age=` followed by the `%d` text of days times 86400: minus sign exactly when negative, no leading zero, reads back as that number (which by `Decimal.IntTextUnique` fixes the text) |
| `FinalizerProperties.EntriesValues` | internal/util/model/handlerfinalizer.go:73-77 | the header loop adds exactly one value for each key of the caller's map (its own value) and none for any other key, whatever the visiting order |
| `FinalizerProperties.CacheEntriesValues` | internal/util/model/handlerfinalizer.go:68-71 | the Cache-Control step gives the key `Cache-Control` the one configured value (none for -1) and no value to any other key |
| `FinalizerProperties.AddedHeaderValues` | internal/util/model/handlerfinalizer.go:68-77 | before the content type is set, every key has its earlier values, then the Cache-Control value if any, then the caller's value if any |
| `FinalizerProperties.ServedHeaderValues` | internal/util/model/handlerfinalizer.go:68-91 | on a served response `Content-Type` has exactly the negotiated type, even if the caller passed one; every other key has its earlier values, then the Cache-Control value if any, then the caller's value if any |
| `FinalizerProperties.FailedResponseIsFixed` | internal/util/model/handlerfinalizer.go:44-46 | whatever the cause: status 500, one `Content-Type` value `text/html`, body extended by the fixed error message, one write, no other header touched |
| `FinalizerProperties.FailureLogForms` | internal/util/model/handlerfinalizer.go:35-50 | a cause with detail logs one error line with the composed text and a stack; without detail, the bare message; no cause, no line; a failed write adds one error line |
| `FinalizerProperties.ProcessorOutcomeRouting` | internal/util/model/handlerfinalizer.go:55-66 | a processor error wins even if a result is present (failure with that detail); nil result without error fails without detail; any non-nil result, the empty one included, is served |
| `FinalizerProperties.ProcessorFailureShortCircuits` | internal/util/model/handlerfinalizer.go:56-66 | when the processor fails, no Cache-Control, caller header or image reaches the response; only the fixed failure response does |
| `FinalizerProperties.ExactlyOneFinalization` | internal/util/model/handlerfinalizer.go:54-96 | every input gives exactly one body write; a processor failure ends at status 500 and a served image keeps the earlier status, so for a response not already at 500 (such as a fresh one) the status ends at 500 exactly when the processor failed |
| `FinalizerProperties.CacheControlIffNotSentinel` | internal/util/model/handlerfinalizer.go:68-71 | on a served response (starting with no Cache-Control, none from the caller), Cache-Control is present exactly when the setting is not -1, appears once, and its max-age is the `%d` text of days times 86400 (sign, no leading zero, reads back as that number) |
| `FinalizerProperties.WebpConverted` | internal/util/model/handlerfinalizer.go:81-88 | a requested, successful conversion serves the converted bytes with the single content type `image/webp`, status unchanged, no warning |
| `FinalizerProperties.WebpFailureDegrades` | internal/util/model/handlerfinalizer.go:81-92 | a requested conversion that fails gives the same response as no WebP request, plus one warning line: status unchanged, processed image served with its own content type |
| `FinalizerProperties.WebpOnlyWhenRequested` | internal/util/model/handlerfinalizer.go:81 | with `webp` absent or empty, the encoder's outcome has no effect on the response |
| `FinalizerProperties.WriteFailureOnlyLogged` | internal/util/model/handlerfinalizer.go:92-96 | on either path, a failed write leaves status, headers, body and write count as a successful one would, and only adds one error log line |
| `FinalizerProperties.FreshRequestOutcome` | internal/util/model/handlerfinalizer.go:54-96 | from a fresh response: success ends at 200 with the negotiated body as the only write; failure ends at 500 with only `Content-Type: text/html` and the error body |

## Left out

- `internal/handler/googledrive/googledrive.go` is not part of this model. It is I/O plumbing:
  - the credential check through an environment helper;
  - the 5-second context timeout;
  - building the Drive client, and downloading and reading the file;
  - the mux path variables and the timing trace;
  - always putting an `ETag` entry into the header map.
  It also calls a three-argument `Finalize` of a `model.HandlerFinalizer`, which the finaliser file does not define.
- `processor.ImageProcess` and `webp.ConvertToWebp` are not part of this model. Only their outcomes are inputs. For the same reason the image bytes passed to `SucceededFinalizer.Finalize` do not appear: only the processor reads them.
- Logger formatting, `errors.WithStack`/`errors.Wrap` stack capture, and the text of `LogErrorFormat`, `ErrorMessage` and `LogErrorMessage` are abstract. A log entry carries a severity, its parts and a `hasStack` flag.
- fasthttp internals are not modelled:
  - header-name case normalisation;
  - its separate storage of `Content-Type`;
  - byte-level writing.
  `Add` appends an entry, `Set` removes every entry for the key and appends one, and a write appends the data to the body and reports an outcome given as input.
- HandlerFinalizer.CacheControlValue: does not model Go `int` overflow of `CacheControlMaxAge * 24 * 60 * 60`, because integers are unbounded here.
- A nil header map and an empty one behave the same (nothing is added), so both are the empty `map`.
- Concurrency across requests is not modelled: per-request state is never shared.
