/**
 * Response finalisation of one image request (internal/util/model/handlerfinalizer.go).
 *
 * `FailedFinalizer.Finalize` logs the failure cause and writes the fixed
 * error response. `SucceededFinalizer.Finalize` runs the image processor,
 * routes its failures to the failed finaliser, and otherwise adds the cache
 * and caller headers, negotiates WebP, sets the content type and writes the
 * image. The collaborators the finalisers call (image processor, WebP
 * encoder, the connection a body is written to) appear as their outcomes;
 * `FailedResult` and `SucceededResult` are what the two methods do to the
 * response, as functions of the response before the call.
 */
module HandlerFinalizer {

  import opened Wrappers
  import opened Decimal
  import opened Http

  /** The package constants the finalisers read. */
  datatype Settings = Settings(
    cacheControlMaxAge: int,   // days; -1 switches the Cache-Control header off
    errorMessage: seq<byte>,   // the fixed body of every failure response
    logErrorMessage: string)   // the label logged with a failed body write

  const CacheDisabled := -1
  const SecondsPerDay := 24 * 60 * 60
  const CacheControlPrefix := "public, max-age="

  /** A failure cause: a message, and the underlying error when there is one. */
  datatype CustomError = CustomError(message: string, detail: Option<GoError>)

  /** What the image processor returned: a result (nil or not), a message and an error (nil or not). */
  datatype ProcessOutcome = ProcessOutcome(result: Option<seq<byte>>, errMessage: string, err: Option<GoError>)

  /** What the WebP encoder returned. */
  datatype EncodeOutcome = Encoded(converted: seq<byte>) | EncodeFailed(err: GoError)

  /** Go's `m[k]` on a string map: the empty string for an absent key. */
  function ValueOrEmpty(m: map<string, string>, k: string): string {
    if k in m then m[k] else ""
  }

  predicate Distinct(keys: seq<string>) {
    forall i, j :: 0 <= i < j < |keys| ==> keys[i] != keys[j]
  }

  /** `order` is one order in which a Go `range` over `m` may visit its keys: each key once. */
  predicate IsEnumeration(order: seq<string>, m: map<string, string>) {
    Distinct(order) && (forall k :: k in order ==> k in m) && (forall k :: k in m ==> k in order)
  }

  // ---------------------------------------------------------------------------
  // Failure path
  // ---------------------------------------------------------------------------

  /** The log line for the failure cause, if any. */
  function FailureLog(stdOut: Option<CustomError>): seq<LogEntry> {
    match stdOut
    case None => []
    case Some(e) =>
      match e.detail
      case Some(d) => [LogEntry(Error, Composed(e.message, d.text), true)]
      case None => [LogEntry(Error, Bare(e.message), false)]
  }

  /** The log line for a body write that failed; nothing when it succeeded. */
  function WriteFailureLog(settings: Settings, writeOutcome: Option<GoError>): seq<LogEntry> {
    match writeOutcome
    case None => []
    case Some(err) => [LogEntry(Error, Composed(settings.logErrorMessage, err.text), true)]
  }

  /** The response after `FailedFinalizer.Finalize`, given the response before it. */
  function FailedResult(r: Snapshot, stdOut: Option<CustomError>, settings: Settings, writeOutcome: Option<GoError>): Snapshot {
    Snapshot(
      StatusInternalServerError,
      SetHeader(r.headers, "Content-Type", "text/html"),
      r.body + settings.errorMessage,
      r.logs + FailureLog(stdOut) + WriteFailureLog(settings, writeOutcome),
      r.writes + 1)
  }

  datatype FailedFinalizer = FailedFinalizer(responseWriter: Response, stdOut: Option<CustomError>)
  {
    method Finalize(settings: Settings, writeOutcome: Option<GoError>)
      modifies responseWriter
      ensures responseWriter.State() == FailedResult(old(responseWriter.State()), stdOut, settings, writeOutcome)
    {
      if stdOut.Some? {
        if stdOut.value.detail.Some? {
          responseWriter.Log(LogEntry(Error, Composed(stdOut.value.message, stdOut.value.detail.value.text), true));
        } else {
          responseWriter.Log(LogEntry(Error, Bare(stdOut.value.message), false));
        }
      }

      responseWriter.Set("Content-Type", "text/html");
      responseWriter.SetStatusCode(StatusInternalServerError);
      var err := responseWriter.Write(settings.errorMessage, writeOutcome);
      if err.Some? {
        responseWriter.Log(LogEntry(Error, Composed(settings.logErrorMessage, err.value.text), true));
      }
    }
  }

  // ---------------------------------------------------------------------------
  // Success path
  // ---------------------------------------------------------------------------

  /** How the processor outcome routes the request: to the failed finaliser, or on with an image. */
  datatype Decision = Abort(cause: CustomError) | Proceed(image: seq<byte>)

  function Classify(p: ProcessOutcome): Decision {
    if p.err.Some? then Abort(CustomError(p.errMessage, p.err))
    else if p.result.None? then Abort(CustomError(p.errMessage, None))
    else Proceed(p.result.value)
  }

  /**
   * The Cache-Control value for a max-age given in days: none exactly for the
   * sentinel -1; otherwise the prefix followed by the days in seconds as `%d`
   * writes them: the sign, no leading zero, and a value that reads back. By
   * `Decimal.IntTextUnique` these pin the text down.
   */
  function CacheControlValue(maxAgeDays: int): (v: Option<string>)
    ensures v.Some? <==> maxAgeDays != CacheDisabled
    ensures v.Some? ==>
      && |v.value| > |CacheControlPrefix|
      && v.value[..|CacheControlPrefix|] == CacheControlPrefix
      && IsIntText(v.value[|CacheControlPrefix|..])
      && NoLeadingZero(Magnitude(v.value[|CacheControlPrefix|..]))
      && (v.value[|CacheControlPrefix|] == '-' <==> maxAgeDays * 86400 < 0)
      && ParseInt(v.value[|CacheControlPrefix|..]) == maxAgeDays * 86400
  {
    if maxAgeDays != CacheDisabled then
      var digits := IntToDecimal(maxAgeDays * SecondsPerDay);
      assert (CacheControlPrefix + digits)[|CacheControlPrefix|..] == digits;
      Some(CacheControlPrefix + digits)
    else
      None
  }

  function CacheControlEntries(maxAgeDays: int): seq<Header> {
    match CacheControlValue(maxAgeDays)
    case None => []
    case Some(v) => [Header("Cache-Control", v)]
  }

  /** The headers the caller's map contributes when its keys are visited in `keys` order. */
  function Entries(m: map<string, string>, keys: seq<string>): seq<Header>
    requires forall k :: k in keys ==> k in m
    decreases |keys|
  {
    if keys == [] then []
    else Entries(m, keys[..|keys| - 1]) + [Header(keys[|keys| - 1], m[keys[|keys| - 1]])]
  }

  /** The body, content type and warnings that WebP negotiation settles on. */
  datatype Negotiated = Negotiated(body: seq<byte>, contentType: string, warnings: seq<LogEntry>)

  function Negotiate(params: map<string, string>, image: seq<byte>, contentType: string, webp: EncodeOutcome): Negotiated {
    if ValueOrEmpty(params, "webp") != "" then
      match webp
      case Encoded(converted) => Negotiated(converted, "image/webp", [])
      case EncodeFailed(err) => Negotiated(image, contentType, [LogEntry(Warning, Wrapped(err.text), true)])
    else
      Negotiated(image, contentType, [])
  }

  /** The headers in place before the content type is set: the cache header, then the caller's. */
  function AddedHeaders(r: Snapshot, headers: map<string, string>, settings: Settings, order: seq<string>): seq<Header>
    requires IsEnumeration(order, headers)
  {
    r.headers + CacheControlEntries(settings.cacheControlMaxAge) + Entries(headers, order)
  }

  /** The response after the success half of `SucceededFinalizer.Finalize` has served `image`. */
  function ServedResult(
    r: Snapshot, contentType: string, headers: map<string, string>,
    params: map<string, string>, settings: Settings,
    image: seq<byte>, order: seq<string>, webp: EncodeOutcome, writeOutcome: Option<GoError>): Snapshot
    requires IsEnumeration(order, headers)
  {
    var n := Negotiate(params, image, contentType, webp);
    Snapshot(
      r.status,
      SetHeader(AddedHeaders(r, headers, settings, order), "Content-Type", n.contentType),
      r.body + n.body,
      r.logs + n.warnings + WriteFailureLog(settings, writeOutcome),
      r.writes + 1)
  }

  /** The response after `SucceededFinalizer.Finalize`, given the response before it. */
  function SucceededResult(
    r: Snapshot, contentType: string, headers: map<string, string>,
    params: map<string, string>, settings: Settings,
    process: ProcessOutcome, order: seq<string>, webp: EncodeOutcome, writeOutcome: Option<GoError>): Snapshot
    requires IsEnumeration(order, headers)
  {
    match Classify(process)
    case Abort(cause) => FailedResult(r, Some(cause), settings, writeOutcome)
    case Proceed(image) => ServedResult(r, contentType, headers, params, settings, image, order, webp, writeOutcome)
  }

  datatype SucceededFinalizer = SucceededFinalizer(responseWriter: Response, contentType: string, headers: map<string, string>)
  {
    /** Lines 68-77: the optional Cache-Control header, then one `Add` per caller header. */
    method AddHeaders(settings: Settings, order: seq<string>)
      requires IsEnumeration(order, headers)
      modifies responseWriter
      ensures responseWriter.State()
           == old(responseWriter.State()).(headers := AddedHeaders(old(responseWriter.State()), headers, settings, order))
    {
      ghost var start := responseWriter.State();
      ghost var withCache := start.headers + CacheControlEntries(settings.cacheControlMaxAge);
      if settings.cacheControlMaxAge != CacheDisabled {
        var maxAge := settings.cacheControlMaxAge * 24 * 60 * 60;
        assert maxAge == settings.cacheControlMaxAge * SecondsPerDay;
        assert CacheControlEntries(settings.cacheControlMaxAge) == [Header("Cache-Control", CacheControlPrefix + IntToDecimal(maxAge))];
        responseWriter.Add("Cache-Control", CacheControlPrefix + IntToDecimal(maxAge));
      } else {
        assert withCache == start.headers;
      }
      assert responseWriter.State() == start.(headers := withCache);
      AddCallerHeaders(order);
    }

    /** Lines 73-77: one `Add` per key of the caller's map, in the order the `range` visits them. */
    method AddCallerHeaders(order: seq<string>)
      requires IsEnumeration(order, headers)
      modifies responseWriter
      ensures responseWriter.State()
           == old(responseWriter.State()).(headers := old(responseWriter.headers) + Entries(headers, order))
    {
      ghost var start := responseWriter.State();
      if |headers| > 0 {
        for i := 0 to |order|
          invariant responseWriter.State() == start.(headers := start.headers + Entries(headers, order[..i]))
        {
          assert order[..i + 1][..i] == order[..i];
          assert Entries(headers, order[..i + 1]) == Entries(headers, order[..i]) + [Header(order[i], headers[order[i]])];
          responseWriter.Add(order[i], headers[order[i]]);
        }
        assert order[..|order|] == order;
      } else {
        assert start.headers + Entries(headers, order) == start.headers;
      }
    }

    /** Lines 68-96: headers, WebP negotiation, the content type and the one body write. */
    method Serve(
      params: map<string, string>, settings: Settings,
      image: seq<byte>, order: seq<string>, webp: EncodeOutcome, writeOutcome: Option<GoError>)
      requires IsEnumeration(order, headers)
      modifies responseWriter
      ensures responseWriter.State()
           == ServedResult(old(responseWriter.State()), contentType, headers, params, settings, image, order, webp, writeOutcome)
    {
      ghost var start := responseWriter.State();
      AddHeaders(settings, order);

      var result := image;
      var finalType := contentType;
      if ValueOrEmpty(params, "webp") != "" {
        match webp {
          case EncodeFailed(encodeErr) =>
            responseWriter.Log(LogEntry(Warning, Wrapped(encodeErr.text), true));
          case Encoded(converted) =>
            result := converted;
            finalType := "image/webp";
        }
      }

      ghost var n := Negotiate(params, image, contentType, webp);
      assert result == n.body && finalType == n.contentType;
      assert responseWriter.State() == start.(headers := AddedHeaders(start, headers, settings, order), logs := start.logs + n.warnings);

      responseWriter.Set("Content-Type", finalType);
      var writeErr := responseWriter.Write(result, writeOutcome);
      if writeErr.Some? {
        responseWriter.Log(LogEntry(Error, Composed(settings.logErrorMessage, writeErr.value.text), true));
      }
    }

    /**
     * `process` is what the image processor returned for `params`, the image
     * and `contentType`; `order` is the order the header loop visits
     * `headers`; `webp` is what the encoder would return for the processed
     * image; `writeOutcome` is what the one body write reports.
     */
    method Finalize(
      params: map<string, string>, settings: Settings,
      process: ProcessOutcome, order: seq<string>, webp: EncodeOutcome, writeOutcome: Option<GoError>)
      requires IsEnumeration(order, headers)
      modifies responseWriter
      ensures responseWriter.State()
           == SucceededResult(old(responseWriter.State()), contentType, headers, params, settings, process, order, webp, writeOutcome)
    {
      var result, errMessage, err := process.result, process.errMessage, process.err;
      if err.Some? {
        var customError := CustomError(errMessage, err);
        assert Classify(process) == Abort(customError);
        FailedFinalizer(responseWriter, Some(customError)).Finalize(settings, writeOutcome);
        return;
      }

      if result.None? {
        var customError := CustomError(errMessage, None);
        assert Classify(process) == Abort(customError);
        FailedFinalizer(responseWriter, Some(customError)).Finalize(settings, writeOutcome);
        return;
      }

      Serve(params, settings, result.value, order, webp, writeOutcome);
    }
  }
}
