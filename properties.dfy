/**
 * What the two finalisers promise about the response they leave behind,
 * stated over `FailedResult`, `SucceededResult` and `ServedResult` and
 * hence, through the methods' postconditions, over the response object.
 */
module FinalizerProperties {

  import opened Wrappers
  import opened Decimal
  import opened Http
  import opened HandlerFinalizer

  // ---------------------------------------------------------------------------
  // Header lists built by the success path
  // ---------------------------------------------------------------------------

  lemma SingleHeaderValues(h: Header, k: string)
    ensures ValuesOf([h], k) == if h.key == k then [h.value] else []
  {
    assert [h][1..] == [];
  }

  /** Dropping the last key of a duplicate-free order keeps it duplicate-free and leaves that key out. */
  lemma DistinctPrefix(keys: seq<string>)
    requires keys != [] && Distinct(keys)
    ensures Distinct(keys[..|keys| - 1])
    ensures keys[|keys| - 1] !in keys[..|keys| - 1]
  {
    var init := keys[..|keys| - 1];
    forall i | 0 <= i < |init| ensures init[i] != keys[|keys| - 1] {
      assert init[i] == keys[i];
    }
    forall i, j | 0 <= i < j < |init| ensures init[i] != init[j] {
      assert init[i] == keys[i] && init[j] == keys[j];
    }
  }

  /** A key of a non-empty order is either its last key or a key of the rest. */
  lemma LastKeySplit(keys: seq<string>, k: string)
    requires keys != []
    ensures (k in keys) == (k in keys[..|keys| - 1] || k == keys[|keys| - 1])
  {
    assert keys == keys[..|keys| - 1] + [keys[|keys| - 1]];
  }

  /** Visiting every key once adds exactly one value for each key of the map, and none for other keys. */
  lemma {:induction false} EntriesValues(m: map<string, string>, keys: seq<string>, k: string)
    requires forall key :: key in keys ==> key in m
    requires Distinct(keys)
    ensures ValuesOf(Entries(m, keys), k) == if k in keys then [m[k]] else []
    decreases |keys|
  {
    if keys != [] {
      var init, last := keys[..|keys| - 1], keys[|keys| - 1];
      DistinctPrefix(keys);
      LastKeySplit(keys, k);
      EntriesValues(m, init, k);
      var entry := Header(last, m[last]);
      ValuesOfAppend(Entries(m, init), [entry], k);
      SingleHeaderValues(entry, k);
      if k == last {
        calc {
          ValuesOf(Entries(m, keys), k);
          ValuesOf(Entries(m, init), k) + ValuesOf([entry], k);
          [] + [m[k]];
        }
      } else {
        calc {
          ValuesOf(Entries(m, keys), k);
          ValuesOf(Entries(m, init), k) + ValuesOf([entry], k);
          ValuesOf(Entries(m, init), k) + [];
        }
      }
    }
  }

  /** The values the Cache-Control step contributes for key `k`. */
  function CacheValues(maxAgeDays: int, k: string): seq<string> {
    match CacheControlValue(maxAgeDays)
    case None => []
    case Some(v) => if k == "Cache-Control" then [v] else []
  }

  /** The Cache-Control step contributes exactly `CacheValues` for each key. */
  lemma CacheEntriesValues(maxAgeDays: int, k: string)
    ensures ValuesOf(CacheControlEntries(maxAgeDays), k) == CacheValues(maxAgeDays, k)
  {
    var cache := CacheControlEntries(maxAgeDays);
    if cache != [] {
      SingleHeaderValues(cache[0], k);
    }
  }

  /**
   * The header values before the content type is set, key by key: the
   * earlier values, then the Cache-Control value (for that key, unless
   * disabled), then the caller's value (when the key is in the caller's map).
   */
  lemma AddedHeaderValues(r: Snapshot, headers: map<string, string>, settings: Settings, order: seq<string>, k: string)
    requires IsEnumeration(order, headers)
    ensures ValuesOf(AddedHeaders(r, headers, settings, order), k)
         == ValuesOf(r.headers, k) + CacheValues(settings.cacheControlMaxAge, k) + (if k in headers then [headers[k]] else [])
  {
    var cache := CacheControlEntries(settings.cacheControlMaxAge);
    var entries := Entries(headers, order);
    calc {
      ValuesOf(AddedHeaders(r, headers, settings, order), k);
      ValuesOf(r.headers + cache + entries, k);
      { ValuesOfAppend(r.headers + cache, entries, k); }
      ValuesOf(r.headers + cache, k) + ValuesOf(entries, k);
      { ValuesOfAppend(r.headers, cache, k); }
      ValuesOf(r.headers, k) + ValuesOf(cache, k) + ValuesOf(entries, k);
      { CacheEntriesValues(settings.cacheControlMaxAge, k); }
      ValuesOf(r.headers, k) + CacheValues(settings.cacheControlMaxAge, k) + ValuesOf(entries, k);
      { EntriesValues(headers, order, k); }
      ValuesOf(r.headers, k) + CacheValues(settings.cacheControlMaxAge, k) + (if k in headers then [headers[k]] else []);
    }
  }

  /**
   * The header values of a served response, key by key: `Content-Type` has
   * exactly the negotiated type, even when the caller supplied one; every
   * other key keeps its earlier values, then gets the Cache-Control value
   * (for that key, unless disabled), then the caller's value (when the key is
   * in the caller's map) -- each exactly once.
   */
  lemma ServedHeaderValues(
    r: Snapshot, contentType: string, headers: map<string, string>,
    params: map<string, string>, settings: Settings,
    image: seq<byte>, order: seq<string>, webp: EncodeOutcome, writeOutcome: Option<GoError>, k: string)
    requires IsEnumeration(order, headers)
    ensures ValuesOf(ServedResult(r, contentType, headers, params, settings, image, order, webp, writeOutcome).headers, k)
         == if k == "Content-Type" then [Negotiate(params, image, contentType, webp).contentType]
            else ValuesOf(r.headers, k) + CacheValues(settings.cacheControlMaxAge, k) + (if k in headers then [headers[k]] else [])
  {
    var finalType := Negotiate(params, image, contentType, webp).contentType;
    var added := AddedHeaders(r, headers, settings, order);
    assert ServedResult(r, contentType, headers, params, settings, image, order, webp, writeOutcome).headers
        == SetHeader(added, "Content-Type", finalType);
    SetHeaderValues(added, "Content-Type", finalType, k);
    if k != "Content-Type" {
      AddedHeaderValues(r, headers, settings, order, k);
    }
  }

  // ---------------------------------------------------------------------------
  // Failure path
  // ---------------------------------------------------------------------------

  /**
   * Whatever the cause, a failed finalisation leaves status 500, the single
   * content type text/html and the fixed error body, written once; no other
   * header changes.
   */
  lemma FailedResponseIsFixed(r: Snapshot, stdOut: Option<CustomError>, settings: Settings, writeOutcome: Option<GoError>)
    ensures var f := FailedResult(r, stdOut, settings, writeOutcome);
      && f.status == StatusInternalServerError
      && ValuesOf(f.headers, "Content-Type") == ["text/html"]
      && (forall k :: k != "Content-Type" ==> ValuesOf(f.headers, k) == ValuesOf(r.headers, k))
      && f.body == r.body + settings.errorMessage
      && f.writes == r.writes + 1
  {
    SetHeaderValues(r.headers, "Content-Type", "text/html", "Content-Type");
    forall k | k != "Content-Type" {
      SetHeaderValues(r.headers, "Content-Type", "text/html", k);
    }
  }

  /**
   * The cause is logged once at error level: composed with the detail's text
   * and a stack when there is a detail, the bare message otherwise, and not at
   * all when there is no cause. A failed write adds one more error line.
   */
  lemma FailureLogForms(r: Snapshot, stdOut: Option<CustomError>, settings: Settings, writeOutcome: Option<GoError>)
    ensures var f := FailedResult(r, stdOut, settings, writeOutcome);
      && (stdOut.None? ==> f.logs == r.logs + WriteFailureLog(settings, writeOutcome))
      && (stdOut.Some? && stdOut.value.detail.Some? ==>
            f.logs == r.logs
                    + [LogEntry(Error, Composed(stdOut.value.message, stdOut.value.detail.value.text), true)]
                    + WriteFailureLog(settings, writeOutcome))
      && (stdOut.Some? && stdOut.value.detail.None? ==>
            f.logs == r.logs + [LogEntry(Error, Bare(stdOut.value.message), false)] + WriteFailureLog(settings, writeOutcome))
    ensures |WriteFailureLog(settings, writeOutcome)| == (if writeOutcome.Some? then 1 else 0)
  {
  }

  // ---------------------------------------------------------------------------
  // Routing on the processor outcome
  // ---------------------------------------------------------------------------

  /**
   * A processor error wins even when a result came back; a nil result without
   * error fails with no detail; any non-nil result, the empty one included,
   * is served.
   */
  lemma ProcessorOutcomeRouting(
    r: Snapshot, contentType: string, headers: map<string, string>,
    params: map<string, string>, settings: Settings,
    process: ProcessOutcome, order: seq<string>, webp: EncodeOutcome, writeOutcome: Option<GoError>)
    requires IsEnumeration(order, headers)
    ensures var f := SucceededResult(r, contentType, headers, params, settings, process, order, webp, writeOutcome);
      && (process.err.Some? ==>
            f == FailedResult(r, Some(CustomError(process.errMessage, process.err)), settings, writeOutcome))
      && (process.err.None? && process.result.None? ==>
            f == FailedResult(r, Some(CustomError(process.errMessage, None)), settings, writeOutcome))
      && (process.err.None? && process.result.Some? ==>
            f == ServedResult(r, contentType, headers, params, settings, process.result.value, order, webp, writeOutcome))
  {
  }

  /**
   * When the processor fails, nothing of the success path reaches the
   * response: no Cache-Control, no caller header, no image; only the fixed
   * failure response.
   */
  lemma ProcessorFailureShortCircuits(
    r: Snapshot, contentType: string, headers: map<string, string>,
    params: map<string, string>, settings: Settings,
    process: ProcessOutcome, order: seq<string>, webp: EncodeOutcome, writeOutcome: Option<GoError>)
    requires IsEnumeration(order, headers)
    requires process.err.Some? || process.result.None?
    ensures var f := SucceededResult(r, contentType, headers, params, settings, process, order, webp, writeOutcome);
      && f.status == StatusInternalServerError
      && ValuesOf(f.headers, "Content-Type") == ["text/html"]
      && (forall k :: k != "Content-Type" ==> ValuesOf(f.headers, k) == ValuesOf(r.headers, k))
      && f.body == r.body + settings.errorMessage
  {
    FailedResponseIsFixed(r, Some(Classify(process).cause), settings, writeOutcome);
  }

  /**
   * Exactly one finalisation happens: one body write on every input; a
   * processor failure ends in status 500 and a served image keeps the status
   * the response had, so for a response not already at 500 (a fresh one is at
   * 200) the status ends at 500 exactly when the processor failed.
   */
  lemma ExactlyOneFinalization(
    r: Snapshot, contentType: string, headers: map<string, string>,
    params: map<string, string>, settings: Settings,
    process: ProcessOutcome, order: seq<string>, webp: EncodeOutcome, writeOutcome: Option<GoError>)
    requires IsEnumeration(order, headers)
    ensures var f := SucceededResult(r, contentType, headers, params, settings, process, order, webp, writeOutcome);
      && f.writes == r.writes + 1
      && ((process.err.Some? || process.result.None?) ==> f.status == StatusInternalServerError)
      && (process.err.None? && process.result.Some? ==> f.status == r.status)
    ensures r.status != StatusInternalServerError ==>
      var f := SucceededResult(r, contentType, headers, params, settings, process, order, webp, writeOutcome);
      (f.status == StatusInternalServerError <==> (process.err.Some? || process.result.None?))
  {
  }

  // ---------------------------------------------------------------------------
  // Cache-Control
  // ---------------------------------------------------------------------------

  /**
   * On a served response that had no Cache-Control and whose caller headers
   * carry none, the header is present exactly when the setting is not -1
   * (so also for 0 and negative days), once, and its max-age is the `%d`
   * text of the days times 86400.
   */
  lemma CacheControlIffNotSentinel(
    r: Snapshot, contentType: string, headers: map<string, string>,
    params: map<string, string>, settings: Settings,
    process: ProcessOutcome, order: seq<string>, webp: EncodeOutcome, writeOutcome: Option<GoError>)
    requires IsEnumeration(order, headers)
    requires process.err.None? && process.result.Some?
    requires ValuesOf(r.headers, "Cache-Control") == [] && "Cache-Control" !in headers
    ensures var vs := ValuesOf(SucceededResult(r, contentType, headers, params, settings, process, order, webp, writeOutcome).headers, "Cache-Control");
      && (vs != [] <==> settings.cacheControlMaxAge != CacheDisabled)
      && (vs != [] ==>
            && |vs| == 1
            && |vs[0]| > |CacheControlPrefix|
            && vs[0][..|CacheControlPrefix|] == CacheControlPrefix
            && IsIntText(vs[0][|CacheControlPrefix|..])
            && NoLeadingZero(Magnitude(vs[0][|CacheControlPrefix|..]))
            && (vs[0][|CacheControlPrefix|] == '-' <==> settings.cacheControlMaxAge * 86400 < 0)
            && ParseInt(vs[0][|CacheControlPrefix|..]) == settings.cacheControlMaxAge * 86400)
  {
    ServedHeaderValues(r, contentType, headers, params, settings, process.result.value, order, webp, writeOutcome, "Cache-Control");
  }

  // ---------------------------------------------------------------------------
  // WebP negotiation
  // ---------------------------------------------------------------------------

  /** A requested conversion that succeeds serves the converted bytes as image/webp. */
  lemma WebpConverted(
    r: Snapshot, contentType: string, headers: map<string, string>,
    params: map<string, string>, settings: Settings,
    process: ProcessOutcome, order: seq<string>, webp: EncodeOutcome, writeOutcome: Option<GoError>)
    requires IsEnumeration(order, headers)
    requires process.err.None? && process.result.Some?
    requires ValueOrEmpty(params, "webp") != "" && webp.Encoded?
    ensures var f := SucceededResult(r, contentType, headers, params, settings, process, order, webp, writeOutcome);
      && f.status == r.status
      && f.body == r.body + webp.converted
      && ValuesOf(f.headers, "Content-Type") == ["image/webp"]
      && f.logs == r.logs + WriteFailureLog(settings, writeOutcome)
  {
    ServedHeaderValues(r, contentType, headers, params, settings, process.result.value, order, webp, writeOutcome, "Content-Type");
  }

  /**
   * Degrade, not fail: a requested conversion that fails leaves the response
   * exactly as if WebP had not been requested, apart from one warning line;
   * the status stays, the processed image is served with its own type.
   */
  lemma WebpFailureDegrades(
    r: Snapshot, contentType: string, headers: map<string, string>,
    params: map<string, string>, settings: Settings,
    process: ProcessOutcome, order: seq<string>, webp: EncodeOutcome, writeOutcome: Option<GoError>)
    requires IsEnumeration(order, headers)
    requires process.err.None? && process.result.Some?
    requires ValueOrEmpty(params, "webp") != "" && webp.EncodeFailed?
    ensures var f := SucceededResult(r, contentType, headers, params, settings, process, order, webp, writeOutcome);
      var plain := SucceededResult(r, contentType, headers, params - {"webp"}, settings, process, order, webp, writeOutcome);
      && f == plain.(logs := r.logs + [LogEntry(Warning, Wrapped(webp.err.text), true)] + WriteFailureLog(settings, writeOutcome))
      && f.status == r.status
      && f.body == r.body + process.result.value
      && ValuesOf(f.headers, "Content-Type") == [contentType]
  {
    assert ValueOrEmpty(params - {"webp"}, "webp") == "";
    ServedHeaderValues(r, contentType, headers, params, settings, process.result.value, order, webp, writeOutcome, "Content-Type");
  }

  /** Without a non-empty `webp` parameter the encoder's outcome plays no part. */
  lemma WebpOnlyWhenRequested(
    r: Snapshot, contentType: string, headers: map<string, string>,
    params: map<string, string>, settings: Settings,
    process: ProcessOutcome, order: seq<string>, webp: EncodeOutcome, other: EncodeOutcome, writeOutcome: Option<GoError>)
    requires IsEnumeration(order, headers)
    requires ValueOrEmpty(params, "webp") == ""
    ensures SucceededResult(r, contentType, headers, params, settings, process, order, webp, writeOutcome)
         == SucceededResult(r, contentType, headers, params, settings, process, order, other, writeOutcome)
  {
  }

  // ---------------------------------------------------------------------------
  // Body writes
  // ---------------------------------------------------------------------------

  /**
   * A failed body write is only logged, on either path: status, headers,
   * body and the write count are those of a successful write, and no second
   * write follows.
   */
  lemma WriteFailureOnlyLogged(
    r: Snapshot, contentType: string, headers: map<string, string>,
    params: map<string, string>, settings: Settings,
    process: ProcessOutcome, order: seq<string>, webp: EncodeOutcome, err: GoError)
    requires IsEnumeration(order, headers)
    ensures var failed := SucceededResult(r, contentType, headers, params, settings, process, order, webp, Some(err));
      var ok := SucceededResult(r, contentType, headers, params, settings, process, order, webp, None);
      && failed.status == ok.status && failed.headers == ok.headers
      && failed.body == ok.body && failed.writes == ok.writes
      && failed.logs == ok.logs + [LogEntry(Error, Composed(settings.logErrorMessage, err.text), true)]
  {
  }

  /**
   * A request served on a fresh response ends with status 200 and the
   * negotiated body as the only write; a failed one with status 500, the
   * single header Content-Type: text/html and the error body.
   */
  lemma FreshRequestOutcome(
    contentType: string, headers: map<string, string>,
    params: map<string, string>, settings: Settings,
    process: ProcessOutcome, order: seq<string>, webp: EncodeOutcome, writeOutcome: Option<GoError>)
    requires IsEnumeration(order, headers)
    ensures var f := SucceededResult(Initial(), contentType, headers, params, settings, process, order, webp, writeOutcome);
      && f.writes == 1
      && (process.err.None? && process.result.Some? ==>
            f.status == StatusOK && f.body == Negotiate(params, process.result.value, contentType, webp).body)
      && (process.err.Some? || process.result.None? ==>
            f.status == StatusInternalServerError && f.body == settings.errorMessage
            && f.headers == [Header("Content-Type", "text/html")])
  {
  }
}
