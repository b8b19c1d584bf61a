/**
 * The HTTP response a finaliser writes into, reduced to what the finaliser
 * touches: a status code, the header list, the body and the log trace of the
 * request. Header semantics follow the response-header operations the
 * finaliser calls: `Add` appends one entry, `Set` removes every entry for the
 * key and then appends the new one.
 */
module Http {

  import opened Wrappers

  type byte = b: int | 0 <= b < 256

  const StatusOK := 200
  const StatusInternalServerError := 500

  datatype Header = Header(key: string, value: string)

  /** A Go `error`, known here only by the text its `Error()` method returns. */
  datatype GoError = GoError(text: string)

  datatype Severity = Error | Warning

  /** What a log line says, with the logger's formatting left abstract. */
  datatype LogMessage =
    | Composed(context: string, cause: string)  // `LogErrorFormat` applied to a message and an error text
    | Bare(text: string)                       // a message on its own
    | Wrapped(cause: string)                  // an error wrapped with its own text

  /** One log line; `hasStack` tells whether the logged error carries a captured stack. */
  datatype LogEntry = LogEntry(severity: Severity, message: LogMessage, hasStack: bool)

  /** The header list without any entry for `key`, in the original order. */
  function WithoutKey(hs: seq<Header>, key: string): seq<Header>
  {
    if hs == [] then [] else (if hs[0].key == key then [] else [hs[0]]) + WithoutKey(hs[1..], key)
  }

  /** The values recorded for `key`, in the order they were added. */
  function ValuesOf(hs: seq<Header>, key: string): seq<string>
  {
    if hs == [] then [] else (if hs[0].key == key then [hs[0].value] else []) + ValuesOf(hs[1..], key)
  }

  /** `WithoutKey` drops exactly the entries for `key`. */
  lemma {:induction false} WithoutKeyMembers(hs: seq<Header>, key: string, h: Header)
    ensures h in WithoutKey(hs, key) <==> h in hs && h.key != key
  {
    if hs != [] {
      WithoutKeyMembers(hs[1..], key, h);
      assert hs == [hs[0]] + hs[1..];
    }
  }

  /** `ValuesOf` lists exactly the values of the entries for `key`. */
  lemma {:induction false} ValuesOfMembers(hs: seq<Header>, key: string, v: string)
    ensures v in ValuesOf(hs, key) <==> Header(key, v) in hs
  {
    if hs != [] {
      ValuesOfMembers(hs[1..], key, v);
      assert hs == [hs[0]] + hs[1..];
    }
  }

  lemma {:induction false} ValuesOfAppend(a: seq<Header>, b: seq<Header>, k: string)
    ensures ValuesOf(a + b, k) == ValuesOf(a, k) + ValuesOf(b, k)
  {
    if a == [] {
      assert a + b == b;
    } else {
      var head := if a[0].key == k then [a[0].value] else [];
      assert (a + b)[0] == a[0] && (a + b)[1..] == a[1..] + b;
      calc {
        ValuesOf(a + b, k);
        head + ValuesOf(a[1..] + b, k);
        { ValuesOfAppend(a[1..], b, k); }
        head + (ValuesOf(a[1..], k) + ValuesOf(b, k));
        (head + ValuesOf(a[1..], k)) + ValuesOf(b, k);
        ValuesOf(a, k) + ValuesOf(b, k);
      }
    }
  }

  lemma {:induction false} WithoutKeyValues(hs: seq<Header>, key: string, k: string)
    ensures ValuesOf(WithoutKey(hs, key), k) == if k == key then [] else ValuesOf(hs, k)
  {
    if hs != [] {
      WithoutKeyValues(hs[1..], key, k);
      ValuesOfAppend(if hs[0].key == key then [] else [hs[0]], WithoutKey(hs[1..], key), k);
    }
  }

  /** The header list after `Header.Add(key, value)`. */
  function AddHeader(hs: seq<Header>, key: string, value: string): seq<Header> {
    hs + [Header(key, value)]
  }

  /** The header list after `Header.Set(key, value)`. */
  function SetHeader(hs: seq<Header>, key: string, value: string): seq<Header> {
    WithoutKey(hs, key) + [Header(key, value)]
  }

  /** `Add` appends `value` to the values of `key` and leaves every other key as it was. */
  lemma AddHeaderValues(hs: seq<Header>, key: string, value: string, k: string)
    ensures ValuesOf(AddHeader(hs, key, value), k) == ValuesOf(hs, k) + (if k == key then [value] else [])
  {
    ValuesOfAppend(hs, [Header(key, value)], k);
  }

  /** After `Set`, `value` is the one value of `key`; every other key is left as it was. */
  lemma SetHeaderValues(hs: seq<Header>, key: string, value: string, k: string)
    ensures ValuesOf(SetHeader(hs, key, value), k) == if k == key then [value] else ValuesOf(hs, k)
  {
    WithoutKeyValues(hs, key, k);
    ValuesOfAppend(WithoutKey(hs, key), [Header(key, value)], k);
  }

  /** The abstract value of a response: everything a finaliser can change. */
  datatype Snapshot = Snapshot(
    status: int,
    headers: seq<Header>,
    body: seq<byte>,
    logs: seq<LogEntry>,
    writes: nat)  // how many times a body was written

  /** A response as the server hands it to a handler: status 200, nothing else yet. */
  function Initial(): Snapshot {
    Snapshot(StatusOK, [], [], [], 0)
  }

  /** The response of one request, updated in place by the finaliser. */
  class Response {
    var status: int
    var headers: seq<Header>
    var body: seq<byte>
    ghost var logs: seq<LogEntry>
    ghost var writes: nat

    ghost function State(): Snapshot
      reads this
    {
      Snapshot(status, headers, body, logs, writes)
    }

    constructor ()
      ensures State() == Initial()
    {
      status, headers, body := StatusOK, [], [];
      logs, writes := [], 0;
    }

    method SetStatusCode(code: int)
      modifies this
      ensures State() == old(State()).(status := code)
    {
      status := code;
    }

    method Add(key: string, value: string)
      modifies this
      ensures State() == old(State()).(headers := AddHeader(old(headers), key, value))
    {
      headers := headers + [Header(key, value)];
    }

    method Set(key: string, value: string)
      modifies this
      ensures State() == old(State()).(headers := SetHeader(old(headers), key, value))
    {
      headers := WithoutKey(headers, key) + [Header(key, value)];
    }

    /**
     * Appends `data` to the body. Whether the write fails is decided by the
     * connection, which is not modelled: `outcome` stands for it and is what
     * the write reports.
     */
    method Write(data: seq<byte>, outcome: Option<GoError>) returns (err: Option<GoError>)
      modifies this
      ensures State() == old(State()).(body := old(body) + data, writes := old(writes) + 1)
      ensures err == outcome
    {
      body := body + data;
      writes := writes + 1;
      err := outcome;
    }

    /** Records one line in the request's log. */
    ghost method Log(entry: LogEntry)
      modifies this
      ensures State() == old(State()).(logs := old(logs) + [entry])
    {
      logs := logs + [entry];
    }
  }
}
