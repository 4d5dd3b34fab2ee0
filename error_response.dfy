/** The JSON error body (package `error`): a status code, a message that
    falls back to the status text when blank, and a timestamp that a clock
    option may override. */
module ErrorResponse {
  import opened Wrappers
  import opened Strings
  import opened Entity

  datatype Response = Response(code: int, message: string, timestamp: Time)

  /** `UsingClock(clock)`, holding what `clock.Now()` reports when the option
      is applied. */
  datatype ResponseOption = UsingClock(now: Time)

  const BadRequest: int := 400

  /** `http.StatusText`: Go's reason phrase for the code, "" for a code it
      does not know. The table is split by status class. */
  function StatusText(code: int): (text: string)
    ensures Trimmed(text)
  {
    if 100 <= code < 200 then InformationalText(code)
    else if 200 <= code < 300 then SuccessfulText(code)
    else if 300 <= code < 400 then RedirectionText(code)
    else if 400 <= code < 500 then ClientErrorText(code)
    else if 500 <= code < 600 then ServerErrorText(code)
    else ""
  }

  function InformationalText(code: int): (text: string)
    ensures Trimmed(text)
  {
    match code
    case 100 => "Continue"
    case 101 => "Switching Protocols"
    case 102 => "Processing"
    case 103 => "Early Hints"
    case _ => ""
  }

  function SuccessfulText(code: int): (text: string)
    ensures Trimmed(text)
  {
    match code
    case 200 => "OK"
    case 201 => "Created"
    case 202 => "Accepted"
    case 203 => "Non-Authoritative Information"
    case 204 => "No Content"
    case 205 => "Reset Content"
    case 206 => "Partial Content"
    case 207 => "Multi-Status"
    case 208 => "Already Reported"
    case 226 => "IM Used"
    case _ => ""
  }

  function RedirectionText(code: int): (text: string)
    ensures Trimmed(text)
  {
    match code
    case 300 => "Multiple Choices"
    case 301 => "Moved Permanently"
    case 302 => "Found"
    case 303 => "See Other"
    case 304 => "Not Modified"
    case 305 => "Use Proxy"
    case 307 => "Temporary Redirect"
    case 308 => "Permanent Redirect"
    case _ => ""
  }

  function ClientErrorText(code: int): (text: string)
    ensures Trimmed(text)
  {
    if code < 416 then ClientErrorTextLow(code) else ClientErrorTextHigh(code)
  }

  function ClientErrorTextLow(code: int): (text: string)
    ensures Trimmed(text)
  {
    match code
    case 400 => "Bad Request"
    case 401 => "Unauthorized"
    case 402 => "Payment Required"
    case 403 => "Forbidden"
    case 404 => "Not Found"
    case 405 => "Method Not Allowed"
    case 406 => "Not Acceptable"
    case 407 => "Proxy Authentication Required"
    case 408 => "Request Timeout"
    case 409 => "Conflict"
    case 410 => "Gone"
    case 411 => "Length Required"
    case 412 => "Precondition Failed"
    case 413 => "Request Entity Too Large"
    case 414 => "Request URI Too Long"
    case 415 => "Unsupported Media Type"
    case _ => ""
  }

  function ClientErrorTextHigh(code: int): (text: string)
    ensures Trimmed(text)
  {
    match code
    case 416 => "Requested Range Not Satisfiable"
    case 417 => "Expectation Failed"
    case 418 => "I'm a teapot"
    case 421 => "Misdirected Request"
    case 422 => "Unprocessable Entity"
    case 423 => "Locked"
    case 424 => "Failed Dependency"
    case 425 => "Too Early"
    case 426 => "Upgrade Required"
    case 428 => "Precondition Required"
    case 429 => "Too Many Requests"
    case 431 => "Request Header Fields Too Large"
    case 451 => "Unavailable For Legal Reasons"
    case _ => ""
  }

  function ServerErrorText(code: int): (text: string)
    ensures Trimmed(text)
  {
    match code
    case 500 => "Internal Server Error"
    case 501 => "Not Implemented"
    case 502 => "Bad Gateway"
    case 503 => "Service Unavailable"
    case 504 => "Gateway Timeout"
    case 505 => "HTTP Version Not Supported"
    case 506 => "Variant Also Negotiates"
    case 507 => "Insufficient Storage"
    case 508 => "Loop Detected"
    case 510 => "Not Extended"
    case 511 => "Network Authentication Required"
    case _ => ""
  }

  /** The message `New` stores: the argument without surrounding white
      space, or the status text when nothing is left of it. */
  function Message(code: int, message: string): (m: string)
    ensures Trimmed(m)
    ensures m == "" <==> AllSpace(message) && StatusText(code) == ""
    ensures !AllSpace(message) ==> m == TrimSpace(message)
    ensures AllSpace(message) ==> m == StatusText(code)
  {
    var trimmed := TrimSpace(message);
    BlankTrimsToEmpty(message);
    if trimmed == "" then StatusText(code) else trimmed
  }

  /** The timestamp after the options: that of the last clock option, else
      the time of construction; nil options (`None`) are skipped. */
  function Stamp(options: seq<Option<ResponseOption>>, now: Time): Time {
    if options == [] then now
    else
      var last := options[|options| - 1];
      if last.Some? then last.value.now else Stamp(options[..|options| - 1], now)
  }

  /** `New(code, message, options...)`, with `now` the reading of
      `time.Now()`. */
  method New(code: int, message: string, options: seq<Option<ResponseOption>>, now: Time)
    returns (r: Response)
    ensures r == Response(code, Message(code, message), Stamp(options, now))
  {
    var text := TrimSpace(message);
    if text == "" {
      text := StatusText(code);
    }
    BlankTrimsToEmpty(message);
    r := Response(code, text, now);
    for i := 0 to |options|
      invariant r == Response(code, Message(code, message), Stamp(options[..i], now))
    {
      assert options[..i + 1][..i] == options[..i];
      if options[i].Some? {
        r := r.(timestamp := options[i].value.now);
      }
    }
    assert options[..|options|] == options;
  }

  /** Without a clock option the timestamp is the time of construction; with
      one, the last clock option decides it. */
  lemma {:induction false} StampIsLastClock(options: seq<Option<ResponseOption>>, now: Time, i: nat)
    requires i < |options| && options[i].Some?
    requires forall j :: i < j < |options| ==> options[j].None?
    ensures Stamp(options, now) == options[i].value.now
    decreases |options|
  {
    if i < |options| - 1 {
      StampIsLastClock(options[..|options| - 1], now, i);
    }
  }

  /** No clock option: the timestamp is the time of construction. */
  lemma {:induction false} StampWithoutClock(options: seq<Option<ResponseOption>>, now: Time)
    requires forall j :: 0 <= j < |options| ==> options[j].None?
    ensures Stamp(options, now) == now
    decreases |options|
  {
    if options != [] {
      StampWithoutClock(options[..|options| - 1], now);
    }
  }
}
