/** The path-parameter middleware (package `middleware`): before the handler
    runs, the path segment under `key` is checked against a pattern; a
    failure answers 400 and stops the request, a success installs the value
    in the request context and forwards the request. */
module Middleware {
  import opened Wrappers
  import opened Strings
  import opened Strconv
  import opened Entity
  import opened RequestContext
  import opened ErrorResponse
  import opened UrlParams

  /** `patternInt`. */
  const PatternInt: string := "[0-9]+"

  /** Go's `regexp.MatchString(pattern, value)`: `None` when the pattern does
      not compile, otherwise whether it matches somewhere in the value. */
  type Engine = (string, string) -> Option<bool>

  /** The value holds a run of one or more ASCII digits: where the pattern
      `[0-9]+` matches, unanchored. */
  ghost predicate HasDigitRun(value: string) {
    exists i, j :: 0 <= i < j <= |value| && AllDigits(value[i..j])
  }

  /** The engine gives `[0-9]+` its RE2 meaning. */
  ghost predicate KnowsPatternInt(engine: Engine) {
    forall value :: engine(PatternInt, value) == Some(HasDigitRun(value))
  }

  /** An unanchored `[0-9]+` matches exactly when some character is a digit. */
  lemma DigitRunIffDigit(value: string)
    ensures HasDigitRun(value) <==> ContainsDigit(value)
  {
    if ContainsDigit(value) {
      var i :| 0 <= i < |value| && IsDigit(value[i]);
      assert AllDigits(value[i..i + 1]);
    }
    if HasDigitRun(value) {
      var i, j :| 0 <= i < j <= |value| && AllDigits(value[i..j]);
      assert IsDigit(value[i..j][0]);
    }
  }

  /** `isValid`: an empty value never passes; a blank pattern lets every
      other value through; otherwise the trimmed pattern must compile and
      match somewhere in the value. */
  function IsValid(value: string, pattern: string, engine: Engine): (b: bool)
    ensures value == "" ==> !b
    ensures value != "" && AllSpace(pattern) ==> b
    ensures value != "" && !AllSpace(pattern) ==> (b <==> engine(TrimSpace(pattern), value) == Some(true))
  {
    BlankTrimsToEmpty(pattern);
    if value == "" then false
    else
      var trimmed := TrimSpace(pattern);
      if trimmed == "" then true
      else
        match engine(trimmed, value)
        case None => false
        case Some(matched) => matched
  }

  /** The handler a `PathParamContext...` middleware wraps around `next`. */
  datatype PathParamMiddleware = PathParamMiddleware(key: string, pattern: string)

  /** `PathParamContextString(key, pattern)`. */
  function PathParamContextString(key: string, pattern: string): (m: PathParamMiddleware)
    ensures m.key == key && m.pattern == pattern
  {
    PathParamMiddleware(key, pattern)
  }

  /** `PathParamContextInt(key)`: the string middleware with `patternInt`. */
  function PathParamContextInt(key: string): (m: PathParamMiddleware)
    ensures m.key == key && m.pattern == PatternInt
  {
    PathParamContextString(key, PatternInt)
  }

  /** The integer middleware accepts exactly the non-empty values holding a
      digit: an unanchored match, so it does not ask for a number. */
  lemma IntMiddlewareAcceptsDigits(key: string, value: string, engine: Engine)
    requires KnowsPatternInt(engine)
    ensures IsValid(value, PathParamContextInt(key).pattern, engine) <==> value != "" && ContainsDigit(value)
  {
    assert Trimmed(PatternInt);
    TrimSpaceOfTrimmed(PatternInt);
    assert !AllSpace(PatternInt) by {
      assert !IsSpace(PatternInt[0]);
    }
    DigitRunIffDigit(value);
  }

  /** "a1" gets past the integer middleware although it is no integer, so
      the handler's later `Int()` fails on it. */
  lemma IntMiddlewareLetsNonNumbersThrough(key: string, engine: Engine)
    requires KnowsPatternInt(engine)
    ensures IsValid("a1", PathParamContextInt(key).pattern, engine)
    ensures Atoi("a1") == None
  {
    IntMiddlewareAcceptsDigits(key, "a1", engine);
    assert IsDigit("a1"[1]);
    assert !IsDigit("a1"[0]);
  }

  /** Every text `Atoi` accepts gets past the integer middleware. */
  lemma IntMiddlewareAcceptsNumbers(key: string, value: string, engine: Engine)
    requires KnowsPatternInt(engine) && Atoi(value).Some?
    ensures IsValid(value, PathParamContextInt(key).pattern, engine)
  {
    IntMiddlewareAcceptsDigits(key, value, engine);
    AtoiHasDigit(value);
  }

  /** What the handler does with a request: answer it with an error, or pass
      it on to `next` (exactly once) with the given context. */
  datatype Dispatch = Rejected(response: Response) | Forwarded(ctx: Context)

  const NotRetrieved: string := " could not be retrieved"

  /** The handler: reads the path segment, rejects it with a 400 whose
      message names the key, or installs it with `SetPathParam` and
      forwards the request. `now` is the reading of `time.Now()`. */
  method Serve(m: PathParamMiddleware, engine: Engine, r: Request, ctx: Option<Context>, now: Time)
    returns (d: Dispatch)
    modifies Existing(ctx, m.key)
    ensures var value := ParsePathParam(r, m.key);
            !IsValid(value, m.pattern, engine) ==>
              && d == Rejected(Response(BadRequest, Message(BadRequest, m.key + NotRetrieved), now))
              && unchanged(Existing(ctx, m.key))
    ensures var value := ParsePathParam(r, m.key);
            IsValid(value, m.pattern, engine) ==>
              && d.Forwarded?
              && m.key in d.ctx.params
              && d.ctx.params[m.key].value == value
              && d.ctx.params[m.key].parsed == None
              && (m.key in Params(ctx) ==> ctx == Some(d.ctx))
              && (m.key !in Params(ctx) ==>
                    && fresh(d.ctx.params[m.key])
                    && d.ctx.params == Params(ctx)[m.key := d.ctx.params[m.key]])
  {
    var value := ParsePathParam(r, m.key);
    if !IsValid(value, m.pattern, engine) {
      var response := New(BadRequest, m.key + NotRetrieved, [], now);
      return Rejected(response);
    }
    var next := SetPathParam(ctx, m.key, value);
    d := Forwarded(next);
  }

  /** The rejection message is "<key> could not be retrieved" verbatim when
      the key does not start with white space (only the key's leading white
      space can be trimmed away). */
  lemma RejectionNamesKey(key: string)
    requires key != "" && !IsSpace(key[0])
    ensures Message(BadRequest, key + NotRetrieved) == key + NotRetrieved
  {
    var s := key + NotRetrieved;
    assert s[|s| - 1] == 'd';
    assert s[0] == key[0];
    TrimSpaceOfTrimmed(s);
    assert !AllSpace(s) by {
      assert !IsSpace(s[|s| - 1]);
    }
  }
}
