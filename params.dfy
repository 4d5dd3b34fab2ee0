/** The older parameter readers (package `common`): integers come back with
    -1 standing for "absent or not a number", booleans as in
    `UrlParams.ParseQueryFlag`. */
module CommonParams {
  import opened Wrappers
  import opened Strings
  import opened Strconv
  import opened UrlParams

  /** `toInt`: the value `Atoi` reads after lower-casing, or -1 when it reads
      none. Lower-casing cannot turn a rejected text into an accepted one or
      change the value, so this is `Atoi` of the text itself. */
  function ToInt(s: string): (n: int)
    ensures Atoi(s).Some? ==> n == Atoi(s).value
    ensures Atoi(s).None? ==> n == -1
  {
    AtoiIgnoresCase(s);
    match Atoi(ToLower(s))
    case None => -1
    case Some(v) => v
  }

  /** `toBool`: a case-insensitive boolean spelling gives its value; any
      other text gives true exactly when it is empty. */
  function ToBool(s: string): (b: bool)
    ensures b <==> s == "" || ToLower(s) in TrueSpellings
  {
    ParseBoolLowered(s);
    match ParseBool(ToLower(s))
    case None => |s| == 0
    case Some(v) => v
  }

  /** `GetPathParamInt`: `toInt` of the path segment; a missing parameter
      reads as "" and so gives -1, as does a segment that is no number. */
  function GetPathParamInt(r: Request, key: string): (n: int)
    ensures key !in r.route ==> n == -1
    ensures key in r.route && Atoi(r.route[key]).Some? ==> n == Atoi(r.route[key]).value
    ensures key in r.route && Atoi(r.route[key]).None? ==> n == -1
  {
    ToInt(ParsePathParam(r, key))
  }

  /** `GetQueryParamInt`: `toInt` of the first query value (or of ""). */
  function GetQueryParamInt(r: Request, key: string): (n: int)
    ensures ParseQueryParam(r, key) == "" ==> n == -1
    ensures Atoi(ParseQueryParam(r, key)).None? ==> n == -1
    ensures Atoi(ParseQueryParam(r, key)).Some? ==> n == Atoi(ParseQueryParam(r, key)).value
  {
    ToInt(Get(r.query, key))
  }

  /** `GetQueryParamBool`: false when the key is absent, else `toBool` of its
      first value. */
  function GetQueryParamBool(r: Request, key: string): (b: bool)
    ensures !Has(r.query, key) ==> !b
    ensures Has(r.query, key) ==> b == ToBool(Get(r.query, key))
  {
    if !Has(r.query, key) then false else ToBool(Get(r.query, key))
  }

  /** The two boolean readers agree on every request and key. */
  lemma QueryBoolAgreesWithFlag(r: Request, key: string)
    ensures GetQueryParamBool(r, key) == ParseQueryFlag(r, key)
  {
  }

  /** The -1 sentinel is ambiguous: the text "-1" and a text that is no
      number at all read the same. */
  lemma SentinelIsAmbiguous()
    ensures ToInt("-1") == ToInt("x") == -1
    ensures Atoi("-1") == Some(-1) && Atoi("x") == None
  {
    assert "-1"[1..] == "1" && "1"[..0] == "";
    assert !IsDigit("x"[0]);
  }
}
