/** The request-scoped path parameters (package `reqctx`): a `PathParam` cell
    holds the raw text of a path segment and lazily caches its integer
    value; a request context maps each key to a cell it shares by reference,
    so that setting a key a second time updates the cell in place. */
module RequestContext {
  import opened Wrappers
  import opened Strconv

  class PathParam {
    var value: string
    /** The `parsed` cache. The source keys it by `reflect.Kind`, and only
        `reflect.Int` is ever stored, so it is an optional integer here; a
        nil map and a map without that key are both `None`. */
    var parsed: Option<int>

    /** `&PathParam{value: value}`: a fresh cell with an empty cache. */
    constructor (value: string)
      ensures this.value == value && parsed == None
    {
      this.value := value;
      parsed := None;
    }

    /** The cache never disagrees with the raw text. */
    ghost predicate Coherent()
      reads this
    {
      parsed.Some? ==> Atoi(value) == Some(parsed.value)
    }

    /** `String`: the raw text, verbatim. */
    function String(): (s: string)
      reads this
      ensures s == value
    {
      value
    }

    /** `Int`: the cached integer if there is one; otherwise the text is
        parsed, and a success is cached while a failure caches nothing and
        reports `ErrNotFound` with 0. */
    method Int() returns (n: int, err: Option<Error>)
      modifies this
      ensures value == old(value)
      ensures old(parsed).Some? ==> parsed == old(parsed) && n == parsed.value && err == None
      ensures old(parsed).None? && Atoi(value).None? ==>
                parsed == None && n == 0 && err == Some(NotFound)
      ensures old(parsed).None? && Atoi(value).Some? ==>
                parsed == Atoi(value) && n == Atoi(value).value && err == None
      ensures old(Coherent()) ==>
                && Coherent()
                && (err == None <==> Atoi(value) == Some(n))
                && (err != None ==> n == 0 && err == Some(NotFound))
    {
      if parsed.Some? {
        return parsed.value, None;
      }
      var r := Atoi(value);
      if r.None? {
        return 0, Some(NotFound);
      }
      parsed := Some(r.value);
      n, err := r.value, None;
    }
  }

  /** A non-nil `context.Context`, as far as path parameters go: the cell
      each key leads to. A nil context is `None` of `Option<Context>`. */
  datatype Context = Context(params: map<string, PathParam>)

  /** No two keys share a cell: every cell of a context was allocated by
      the `SetPathParam` that first installed its key. */
  ghost predicate DistinctCells(ctx: Context) {
    forall k1, k2 :: k1 in ctx.params && k2 in ctx.params && k1 != k2 ==>
      ctx.params[k1] != ctx.params[k2]
  }

  /** The cells a context carries (none for a nil context). */
  function Params(ctx: Option<Context>): map<string, PathParam> {
    if ctx.Some? then ctx.value.params else map[]
  }

  /** The cell `SetPathParam` updates in place, if the key is already set. */
  function Existing(ctx: Option<Context>, key: string): set<PathParam> {
    if key in Params(ctx) then {Params(ctx)[key]} else {}
  }

  /** `SetPathParam`: when the context already holds the key, its cell takes
      the new text, its cache is cleared and the same context comes back;
      otherwise (a nil context counting as empty) the result carries every
      earlier key plus a fresh cell for this one. */
  method SetPathParam(ctx: Option<Context>, key: string, value: string) returns (r: Context)
    modifies Existing(ctx, key)
    ensures key in r.params && r.params[key].value == value && r.params[key].parsed == None
    ensures key in Params(ctx) ==> ctx == Some(r)
    ensures key !in Params(ctx) ==>
              && fresh(r.params[key])
              && r.params == Params(ctx)[key := r.params[key]]
    ensures ctx.Some? && DistinctCells(ctx.value) ==> DistinctCells(r)
    ensures forall k :: k in Params(ctx) && k != key && DistinctCells(Context(Params(ctx))) ==>
              && k in r.params && r.params[k] == Params(ctx)[k]
              && r.params[k].value == old(Params(ctx)[k].value)
              && r.params[k].parsed == old(Params(ctx)[k].parsed)
  {
    var base := Params(ctx);
    if key in base {
      var param := base[key];
      param.value := value;
      param.parsed := None;
      return ctx.value;
    }
    var param := new PathParam(value);
    r := Context(base[key := param]);
  }

  /** `GetPathParam`: a copy of the cell stored under the key (a new object,
      so that `Int` on it fills the copy's cache only), or a zero cell and
      `ErrNotFound` for a nil context or a missing key. */
  method GetPathParam(ctx: Option<Context>, key: string) returns (param: PathParam, err: Option<Error>)
    ensures fresh(param)
    ensures key in Params(ctx) ==>
              && err == None
              && param.value == Params(ctx)[key].value
              && param.parsed == Params(ctx)[key].parsed
    ensures key !in Params(ctx) ==> err == Some(NotFound) && param.value == "" && param.parsed == None
  {
    var cells := Params(ctx);
    if key !in cells {
      param := new PathParam("");
      return param, Some(NotFound);
    }
    param := new PathParam(cells[key].value);
    param.parsed := cells[key].parsed;
    err := None;
  }

  /** Setting a key that is already present, then reading it back through
      the context returned the first time: the reader sees the new text and
      its new integer, and both calls returned the same context. */
  method ResetKeyScenario() returns (first: int, second: int, sameContext: bool)
    ensures first == 127 && second == 10 && sameContext
  {
    var ctx := SetPathParam(None, "id", "127");
    var p, err := GetPathParam(Some(ctx), "id");
    assert p.value == "127" && p.parsed == None;
    assert DigitsValue("127") == 127 by {
      assert "127"[..2] == "12" && "12"[..1] == "1";
    }
    first, err := p.Int();
    var ctx' := SetPathParam(Some(ctx), "id", "10");
    sameContext := ctx' == ctx;
    var q, err' := GetPathParam(Some(ctx), "id");
    assert q.value == "10" && q.parsed == None;
    assert DigitsValue("10") == 10 by {
      assert "10"[..1] == "1";
    }
    second, err' := q.Int();
  }
}
