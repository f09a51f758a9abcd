/** The query-string coercions the routes' schemas apply: bounded integer
    limits with defaults, optional numbers, and the `includePending` flag. */
module QueryParams {
  import opened Common

  /** A numeric query parameter after JavaScript's `Number(…)` coercion:
      absent, a number, or NaN. */
  datatype QueryNum = Absent | Num(x: real) | NotANumber

  /** `z.coerce.number().int().min(lo).max(hi).optional().default(d)`. */
  function Limit(q: QueryNum, lo: nat, hi: nat, d: nat): (r: Reply<nat>)
    requires lo <= d <= hi
    ensures r.Ok? || r.BadRequest?
    ensures r.Ok? ==> lo <= r.body <= hi
    ensures q.Absent? ==> r == Ok(d)
    ensures q.Num? ==> (r.Ok? <==> q.x.Floor as real == q.x && lo as real <= q.x <= hi as real)
    ensures q.Num? && r.Ok? ==> r.body as real == q.x
    ensures q.NotANumber? ==> r == BadRequest
  {
    match q
    case Absent => Ok(d)
    case NotANumber => BadRequest
    case Num(x) =>
      if x.Floor as real == x && lo as real <= x <= hi as real then Ok(x.Floor as nat) else BadRequest
  }

  /** `z.coerce.number().optional()`, absent passed on as `null`. */
  function OptNumber(q: QueryNum): (r: Reply<Option<real>>)
    ensures r.Ok? || r.BadRequest?
    ensures r.Ok? <==> !q.NotANumber?
    ensures q.Absent? ==> r == Ok(None)
    ensures q.Num? ==> r == Ok(Some(q.x))
  {
    match q
    case Absent => Ok(None)
    case NotANumber => BadRequest
    case Num(x) => Ok(Some(x))
  }

  /** `z.coerce.number().int().optional()`, absent passed on as `null`. */
  function OptInt(q: QueryNum): (r: Reply<Option<int>>)
    ensures r.Ok? || r.BadRequest?
    ensures r.Ok? <==> q.Absent? || (q.Num? && q.x.Floor as real == q.x)
    ensures q.Absent? ==> r == Ok(None)
    ensures r.Ok? && q.Num? ==> r.body.Some? && r.body.value as real == q.x
  {
    match q
    case Absent => Ok(None)
    case NotANumber => BadRequest
    case Num(x) => if x.Floor as real == x then Ok(Some(x.Floor)) else BadRequest
  }

  /** `includePending` as the routes read it: `z.coerce.boolean()` is
      JavaScript's `Boolean(…)` of the query string, true for every non-empty
      string, `false` and `0` included, and false when the value is absent. */
  function CoerceBoolean(s: Option<string>): (b: bool)
    ensures b <==> s.Some? && s.value != ""
  {
    s.Some? && s.value != ""
  }

  /** As written, `?includePending=false` includes pending claims. */
  lemma FalseFlagIncludesPending()
    ensures CoerceBoolean(Some("false")) == true && CoerceBoolean(Some("0")) == true
  {
  }

  /** `includePending` as intended: the words `false` and `0` switch it
      off like an absent or empty value; any other value switches it on. */
  function ParseFlag(s: Option<string>): (b: bool)
    ensures s.None? ==> !b
  {
    s.Some? && s.value != "" && s.value != "false" && s.value != "0"
  }

  /** The intended flag reads `true` and `false` as written and differs from
      the coercion exactly on `false` and `0`. */
  lemma ParseFlagIntended(s: Option<string>)
    ensures ParseFlag(Some("true")) && !ParseFlag(Some("false")) && !ParseFlag(Some("0"))
    ensures ParseFlag(s) != CoerceBoolean(s) <==> s == Some("false") || s == Some("0")
  {
  }
}
