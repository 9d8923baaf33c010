/**
 * Validated header readers (`packages/web/src/typed_headers.ts`). A missing,
 * empty or invalid header reads as `null`; the validation error is caught,
 * so neither reader can throw (their results are options, not results).
 */
module TypedHeaders {
  import opened JsValue
  import opened Router
  import opened Constructors
  import opened JsString

  /** `getApiKey(req)`: the `x-api-key` header if `ApiKeyFrom` accepts it. */
  function GetApiKey(req: Request): (r: Option<ApiKey>)
    ensures r.Some? <==> "x-api-key" in req.headers && Utf16Length(req.headers["x-api-key"]) >= 3
    ensures r.Some? ==> r.value == req.headers["x-api-key"]
  {
    match Header(req, "x-api-key")
    case None => None
    case Some(raw) =>
      if raw == "" then None
      else match ApiKeyFrom(raw)
        case Ok(k) => Some(k)
        case Err(_) => None
  }

  /** `getIdemKey(req)`: the `idempotency-key` header if `IdempotencyKeyFrom` accepts it. */
  function GetIdemKey(req: Request): (r: Option<IdempotencyKey>)
    ensures r.Some? <==> "idempotency-key" in req.headers && Utf16Length(req.headers["idempotency-key"]) >= 8
    ensures r.Some? ==> r.value == req.headers["idempotency-key"]
  {
    match Header(req, "idempotency-key")
    case None => None
    case Some(raw) =>
      if raw == "" then None
      else match IdempotencyKeyFrom(raw)
        case Ok(k) => Some(k)
        case Err(_) => None
  }
}
