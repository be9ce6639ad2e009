/**
 * Guards on the event configuration: a strictly-future date check and the
 * ordered structural checks on the event details object. The clock reading
 * `new Date()` is the parameter `now` (milliseconds since the epoch).
 */
module DateValidation {
  import opened Wrappers
  import opened JsValues

  /** True when `date` is a Date with a real time strictly after `now`. */
  function IsValidFutureDate(date: Value, now: int): (r: bool)
    ensures !date.DateObj? ==> !r
    ensures date == DateObj(None) ==> !r
    ensures date.DateObj? && date.time.Some? ==> (r <==> now < date.time.value)
  {
    if !date.DateObj? || date.time.None? then false
    else date.time.value > now
  }

  /** The failure reported by each guard, in the order the guards run. */
  datatype Rejection = NotAnObject | DateMissingOrInvalid | NameRequired | AddressRequired

  /** `!v || typeof v !== 'object'` fails: only Date objects and plain objects pass. */
  predicate IsObjectLike(v: Value)
    ensures IsObjectLike(v) <==> v.DateObj? || v.Obj?
  {
    Truthy(v) && TypeOf(v) == "object"
  }

  /** `!v || typeof v !== 'string'` fails: only non-empty strings pass. */
  predicate IsRequiredString(v: Value)
    ensures IsRequiredString(v) <==> v.Str? && v.s != ""
  {
    Truthy(v) && TypeOf(v) == "string"
  }

  /** `!v || !isValidFutureDate(v)` fails: only Dates strictly after `now` pass. */
  predicate IsRequiredFutureDate(v: Value, now: int)
    ensures IsRequiredFutureDate(v, now) <==> v.DateObj? && v.time.Some? && v.time.value > now
  {
    Truthy(v) && IsValidFutureDate(v, now)
  }

  /** The first guard that fails, or `None` when every guard passes. */
  function FirstRejection(details: Value, now: int): (r: Option<Rejection>)
    ensures r == Some(NotAnObject) <==> !IsObjectLike(details)
    ensures r == Some(DateMissingOrInvalid) <==>
              IsObjectLike(details) && !IsRequiredFutureDate(Get(details, "date"), now)
    ensures r == Some(NameRequired) <==>
              IsObjectLike(details) && IsRequiredFutureDate(Get(details, "date"), now)
              && !IsRequiredString(Get(details, "name"))
    ensures r == Some(AddressRequired) <==>
              IsObjectLike(details) && IsRequiredFutureDate(Get(details, "date"), now)
              && IsRequiredString(Get(details, "name")) && !IsRequiredString(Get(details, "address"))
  {
    if !IsObjectLike(details) then Some(NotAnObject)
    else if !IsRequiredFutureDate(Get(details, "date"), now) then Some(DateMissingOrInvalid)
    else if !IsRequiredString(Get(details, "name")) then Some(NameRequired)
    else if !IsRequiredString(Get(details, "address")) then Some(AddressRequired)
    else None
  }

  /** Accepted exactly when the details are a plain object whose `date` is a future Date and whose `name` and `address` are non-empty strings. */
  function ValidateEventDetails(details: Value, now: int): (ok: bool)
    ensures ok <==>
              && details.Obj?
              && "date" in details.props && IsValidDate(details.props["date"])
              && details.props["date"].time.value > now
              && "name" in details.props && details.props["name"].Str? && details.props["name"].s != ""
              && "address" in details.props && details.props["address"].Str? && details.props["address"].s != ""
  {
    FirstRejection(details, now).None?
  }
}
