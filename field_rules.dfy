/**
 * The zod field schemas the validators are built from. Each rule takes the
 * value found under one key (`None` when the key is absent) and returns the
 * messages of the issues zod reports for it, in the order zod reports them:
 * a wrong type gives one issue and stops; otherwise every check of the chain
 * runs and each failing one adds its message.
 */
module FieldRules {
  import opened Wrappers
  import opened Json
  import Text

  /**
   * The "invalid_type" issue: the schema's `required_error` (or zod's
   * "Required") for an absent value, otherwise "Expected ..., received ...".
   */
  function TypeIssue(v: Option<Value>, expected: string, requiredError: Option<string>): (m: string)
    ensures v.None? && requiredError.Some? ==> m == requiredError.value
    ensures v.None? && requiredError.None? ==> m == "Required"
  {
    match v
    case None => requiredError.GetOr("Required")
    case Some(x) => "Expected " + expected + ", received " + TypeName(x)
  }

  predicate IsStringOfLength(v: Option<Value>, minLength: nat) {
    v.Some? && v.value.Str? && |v.value.s| >= minLength
  }

  /** `z.string({ required_error }).min(minLength, message)`. */
  function StringRule(v: Option<Value>, minLength: nat, message: string, requiredError: Option<string>): (issues: seq<string>)
    ensures issues == [] <==> IsStringOfLength(v, minLength)
    ensures |issues| <= 1
    ensures v.Some? && v.value.Str? && |v.value.s| < minLength ==> issues == [message]
    ensures v.None? ==> issues == [requiredError.GetOr("Required")]
  {
    match v
    case Some(Str(s)) => if |s| >= minLength then [] else [message]
    case _ => [TypeIssue(v, "string", requiredError)]
  }

  /** `z.string().email({ message })`, with the well-formedness test as a parameter. */
  function EmailRule(v: Option<Value>, isEmail: string -> bool, message: string): (issues: seq<string>)
    ensures issues == [] <==> v.Some? && v.value.Str? && isEmail(v.value.s)
    ensures |issues| <= 1
    ensures v.Some? && v.value.Str? && !isEmail(v.value.s) ==> issues == [message]
  {
    match v
    case Some(Str(s)) => if isEmail(s) then [] else [message]
    case _ => [TypeIssue(v, "string", None)]
  }

  predicate IsValidDate(v: Option<Value>) {
    v.Some? && v.value.DateObj? && v.value.time.Some?
  }

  /** `z.date({ required_error })`: a `Date` instance whose time is not NaN. */
  function DateRule(v: Option<Value>, requiredError: Option<string>): (issues: seq<string>)
    ensures issues == [] <==> IsValidDate(v)
    ensures |issues| <= 1
    ensures v == Some(DateObj(None)) ==> issues == ["Invalid date"]
  {
    match v
    case Some(DateObj(Some(_))) => []
    case Some(DateObj(None)) => ["Invalid date"]
    case _ => [TypeIssue(v, "date", requiredError)]
  }

  /** `'M' | 'F' | 'O'`, the way zod lists enumeration options. */
  function Options(allowed: seq<string>): string {
    Text.Join(seq(|allowed|, i requires 0 <= i < |allowed| => "'" + allowed[i] + "'"), " | ")
  }

  predicate IsOneOf(v: Option<Value>, allowed: seq<string>) {
    v.Some? && v.value.Str? && v.value.s in allowed
  }

  /** `z.enum(allowed, { required_error })`. */
  function EnumRule(v: Option<Value>, allowed: seq<string>, requiredError: Option<string>): (issues: seq<string>)
    ensures issues == [] <==> IsOneOf(v, allowed)
    ensures |issues| <= 1
  {
    match v
    case Some(Str(s)) =>
      if s in allowed then []
      else ["Invalid enum value. Expected " + Options(allowed) + ", received '" + s + "'"]
    case _ => [TypeIssue(v, Options(allowed), requiredError)]
  }

  predicate IsIntegerAtLeast(v: Option<Value>, least: int) {
    v.Some? && v.value.Num? && IsInteger(v.value.x) && v.value.x >= least as real
  }

  /**
   * `z.number().int().min(least, { message })` (`.nonnegative` is `min(0)`):
   * both the integer check and the bound are reported when both fail.
   */
  function IntegerRule(v: Option<Value>, least: int, message: string): (issues: seq<string>)
    ensures issues == [] <==> IsIntegerAtLeast(v, least)
    ensures v.Some? && v.value.Num? && v.value.x < least as real ==> message in issues
    ensures v.Some? && v.value.Num? && IsInteger(v.value.x) && v.value.x < least as real ==> issues == [message]
  {
    match v
    case Some(Num(x)) =>
      (if IsInteger(x) then [] else ["Expected integer, received float"])
      + (if x >= least as real then [] else [message])
    case _ => [TypeIssue(v, "number", None)]
  }
}
