/**
  The `parse_json<T>` strategies the generated commands call: for each field
  type an `is_valid` test on a node, a `parse` that throws when `is_valid` is
  false, and a `format` that builds the node. Only the enum specialisation is
  visible in the code (see SimulatorSubStates); the primitive, array and
  optional specialisations here follow the same guarded-cast shape.
*/
module Codec {
  import opened Wrappers
  import opened Json

  /** The `std::runtime_error("Unexpected value")` a parse raises on an invalid node. */
  datatype DecodeError = UnexpectedValue

  type Decoded<T> = Result<T, DecodeError>

  // ---- int ----

  predicate IntValid(v: Value) {
    IsInt(v)
  }

  function FormatInt(x: int32): (v: Value)
    ensures IntValid(v)
  {
    Int(x as int)
  }

  function ParseInt(v: Value): (r: Decoded<int32>)
    ensures r.Ok? <==> IntValid(v)
    ensures r.Ok? ==> FormatInt(r.value) == v
  {
    if IntValid(v) then Ok(v.i as int32) else Err(UnexpectedValue)
  }

  // ---- bool ----

  predicate BoolValid(v: Value) {
    v.Bool?
  }

  function FormatBool(x: bool): (v: Value)
    ensures BoolValid(v)
  {
    Bool(x)
  }

  function ParseBool(v: Value): (r: Decoded<bool>)
    ensures r.Ok? <==> BoolValid(v)
    ensures r.Ok? ==> FormatBool(r.value) == v
  {
    if BoolValid(v) then Ok(v.b) else Err(UnexpectedValue)
  }

  // ---- string ----

  predicate StringValid(v: Value) {
    v.Str?
  }

  function FormatString(x: string): (v: Value)
    ensures StringValid(v)
  {
    Str(x)
  }

  function ParseString(v: Value): (r: Decoded<string>)
    ensures r.Ok? <==> StringValid(v)
    ensures r.Ok? ==> FormatString(r.value) == v
  {
    if StringValid(v) then Ok(v.s) else Err(UnexpectedValue)
  }

  // ---- double (an opaque token) ----

  /** A floating-point number node; an integer node is taken to fail (an `IsDouble`-style test). */
  predicate DoubleValid(v: Value) {
    v.Number?
  }

  function FormatDouble(x: Double): (v: Value)
    ensures DoubleValid(v)
  {
    Number(x)
  }

  function ParseDouble(v: Value): (r: Decoded<Double>)
    ensures r.Ok? <==> DoubleValid(v)
    ensures r.Ok? ==> FormatDouble(r.value) == v
  {
    if DoubleValid(v) then Ok(v.d) else Err(UnexpectedValue)
  }

  // ---- std::vector<std::string> ----

  /** An array node each of whose elements is a valid string; the empty array is valid. */
  predicate StringArrayValid(v: Value) {
    v.Array? && forall k :: 0 <= k < |v.items| ==> StringValid(v.items[k])
  }

  function FormatStringArray(xs: seq<string>): (v: Value)
    ensures StringArrayValid(v)
    ensures |v.items| == |xs| && forall k :: 0 <= k < |xs| ==> v.items[k] == Str(xs[k])
  {
    Array(seq(|xs|, k requires 0 <= k < |xs| => FormatString(xs[k])))
  }

  function ParseStringArray(v: Value): (r: Decoded<seq<string>>)
    ensures r.Ok? <==> StringArrayValid(v)
    ensures r.Ok? ==> |r.value| == |v.items| && forall k :: 0 <= k < |v.items| ==> v.items[k] == Str(r.value[k])
  {
    if StringArrayValid(v) then Ok(seq(|v.items|, k requires 0 <= k < |v.items| => v.items[k].s))
    else Err(UnexpectedValue)
  }

  // ---- Sdx::optional<std::string> and Sdx::optional<bool> ----
  // An absent optional is a null node: a missing member reads as null, and
  // formatting an absent optional yields null.

  predicate OptionalStringValid(v: Value) {
    v.Null? || StringValid(v)
  }

  function FormatOptionalString(x: Option<string>): (v: Value)
    ensures OptionalStringValid(v)
    ensures v.Null? <==> x.None?
  {
    match x
    case None => Null
    case Some(s) => FormatString(s)
  }

  function ParseOptionalString(v: Value): (r: Decoded<Option<string>>)
    ensures r.Ok? <==> OptionalStringValid(v)
    ensures r.Ok? ==> FormatOptionalString(r.value) == v
  {
    if v.Null? then Ok(None)
    else match ParseString(v)
      case Ok(s) => Ok(Some(s))
      case Err(e) => Err(e)
  }

  predicate OptionalBoolValid(v: Value) {
    v.Null? || BoolValid(v)
  }

  function FormatOptionalBool(x: Option<bool>): (v: Value)
    ensures OptionalBoolValid(v)
    ensures v.Null? <==> x.None?
  {
    match x
    case None => Null
    case Some(b) => FormatBool(b)
  }

  function ParseOptionalBool(v: Value): (r: Decoded<Option<bool>>)
    ensures r.Ok? <==> OptionalBoolValid(v)
    ensures r.Ok? ==> FormatOptionalBool(r.value) == v
  {
    if v.Null? then Ok(None)
    else match ParseBool(v)
      case Ok(b) => Ok(Some(b))
      case Err(e) => Err(e)
  }

  // ---- round trips: parse(format(x)) == x ----

  lemma ScalarRoundTrips(i: int32, b: bool, s: string, d: Double)
    ensures ParseInt(FormatInt(i)) == Ok(i)
    ensures ParseBool(FormatBool(b)) == Ok(b)
    ensures ParseString(FormatString(s)) == Ok(s)
    ensures ParseDouble(FormatDouble(d)) == Ok(d)
  {
  }

  lemma StringArrayRoundTrip(xs: seq<string>)
    ensures ParseStringArray(FormatStringArray(xs)) == Ok(xs)
  {
    var r := ParseStringArray(FormatStringArray(xs));
    assert r.Ok?;
    assert |r.value| == |xs|;
    assert forall k :: 0 <= k < |xs| ==> r.value[k] == xs[k];
    assert r.value == xs;
  }

  lemma OptionalRoundTrips(s: Option<string>, b: Option<bool>)
    ensures ParseOptionalString(FormatOptionalString(s)) == Ok(s)
    ensures ParseOptionalBool(FormatOptionalBool(b)) == Ok(b)
  {
  }
}
