/** The Python values that flow through the message bodies: what json.loads returns for
    a body, what a pydantic model_dump() hands to json.dumps, and which of them
    json.dumps accepts. */
module PyValues {

  import opened Wrappers
  import opened Decimals

  /** One value of a flat dict.  Times are integer instants (microseconds).

      In a message body that pydantic validates, a JSON string has exactly one
      representation: text that is datetime.isoformat() of some instant is PyIsoText,
      text that is str() of some Decimal is PyDecimalText, and PyStr holds every other
      string, never isoformat() or str(Decimal) text.  Outside message bodies (the auth
      service's passwords and JWT claims, the gateway's headers and user payload) no
      field is coerced to a datetime or a Decimal, and every str is a PyStr. */
  datatype PyValue =
    | PyNone
    | PyBool(b: bool)
    | PyInt(i: int)
    | PyFloat(f: Decimal)          // a float; its binary rounding is not modelled
    | PyStr(s: string)
    | PyIsoText(t: int)            // a str holding datetime.isoformat() of instant t
    | PyDecimalText(d: Decimal)    // a str holding str(d) for a Decimal d
    | PyNested                     // a list or dict value; its content is not modelled
    | PyDecimal(d: Decimal)        // a decimal.Decimal object
    | PyDateTime(t: int)           // a datetime.datetime object

  /** json.loads(body.decode()): a body that is not UTF-8 JSON raises; a JSON document
      is either an object (a dict) or some other value. */
  datatype Loaded = Malformed | Dict(fields: map<string, PyValue>) | NotDict

  /** json.dumps with the default encoder accepts str, int, float, bool, None, list and
      dict, and raises TypeError for a Decimal or datetime object. */
  predicate Encodable(v: PyValue) {
    !v.PyDecimal? && !v.PyDateTime?
  }

  /** json.dumps(fields) succeeds. */
  predicate JsonDumpsOk(fields: map<string, PyValue>) {
    forall k :: k in fields ==> Encodable(fields[k])
  }

  // ---- pydantic's coercions for the field types used here ----

  /** An `int` field in lax mode: an int, a bool, or a float with no fractional part. */
  function AsInt(v: PyValue): Option<int>
  {
    match v
    case PyInt(i) => Some(i)
    case PyBool(b) => Some(if b then 1 else 0)
    case PyFloat(f) =>
      (match CentsOf(f)
       case Some(c) => if c % 100 == 0 then Some(c / 100) else None
       case None => None)
    case _ => None
  }

  /** A `Decimal` field: an int, a float, a Decimal, or the text of a decimal. */
  function AsDecimal(v: PyValue): Option<Decimal>
  {
    match v
    case PyInt(i) => Some(Decimal(i < 0, if i < 0 then -i else i, 0))
    case PyFloat(f) => Some(f)
    case PyDecimal(d) => Some(d)
    case PyDecimalText(d) => Some(d)
    case _ => None
  }

  /** Beyond this magnitude pydantic reads a Unix timestamp as milliseconds, not seconds. */
  const MS_WATERSHED: nat := 20_000_000_000

  /** An int Unix timestamp as an instant: seconds, or milliseconds when its magnitude
      exceeds the watershed. */
  function IntTimestamp(t: int): int
  {
    if -(MS_WATERSHED as int) <= t <= MS_WATERSHED as int then t * 1_000_000 else t * 1000
  }

  /** A float Unix timestamp: a whole value is read as the int it equals, and a
      non-negative number of seconds below the watershed with at most six decimals is
      read exactly.  Other floats are refused here (see README, "Left out"). */
  function FloatTimestamp(f: Decimal): Option<int>
  {
    match ScaledOf(f, 0)
    case Some(t) => Some(IntTimestamp(t))
    case None => if !f.negative && !MagnitudeAbove(f, MS_WATERSHED) then ScaledOf(f, 6) else None
  }

  /** A `datetime` field in lax mode: a datetime, an ISO-8601 str, or a Unix timestamp
      given as an int or a float (a bool is refused). */
  function AsTime(v: PyValue): Option<int>
  {
    match v
    case PyIsoText(t) => Some(t)
    case PyDateTime(t) => Some(t)
    case PyInt(t) => Some(IntTimestamp(t))
    case PyFloat(f) => FloatTimestamp(f)
    case _ => None
  }

  /** A float holding a whole number is the same instant as that int. */
  lemma WholeFloatTimestamp(t: int)
    ensures AsTime(PyFloat(Decimal(t < 0, if t < 0 then -t else t, 0))) == AsTime(PyInt(t))
  {
    assert Pow10(0) == 1;
  }

  /** Below the watershed a non-negative float of seconds with at most six decimals is
      its value in microseconds, whether or not it is whole. */
  lemma {:induction false} SecondsTimestamp(f: Decimal)
    requires !f.negative && !MagnitudeAbove(f, MS_WATERSHED) && ScaledOf(f, 6).Some?
    ensures AsTime(PyFloat(f)) == ScaledOf(f, 6)
  {
    match ScaledOf(f, 0)
    case None =>
    case Some(t) =>
      ScaledShift(f, 6);
      WholeBelow(f, MS_WATERSHED);
  }

  /** A whole value scales by powers of ten. */
  lemma ScaledShift(d: Decimal, k: nat)
    requires ScaledOf(d, 0).Some?
    ensures ScaledOf(d, k) == Some(ScaledOf(d, 0).value * Pow10(k))
  {
    var m := ScaledMagnitude(d.coefficient, d.exponent, 0).value;
    var pk := Pow10(k);
    if d.exponent >= 0 {
      WholeShift(d.coefficient, d.exponent, k);
    } else if d.exponent + k >= 0 {
      FractionShiftWhole(d.coefficient, d.exponent, k);
    } else {
      FractionShiftFraction(d.coefficient, d.exponent, k);
    }
    NegateProduct(m, pk);
  }

  lemma NegateProduct(m: int, p: int)
    ensures -m * p == -(m * p)
  {
  }

  lemma Associate(a: nat, b: nat, c: nat)
    ensures a * (b * c) == a * b * c
  {
  }

  lemma WholeShift(c: nat, e: nat, k: nat)
    ensures ScaledMagnitude(c, e, k) == Some(ScaledMagnitude(c, e, 0).value * Pow10(k))
  {
    var pe, pk := Pow10(e), Pow10(k);
    assert e + 0 == e;
    Pow10Add(e, k);
    Associate(c, pe, pk);
  }

  lemma FractionShiftWhole(c: nat, e: int, k: nat)
    requires e < 0 && e + k >= 0 && c % Pow10(-e) == 0
    ensures ScaledMagnitude(c, e, k) == Some(ScaledMagnitude(c, e, 0).value * Pow10(k))
  {
    var p := Pow10(-e);
    var q := c / p;
    var pr := Pow10(e + k);
    assert -e - 0 == -e;
    assert c == q * p;
    Pow10Add(e + k, -e);
    Associate(q, pr, p);
    assert q * Pow10(k) == q * (pr * p) == (q * p) * pr;
  }

  lemma FractionShiftFraction(c: nat, e: int, k: nat)
    requires e + k < 0 && c % Pow10(-e) == 0
    ensures ScaledMagnitude(c, e, k) == Some(ScaledMagnitude(c, e, 0).value * Pow10(k))
  {
    var p := Pow10(-e);
    var q := c / p;
    var r := Pow10(-e - k);
    var pk := Pow10(k);
    assert -e - 0 == -e;
    assert c == q * p;
    Pow10Add(-e - k, k);
    Associate(q, r, pk);
    assert c == r * (q * pk) + 0;
    DivModUnique(c, r, q * pk, 0);
  }

  /** A non-negative whole value no greater than n in magnitude. */
  lemma WholeBelow(d: Decimal, n: nat)
    requires !d.negative && ScaledOf(d, 0).Some? && !MagnitudeAbove(d, n)
    ensures 0 <= ScaledOf(d, 0).value <= n
  {
    if d.exponent < 0 {
      var p := Pow10(-d.exponent);
      assert d.coefficient == d.coefficient / p * p;
    }
  }

  /** A `str` field. */
  function AsStr(v: PyValue): Option<string>
  {
    match v
    case PyStr(s) => Some(s)
    case _ => None
  }

  /** The value a required field takes, if the key is present and coerces. */
  function Field<T>(fields: map<string, PyValue>, key: string, coerce: PyValue -> Option<T>): Option<T>
  {
    if key in fields then coerce(fields[key]) else None
  }
}
