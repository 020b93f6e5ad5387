/** The order service's API records (order_service/src/models/order_dto.py): the
    OrderCreate request with the constraints of OrderBase, and the OrderResponse.

    Validation follows pydantic: every field is checked and every failing field is
    reported (FastAPI answers 422 with the list); within one field only the first
    failing constraint is reported, in the order the decimal validator checks them. */
module OrderDto {

  import opened Wrappers
  import opened Decimals
  import opened PyValues

  /** user_id: Field(..., ge=1). */
  const USER_ID_MIN := 1
  /** amount: condecimal(gt=0, max_digits=10, decimal_places=2). */
  const MAX_DIGITS := 10
  const DECIMAL_PLACES := 2

  /** OrderCreate adds no field to OrderBase. */
  datatype OrderCreate = OrderCreate(userId: int, amount: Decimal)

  const DEFAULT_MESSAGE := "OK"

  datatype OrderResponse = OrderResponse(orderId: int, createdAt: int, message: string)

  /** OrderResponse(...) with `message` left out or given. */
  function NewOrderResponse(orderId: int, createdAt: int, message: Option<string>): (r: OrderResponse)
    ensures r.orderId == orderId && r.createdAt == createdAt
    ensures r.message == (if message.Some? then message.value else "OK")
  {
    OrderResponse(orderId, createdAt, if message.Some? then message.value else DEFAULT_MESSAGE)
  }

  /** pydantic's error types for the checks that apply here. */
  datatype ErrorKind =
    | JsonInvalid | ModelAttributesType | Missing
    | IntParsing | GreaterThanEqual
    | DecimalParsing | DecimalMaxDigits | DecimalMaxPlaces | DecimalWholeDigits | GreaterThan

  datatype FieldError = FieldError(loc: string, kind: ErrorKind)

  /** The first constraint of the amount field a Decimal breaks: the digit checks on
      the normalized value come first, the bound gt=0 last. */
  function AmountError(d: Decimal): Option<ErrorKind>
  {
    var c := CountDigits(d);
    var whole := if c.digits >= c.decimals then c.digits - c.decimals else 0;
    if c.digits > MAX_DIGITS then Some(DecimalMaxDigits)
    else if c.decimals > DECIMAL_PLACES then Some(DecimalMaxPlaces)
    else if whole > MAX_DIGITS - DECIMAL_PLACES then Some(DecimalWholeDigits)
    else if !IsPositive(d) then Some(GreaterThan)
    else None
  }

  function UserIdError(f: map<string, PyValue>): Option<ErrorKind>
  {
    if "user_id" !in f then Some(Missing)
    else match AsInt(f["user_id"])
      case None => Some(IntParsing)
      case Some(i) => if i < USER_ID_MIN then Some(GreaterThanEqual) else None
  }

  function AmountFieldError(f: map<string, PyValue>): Option<ErrorKind>
  {
    if "amount" !in f then Some(Missing)
    else match AsDecimal(f["amount"])
      case None => Some(DecimalParsing)
      case Some(d) => AmountError(d)
  }

  function Report(loc: string, e: Option<ErrorKind>): seq<FieldError>
  {
    if e.Some? then [FieldError(loc, e.value)] else []
  }

  /** The body of POST /orders validated as OrderCreate. */
  function ValidateOrderCreate(body: Loaded): (r: Result<OrderCreate, seq<FieldError>>)
    ensures r.Ok? <==> body.Dict? && UserIdError(body.fields).None? && AmountFieldError(body.fields).None?
    ensures r.Ok? ==> && AsInt(body.fields["user_id"]) == Some(r.value.userId)
                      && AsDecimal(body.fields["amount"]) == Some(r.value.amount)
    ensures r.Err? ==> r.error != []
  {
    match body
    case Malformed => Err([FieldError("body", JsonInvalid)])
    case NotDict => Err([FieldError("body", ModelAttributesType)])
    case Dict(f) =>
      var errors := Report("user_id", UserIdError(f)) + Report("amount", AmountFieldError(f));
      if errors != [] then Err(errors)
      else Ok(OrderCreate(AsInt(f["user_id"]).value, AsDecimal(f["amount"]).value))
  }

  // ---- what the constraints mean ----

  lemma MulPositive(x: int, y: int)
    requires x >= 1 && y >= 1
    ensures x * y >= 1
  {
  }

  /** The decimal checks on a normalized positive value with exponent >= -2: they pass
      exactly when the value is below 10^8, that is when its hundredths are below 10^10. */
  lemma ShortAmount(n: Decimal)
    requires n.coefficient >= 1 && n.exponent >= -2
    ensures var c := CountDigits(n);
            n == Normalize(n) ==>
              ((c.digits <= MAX_DIGITS && c.decimals <= DECIMAL_PLACES
                && (if c.digits >= c.decimals then c.digits - c.decimals else 0) <= MAX_DIGITS - DECIMAL_PLACES)
               <==> n.coefficient * Pow10(n.exponent + 2) < Pow10(10))
  {
    var shifted := n.coefficient * Pow10(n.exponent + 2);
    NumDigitsShift(n.coefficient, n.exponent + 2);
    NumDigitsBound(shifted, 10);
  }

  /** A value whose normalized exponent is below -2 has no whole number of hundredths. */
  lemma LongFraction(n: Decimal)
    requires n.coefficient >= 1 && n.exponent < -2 && n.coefficient % 10 != 0
    ensures CentsOf(n) == None
  {
    MultipleOfPow10EndsInZero(n.coefficient, -n.exponent - 2);
  }

  /** The amount constraints hold exactly when the amount is a whole number of cents
      strictly between 0 and 10^10, i.e. a positive value below 10^8 with at most two
      decimals. */
  lemma AmountAccepted(d: Decimal)
    ensures AmountError(d).None? <==> (CentsOf(d).Some? && 0 < CentsOf(d).value < Pow10(10))
  {
    var n := Normalize(d);
    NormalizeKeepsCents(d);
    assert CountDigits(d) == CountDigits(n);
    if n.coefficient == 0 {
      assert CentsOf(n) == Some(0);
    } else if n.exponent < -2 {
      LongFraction(n);
    } else {
      assert Normalize(n) == n;
      ShortAmount(n);
      MulPositive(n.coefficient, Pow10(n.exponent + 2));
      if n.negative {
        assert AmountError(d).Some?;
      }
    }
  }

  /** OrderCreate accepts exactly the bodies with an int user_id of at least 1 and an
      amount of whole cents in (0, 10^10). */
  lemma AcceptedExactly(f: map<string, PyValue>)
    ensures ValidateOrderCreate(Dict(f)).Ok? <==>
              && "user_id" in f && AsInt(f["user_id"]).Some? && AsInt(f["user_id"]).value >= 1
              && "amount" in f && AsDecimal(f["amount"]).Some?
              && var c := CentsOf(AsDecimal(f["amount"]).value);
                 c.Some? && 0 < c.value < Pow10(10)
  {
    if "amount" in f && AsDecimal(f["amount"]).Some? {
      AmountAccepted(AsDecimal(f["amount"]).value);
    }
  }

  /** A bad user_id and a bad amount are both reported, user_id first. */
  lemma BothFieldsReported(f: map<string, PyValue>)
    requires UserIdError(f).Some? && AmountFieldError(f).Some?
    ensures ValidateOrderCreate(Dict(f)) ==
              Err([FieldError("user_id", UserIdError(f).value), FieldError("amount", AmountFieldError(f).value)])
  {
    assert Report("user_id", UserIdError(f)) == [FieldError("user_id", UserIdError(f).value)];
    assert Report("amount", AmountFieldError(f)) == [FieldError("amount", AmountFieldError(f).value)];
    assert [FieldError("user_id", UserIdError(f).value)] + [FieldError("amount", AmountFieldError(f).value)]
        == [FieldError("user_id", UserIdError(f).value), FieldError("amount", AmountFieldError(f).value)];
  }

  /** {"user_id": 123, "amount": 99.9} is accepted as is. */
  lemma AcceptsNinetyNinePointNine()
    ensures ValidateOrderCreate(Dict(map["user_id" := PyInt(123), "amount" := PyFloat(Decimal(false, 999, -1))]))
            == Ok(OrderCreate(123, Decimal(false, 999, -1)))
  {
    var d := Decimal(false, 999, -1);
    assert Normalize(d) == d;
    assert NumDigits(999) == 3;
  }

  /** {"user_id": 123, "amount": -10} and {"user_id": 1, "amount": -5} fail only gt=0. */
  lemma RejectsNegativeAmounts()
    ensures ValidateOrderCreate(Dict(map["user_id" := PyInt(123), "amount" := PyInt(-10)]))
            == Err([FieldError("amount", GreaterThan)])
    ensures ValidateOrderCreate(Dict(map["user_id" := PyInt(1), "amount" := PyInt(-5)]))
            == Err([FieldError("amount", GreaterThan)])
  {
    var ten := Decimal(true, 10, 0);
    assert Normalize(ten) == Decimal(true, 1, 1);
    var five := Decimal(true, 5, 0);
    assert Normalize(five) == five;
    assert CountDigits(five) == DigitCount(1, 0);
    assert AmountError(five) == Some(GreaterThan);
    var body := map["user_id" := PyInt(1), "amount" := PyInt(-5)];
    assert UserIdError(body) == None;
    assert AmountFieldError(body) == Some(GreaterThan);
    assert [] + [FieldError("amount", GreaterThan)] == [FieldError("amount", GreaterThan)];
  }

  /** The boundaries: 99999999.99 is accepted; 100000000 has too many whole digits,
      0.001 too many decimals, 0 fails gt=0. */
  lemma AmountBoundaries()
    ensures AmountError(Decimal(false, 9999999999, -2)) == None
    ensures AmountError(Decimal(false, 100000000, 0)) == Some(DecimalWholeDigits)
    ensures AmountError(Decimal(false, 1, -3)) == Some(DecimalMaxPlaces)
    ensures AmountError(Decimal(false, 0, 0)) == Some(GreaterThan)
  {
    assert Normalize(Decimal(false, 100000000, 0)) == Decimal(false, 1, 8);
    assert NumDigits(9999999999) == 10;
  }
}
