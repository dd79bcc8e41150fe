/**
 * src/utils.ts: the address canonicaliser `standardise`, which is the join
 * and dedup key of both pipelines, and the `tryCatch` wrapper with its
 * two-case `Result`.
 */
module Utils {
  import opened Wrappers
  import opened Numerals

  /** What `standardise` may be handed: a string, a bigint, or nothing (an absent `keys[2]`). */
  datatype AddressInput = Text(s: string) | BigInt(n: int) | Missing

  /** JavaScript falsiness of the input: the empty string, `0n`, `undefined`. */
  predicate IsFalsy(a: AddressInput) {
    a == Text("") || a == BigInt(0) || a == Missing
  }

  /** `toString()` of a string or a bigint (a bigint is written in signed decimal). */
  function JsString(a: AddressInput): string
    requires !a.Missing?
  {
    match a
    case Text(s) => s
    case BigInt(n) => if n < 0 then "-" + Render(-n, 10) else Render(n, 10)
  }

  /** The number an input stands for: zero when it is falsy, otherwise what its text denotes. */
  function NumericValue(a: AddressInput): Option<nat> {
    if IsFalsy(a) then Some(0) else ParseNatural(JsString(a))
  }

  /**
   * `standardise`: a falsy input becomes "0"; the value then goes through
   * `getDecimalString` and `getHexString`. `None` is the error either of them
   * throws.
   */
  function Standardise(address: AddressInput): (r: Option<string>)
    ensures r.Some? <==> NumericValue(address).Some?
    ensures r.Some? ==> r.value == HexOf(NumericValue(address).value)
  {
    var a := if IsFalsy(address) then Text("0") else address;
    assert JsString(a) == "0" ==> ValueOf("0", 10) == 0;
    match GetDecimalString(JsString(a))
    case None => None
    case Some(d) =>
      WholeIsNotHex(d);
      GetHexString(d)
  }

  /** A falsy input is standardised as the text "0" is, to "0x0". */
  lemma StandardiseFalsy(a: AddressInput)
    requires IsFalsy(a)
    ensures Standardise(a) == Standardise(Text("0")) == Some("0x0")
  {
    assert DigitChar(0) == '0';
    assert Render(0, 10) == "0" == Render(0, 16);
    ParseDecimalRendering(0);
    assert NumericValue(Text("0")) == Some(0) == NumericValue(a);
    assert HexOf(0) == "0x0";
  }

  /** Two inputs with the same standardised form denote the same number, and conversely. */
  lemma StandardiseIsJoinKey(a: AddressInput, b: AddressInput)
    requires NumericValue(a).Some? && NumericValue(b).Some?
    ensures Standardise(a) == Standardise(b) <==> NumericValue(a) == NumericValue(b)
  {
    if Standardise(a) == Standardise(b) {
      var m, n := NumericValue(a).value, NumericValue(b).value;
      assert Render(m, 16) == HexOf(m)[2..] == HexOf(n)[2..] == Render(n, 16);
      RenderInjective(m, n, 16);
    }
  }

  /** The decimal text of a number standardises to its canonical hex text. */
  lemma StandardiseDecimalText(n: nat)
    ensures Standardise(Text(Render(n, 10))) == Some(HexOf(n))
  {
    ParseDecimalRendering(n);
    assert Render(n, 10) != "";
  }

  /** The canonical hex text of a number standardises to itself. */
  lemma StandardiseHexText(n: nat)
    ensures Standardise(Text(HexOf(n))) == Some(HexOf(n))
  {
    ParseHexRendering(n);
    assert HexOf(n) != "";
  }

  /** A non-negative bigint standardises to the canonical hex text of its value. */
  lemma StandardiseBigInt(n: nat)
    ensures Standardise(BigInt(n)) == Some(HexOf(n))
  {
    if n == 0 {
      StandardiseFalsy(BigInt(0));
      assert Render(0, 16) == "0";
    } else {
      ParseDecimalRendering(n);
    }
  }

  /** Standardising a standardised address changes nothing. */
  lemma StandardiseIdempotent(a: AddressInput)
    requires Standardise(a).Some?
    ensures Standardise(Text(Standardise(a).value)) == Standardise(a)
  {
    ParseHexRendering(NumericValue(a).value);
  }

  /** A negative bigint is written with a minus sign, which neither converter accepts. */
  lemma StandardiseNegativeThrows(n: int)
    requires n < 0
    ensures Standardise(BigInt(n)) == None
  {
    assert JsString(BigInt(n))[0] == '-';
  }

  /** A settled promise: the value it resolved to or the reason it was rejected with. */
  datatype Settled<T, E> = Resolved(value: T) | Rejected(reason: E)

  /** `Result<T, E>`: `Success` has `data` and a null `error`, `Failure` a null `data` and an `error`. */
  datatype Result<T, E> = Success(data: T) | Failure(error: E) {

    /** The `data` field as a caller reads it: null on a failure. */
    function Data(): (d: Option<T>)
      ensures d.Some? <==> Success?
      ensures Success? ==> d.value == data
    {
      match this
      case Success(v) => Some(v)
      case Failure(_) => None
    }

    /** The `error` field as a caller reads it: null on a success. */
    function Error(): (e: Option<E>)
      ensures e.Some? <==> Failure?
      ensures Failure? ==> e.value == error
    {
      match this
      case Success(_) => None
      case Failure(x) => Some(x)
    }
  }

  /** `tryCatch`: the resolved value as a `Success`, the rejection reason as a `Failure`. */
  function TryCatch<T, E>(promise: Settled<T, E>): (r: Result<T, E>)
    ensures promise.Resolved? ==> r.Data() == Some(promise.value) && r.Error() == None
    ensures promise.Rejected? ==> r.Data() == None && r.Error() == Some(promise.reason)
  {
    match promise
    case Resolved(v) => Success(v)
    case Rejected(e) => Failure(e)
  }

  /** Every `Result` has exactly one of its two fields set. */
  lemma ExactlyOneField<T, E>(r: Result<T, E>)
    ensures r.Data().Some? != r.Error().Some?
  {
  }

  /** No two settlements give the same `Result`: the wrapper loses nothing. */
  lemma TryCatchInjective<T, E>(p: Settled<T, E>, q: Settled<T, E>)
    requires TryCatch(p) == TryCatch(q)
    ensures p == q
  {
  }
}
