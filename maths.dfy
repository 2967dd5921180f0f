/**
 * Maths: rounding a double to an integral value under each of the eight
 * rounding modes, and the mapping from rounding modes to the legacy BigDecimal
 * rounding constants. A finite double is modelled as an exact real.
 */
module Maths {

  import opened Wrappers

  datatype RoundingMode = Up | Down | Ceiling | Floor | HalfUp | HalfDown | HalfEven | Unnecessary

  datatype Double = Finite(value: real) | NaN | PositiveInfinity | NegativeInfinity

  datatype MathError =
    | InvalidValue(value: real)       // UNNECESSARY on a non-integral value: "Invalid value " followed by the value
    | NullMode(parameter: string)     // Objects.requireNonNull of a null rounding mode

  const LongMin: int := -0x8000_0000_0000_0000
  const LongMax: int := 0x7fff_ffff_ffff_ffff

  predicate IsIntegral(x: real) {
    x.Floor as real == x
  }

  function Abs(x: real): (r: real)
    ensures r >= 0.0 && (r == x || r == -x)
  {
    if x < 0.0 then -x else x
  }

  /** Math.ceil on an exact real. */
  function Ceil(x: real): (r: int)
    ensures x <= r as real < x + 1.0
  {
    -((-x).Floor)
  }

  /** The rounded magnitude given the sign of v: `v < 0 ? -rounded : rounded`. */
  function Signed(v: real, magnitude: int): (r: real)
    ensures IsIntegral(r)
    ensures v < 0.0 ==> r == -(magnitude as real)
    ensures v >= 0.0 ==> r == magnitude as real
  {
    if v < 0.0 then
      assert -(magnitude as real) == (-magnitude) as real;
      -(magnitude as real)
    else magnitude as real
  }

  /** The (long) cast of a double: truncation toward zero, saturating at the ends of the long range. */
  function LongCast(v: real): (r: int)
    ensures LongMin <= r <= LongMax
    ensures LongMin as real <= v < LongMax as real + 1.0 ==> Abs(r as real) <= Abs(v) < Abs(r as real) + 1.0
    ensures LongMin as real <= v < LongMax as real + 1.0 ==> (v < 0.0 ==> r <= 0) && (v >= 0.0 ==> r >= 0)
  {
    var t := if v < 0.0 then Ceil(v) else v.Floor;
    if t > LongMax then LongMax else if t < LongMin then LongMin else t
  }

  /** Math.round(double): floor(x + 1/2), saturating at the ends of the long range. */
  function MathRound(x: real): (r: int)
    ensures LongMin <= r <= LongMax
  {
    var t := (x + 0.5).Floor;
    if t > LongMax then LongMax else if t < LongMin then LongMin else t
  }

  /** halfUp as written: Math.round of the magnitude, whose long result saturates at Long.MAX_VALUE. */
  function HalfUpRoundedAsWritten(v: real): real {
    Signed(v, MathRound(Abs(v)))
  }

  /** halfUp without the long detour: floor(|v| + 1/2) with the sign of v. */
  function HalfUpRounded(v: real): real {
    Signed(v, (Abs(v) + 0.5).Floor)
  }

  /** halfDown: ceil(|v| - 1/2) with the sign of v. */
  function HalfDownRounded(v: real): real {
    Signed(v, Ceil(Abs(v) - 0.5))
  }

  /** roundFinite; HALF_EVEN picks halfUp when the truncated value is odd and halfDown otherwise. */
  function RoundFinite(v: real, mode: RoundingMode): (r: Result<real, MathError>)
    ensures r.Success? ==> IsIntegral(r.value)
    ensures r.Failure? <==> mode.Unnecessary? && !IsIntegral(v)
    ensures r.Failure? ==> r.error == InvalidValue(v)
  {
    match mode
    case Up => Success(Signed(v, Ceil(Abs(v))))
    case Down => Success(Signed(v, Abs(v).Floor))
    case Ceiling => Success(Ceil(v) as real)
    case Floor => Success(v.Floor as real)
    case HalfUp => Success(HalfUpRounded(v))
    case HalfDown => Success(HalfDownRounded(v))
    case HalfEven => Success(if LongCast(v) % 2 == 1 then HalfUpRounded(v) else HalfDownRounded(v))
    case Unnecessary => if v.Floor as real != v then Failure(InvalidValue(v)) else Success(v.Floor as real)
  }

  /** round: a null mode is refused; NaN and the infinities are returned as they are; a finite value is rounded. */
  function Round(v: Double, mode: Option<RoundingMode>): (r: Result<Double, MathError>)
    ensures mode.None? ==> r == Failure(NullMode("roundingMode"))
    ensures mode.Some? && !v.Finite? ==> r == Success(v)
    ensures mode.Some? && v.Finite? ==> (r.Failure? <==> mode.value.Unnecessary? && !IsIntegral(v.value))
    ensures mode.Some? && v.Finite? && r.Success? ==> r.value == Finite(RoundFinite(v.value, mode.value).value)
    ensures mode.Some? && v.Finite? && r.Failure? ==> r.error == InvalidValue(v.value)
    ensures r.Success? && v.Finite? ==> r.value.Finite? && IsIntegral(r.value.value)
  {
    if mode.None? then Failure(NullMode("roundingMode"))
    else
      match v
      case Finite(x) =>
        var rounded :- RoundFinite(x, mode.value);
        Success(Finite(rounded))
      case _ => Success(v)
  }

  /** Rounding a value round() has already rounded, under any mode, gives it back unchanged. */
  lemma RoundTwice(v: Double, mode: RoundingMode, again: RoundingMode)
    requires Round(v, Some(mode)).Success?
    ensures Round(Round(v, Some(mode)).value, Some(again)) == Round(v, Some(mode))
  {
    if v.Finite? {
      RoundIdempotent(v.value, mode, again);
    }
  }

  // Properties of each mode ..................................................................................

  /** UP rounds away from zero to the nearest integer at or beyond v. */
  lemma RoundUp(v: real)
    ensures var r := RoundFinite(v, Up).value;
      Abs(v) <= Abs(r) < Abs(v) + 1.0 && (v < 0.0 ==> r <= 0.0) && (v >= 0.0 ==> r >= 0.0)
  {
  }

  /** DOWN truncates toward zero. */
  lemma RoundDown(v: real)
    ensures var r := RoundFinite(v, Down).value;
      Abs(r) <= Abs(v) < Abs(r) + 1.0 && (v < 0.0 ==> r <= 0.0) && (v >= 0.0 ==> r >= 0.0)
  {
  }

  /** CEILING gives the least integer at or above v, FLOOR the greatest at or below. */
  lemma RoundCeilingFloor(v: real)
    ensures v <= RoundFinite(v, Ceiling).value < v + 1.0
    ensures RoundFinite(v, Floor).value <= v < RoundFinite(v, Floor).value + 1.0
  {
  }

  /** HALF_UP gives a nearest integer, and on a tie the one farther from zero. */
  lemma RoundHalfUp(v: real)
    ensures var r := RoundFinite(v, HalfUp).value;
      Abs(r - v) <= 0.5 && (Abs(r - v) == 0.5 ==> Abs(r) > Abs(v)) && (v < 0.0 ==> r <= 0.0) && (v >= 0.0 ==> r >= 0.0)
  {
  }

  /** HALF_DOWN gives a nearest integer, and on a tie the one nearer to zero. */
  lemma RoundHalfDown(v: real)
    ensures var r := RoundFinite(v, HalfDown).value;
      Abs(r - v) <= 0.5 && (Abs(r - v) == 0.5 ==> Abs(r) < Abs(v)) && (v < 0.0 ==> r <= 0.0) && (v >= 0.0 ==> r >= 0.0)
  {
  }

  /** Within the long range, HALF_EVEN gives a nearest integer, and on a tie the even one. */
  lemma RoundHalfEven(v: real)
    requires LongMin as real <= v < LongMax as real + 1.0
    ensures var r := RoundFinite(v, HalfEven).value;
      Abs(r - v) <= 0.5 && (Abs(r - v) == 0.5 ==> r.Floor % 2 == 0)
  {
    var r := RoundFinite(v, HalfEven).value;
    var n := Abs(v).Floor;
    TruncationParity(v);
    if n % 2 == 1 {
      RoundHalfUp(v);
      assert r == RoundFinite(v, HalfUp).value;
      if Abs(r - v) == 0.5 {
        var m := (Abs(v) + 0.5).Floor;
        assert Abs(r) == m as real && Abs(r) > Abs(v);
        assert m == n + 1;
        EvenSigned(v, m);
      }
    } else {
      RoundHalfDown(v);
      assert r == RoundFinite(v, HalfDown).value;
      if Abs(r - v) == 0.5 {
        var m := Ceil(Abs(v) - 0.5);
        assert Abs(r) == m as real && Abs(r) < Abs(v);
        assert m == n;
        EvenSigned(v, m);
      }
    }
  }

  /** Within the long range, the (long) cast has the parity of the magnitude's integer part. */
  lemma TruncationParity(v: real)
    requires LongMin as real <= v < LongMax as real + 1.0
    ensures LongCast(v) % 2 == Abs(v).Floor % 2
  {
    var n := Abs(v).Floor;
    if v < 0.0 {
      assert LongCast(v) == -n;
    } else {
      assert LongCast(v) == n;
    }
  }

  lemma EvenSigned(v: real, m: int)
    requires m % 2 == 0
    ensures Signed(v, m).Floor % 2 == 0
  {
    if v < 0.0 {
      assert Signed(v, m) == (-m) as real;
    }
  }

  /** UNNECESSARY gives v back when it is integral and fails with v otherwise. */
  lemma RoundUnnecessary(v: real)
    ensures RoundFinite(v, Unnecessary) == if IsIntegral(v) then Success(v) else Failure(InvalidValue(v))
  {
  }

  /** Every mode leaves an integral value as it is, so rounding twice is rounding once. */
  lemma RoundIntegral(v: real, mode: RoundingMode)
    requires IsIntegral(v)
    ensures RoundFinite(v, mode) == Success(v)
  {
    var n := if v < 0.0 then -v.Floor else v.Floor;
    assert Abs(v) == n as real;
    assert (Abs(v) + 0.5).Floor == n;
    assert Ceil(Abs(v) - 0.5) == n;
    assert Ceil(Abs(v)) == n && Abs(v).Floor == n;
    assert Ceil(v) == v.Floor;
    assert HalfUpRounded(v) == v;
    assert HalfDownRounded(v) == v;
    assert Signed(v, n) == v;
  }

  lemma RoundIdempotent(v: real, mode: RoundingMode, again: RoundingMode)
    requires RoundFinite(v, mode).Success?
    ensures RoundFinite(RoundFinite(v, mode).value, again) == RoundFinite(v, mode)
  {
    RoundIntegral(RoundFinite(v, mode).value, again);
  }

  // The saturation of halfUp ..................................................................................

  /** Below 2^63 - 1/2 in magnitude, halfUp as written agrees with floor(|v| + 1/2). */
  lemma HalfUpAsWrittenInRange(v: real)
    requires Abs(v) + 0.5 < LongMax as real + 1.0
    ensures HalfUpRoundedAsWritten(v) == HalfUpRounded(v)
  {
  }

  /** 10^19 is integral, yet halfUp as written gives Long.MAX_VALUE for it; the corrected halfUp gives 10^19 back. */
  lemma HalfUpSaturates()
    ensures IsIntegral(10000000000000000000.0)
    ensures HalfUpRoundedAsWritten(10000000000000000000.0) == LongMax as real
    ensures HalfUpRoundedAsWritten(10000000000000000000.0) != 10000000000000000000.0
    ensures HalfUpRounded(10000000000000000000.0) == 10000000000000000000.0
  {
  }

  // Legacy rounding constants ..................................................................................

  const ROUND_UP: int := 0
  const ROUND_DOWN: int := 1
  const ROUND_CEILING: int := 2
  const ROUND_FLOOR: int := 3
  const ROUND_HALF_UP: int := 4
  const ROUND_HALF_DOWN: int := 5
  const ROUND_HALF_EVEN: int := 6
  const ROUND_UNNECESSARY: int := 7

  /** toBigDecimalRoundingMode: each mode's legacy BigDecimal constant of the same name. */
  function ToBigDecimalRoundingMode(mode: Option<RoundingMode>): (r: Result<int, MathError>)
    ensures mode.None? <==> r == Failure(NullMode("RoundingMode"))
    ensures r.Success? ==> ROUND_UP <= r.value <= ROUND_UNNECESSARY
  {
    if mode.None? then Failure(NullMode("RoundingMode"))
    else
      Success(match mode.value
        case Ceiling => ROUND_CEILING
        case Down => ROUND_DOWN
        case Floor => ROUND_FLOOR
        case HalfDown => ROUND_HALF_DOWN
        case HalfEven => ROUND_HALF_EVEN
        case HalfUp => ROUND_HALF_UP
        case Unnecessary => ROUND_UNNECESSARY
        case Up => ROUND_UP)
  }

  /** The mode a legacy constant stands for, as RoundingMode.valueOf(int) answers it. */
  function FromBigDecimalRoundingMode(constant: int): (r: Option<RoundingMode>)
    ensures r.Some? <==> ROUND_UP <= constant <= ROUND_UNNECESSARY
  {
    if constant == ROUND_UP then Some(Up)
    else if constant == ROUND_DOWN then Some(Down)
    else if constant == ROUND_CEILING then Some(Ceiling)
    else if constant == ROUND_FLOOR then Some(Floor)
    else if constant == ROUND_HALF_UP then Some(HalfUp)
    else if constant == ROUND_HALF_DOWN then Some(HalfDown)
    else if constant == ROUND_HALF_EVEN then Some(HalfEven)
    else if constant == ROUND_UNNECESSARY then Some(Unnecessary)
    else None
  }

  /** The mapping is a bijection between the modes and the constants 0 to 7. */
  lemma BigDecimalRoundingModeRoundTrip(mode: RoundingMode, constant: int)
    ensures ToBigDecimalRoundingMode(Some(mode)).Success?
    ensures FromBigDecimalRoundingMode(ToBigDecimalRoundingMode(Some(mode)).value) == Some(mode)
    ensures FromBigDecimalRoundingMode(constant).Some? ==>
      ToBigDecimalRoundingMode(FromBigDecimalRoundingMode(constant)) == Success(constant)
  {
  }

  lemma BigDecimalRoundingModeInjective(m1: RoundingMode, m2: RoundingMode)
    ensures ToBigDecimalRoundingMode(Some(m1)) == ToBigDecimalRoundingMode(Some(m2)) <==> m1 == m2
  {
    BigDecimalRoundingModeRoundTrip(m1, 0);
    BigDecimalRoundingModeRoundTrip(m2, 0);
  }
}
