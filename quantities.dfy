/**
 * The value-plus-unit quantities of siquant/quantities.py. A quantity is a
 * number together with a unit; every operator builds a new quantity.
 *
 * The unit class it works with (`_scale`, `compatible`, `base_units`, `*`,
 * `/`, `**`) is `SIUnit`, which siquant/__init__.py imports from
 * siquant/units.py; that file's revision defines only `Unit`, without those
 * members. So the unit is modelled abstractly as a positive scale together
 * with a dimension tuple of siquant/dimensions.py.
 */
module Quantities {
  import opened Outcomes
  import opened RealPower
  import opened Dimensions

  type Scale = r: real | r > 0.0 witness 1.0

  /** A unit: how many base units one of it is, and its dimensions. */
  datatype SIUnit = SIUnit(scale: Scale, dims: Dims)

  /** Two units measure the same kind of thing. */
  predicate Compatible(u: SIUnit, v: SIUnit)
  {
    u.dims == v.dims
  }

  /** The coherent (scale 1) unit of the same dimensions. */
  function BaseUnits(u: SIUnit): (r: SIUnit)
    ensures r.scale == 1.0 && Compatible(r, u)
  {
    SIUnit(1.0, u.dims)
  }

  /** The product of two units: scales multiply, dimensions combine by `dim_mul`. */
  function UnitMul(u: SIUnit, v: SIUnit): (r: SIUnit)
    ensures UnitDiv(r, v) == u
  {
    ProductPositive(u.scale, v.scale);
    SIUnit(u.scale * v.scale, DimMul(u.dims, v.dims))
  }

  /** The quotient of two units: scales divide, dimensions combine by `dim_div`. */
  function UnitDiv(u: SIUnit, v: SIUnit): (r: SIUnit)
    ensures r.scale * v.scale == u.scale && DimMul(r.dims, v.dims) == u.dims
  {
    QuotientPositive(u.scale, v.scale);
    SIUnit(u.scale / v.scale, DimDiv(u.dims, v.dims))
  }

  /** A whole-number power of a unit. */
  function UnitPow(u: SIUnit, n: int): (r: SIUnit)
    ensures n == 0 ==> r == Unity
    ensures n == 1 ==> r == u
    ensures u.scale == 1.0 ==> r.scale == 1.0
    ensures r.scale == IntPow(u.scale, n) && r.dims == DimPow(u.dims, n as real)
  {
    IntPowSmall(u.scale);
    IntPowOfOne(n);
    DimPowZero(u.dims);
    DimPowOne(u.dims);
    SIUnit(IntPow(u.scale, n), DimPow(u.dims, n as real))
  }

  /** The power `n + 1` is the power `n` times the unit once more. */
  lemma UnitPowSucc(u: SIUnit, n: nat)
    ensures UnitPow(u, n + 1) == UnitMul(UnitPow(u, n), u)
  {
    var p := UnitPow(u, n);
    IntPowSucc(u.scale, n);
    assert (n + 1) as real == n as real + 1.0;
    DimPowAdd(u.dims, n as real, 1.0);
    DimPowOne(u.dims);
  }

  /** The power `-n` is the reciprocal of the power `n`. */
  lemma UnitPowNeg(u: SIUnit, n: int)
    ensures UnitPow(u, -n) == UnitDiv(Unity, UnitPow(u, n))
  {
    var p := UnitPow(u, n);
    if n > 0 {
      assert IntPow(u.scale, -n) == 1.0 / p.scale;
    } else if n < 0 {
      assert p.scale == 1.0 / NatPow(u.scale, -n);
      assert IntPow(u.scale, -n) == 1.0 / p.scale;
    }
    assert (-n) as real == -(n as real);
    DimPowNeg(u.dims, n as real);
  }

  /** The dimensionless unit of scale 1. */
  const Unity: SIUnit := SIUnit(1.0, Dimensionless)

  datatype Quantity = Quantity(quantity: real, units: SIUnit)

  /** A right-hand operand as Python sees it: a quantity, a plain number, or any other object. */
  datatype Operand = Qty(q: Quantity) | Number(x: real) | Object

  /** What a rich comparison returns: `NotImplemented` or a boolean. */
  datatype Comparison = NotImplemented | Answer(b: bool)

  /** The amount a quantity stands for, expressed in base units. */
  function Amount(q: Quantity): real
  {
    q.quantity * q.units.scale
  }

  /** `get`: the number as stored, in the quantity's own units. */
  function Get(q: Quantity): (r: real)
    ensures GetAs(q, q.units) == Ok(r)
  {
    var g := GetAs(q, q.units);
    assert g.Ok? && g.value * q.units.scale == q.quantity * q.units.scale;
    CancelFactor(g.value, q.quantity, q.units.scale);
    q.quantity
  }

  /** `get_as`: the same amount expressed in `u`; incompatible units fail the `assert`. */
  function GetAs(q: Quantity, u: SIUnit): (r: Result<real>)
    ensures r.Ok? <==> Compatible(q.units, u)
    ensures r.Err? ==> r.error == AssertionError
    ensures r.Ok? ==> r.value * u.scale == Amount(q)
  {
    if !Compatible(q.units, u) then Err(AssertionError)
    else
      var v := q.quantity * q.units.scale / u.scale;
      QuotientIff(v, Amount(q), u.scale);
      Ok(v)
  }

  /** `cvt_to`: a new quantity in units `u` standing for the same amount. */
  function CvtTo(q: Quantity, u: SIUnit): (r: Result<Quantity>)
    ensures r.Ok? <==> Compatible(q.units, u)
    ensures r.Err? ==> r.error == AssertionError
    ensures r.Ok? ==> r.value.units == u && Amount(r.value) == Amount(q)
  {
    var v :- GetAs(q, u);
    Ok(Quantity(v, u))
  }

  /**
   * `normalized` as the source writes it: the number is divided by the scale
   * and paired with the base units (see NormalizedIntended).
   */
  function Normalized(q: Quantity): (r: Quantity)
    ensures r.units == BaseUnits(q.units)
    ensures r.quantity * q.units.scale == q.quantity
  {
    var v := q.quantity / q.units.scale;
    QuotientIff(v, q.quantity, q.units.scale);
    Quantity(v, BaseUnits(q.units))
  }

  /** `normalized` as intended: the same amount, in base units. */
  function NormalizedIntended(q: Quantity): (r: Quantity)
    ensures r.units == BaseUnits(q.units)
    ensures Eq(q, Qty(r)) == Answer(true)
  {
    Quantity(Amount(q), BaseUnits(q.units))
  }

  /** `==`: `NotImplemented` for a non-quantity, else compatible units and the same value once converted. */
  function Eq(q: Quantity, other: Operand): (r: Comparison)
    ensures !other.Qty? ==> r == NotImplemented
    ensures other.Qty? ==> r == Answer(Compatible(q.units, other.q.units) && Amount(q) == Amount(other.q))
  {
    if !other.Qty? then NotImplemented
    else
      var o := other.q;
      if Compatible(o.units, q.units) then
        var v := GetAs(o, q.units).value;
        QuotientIff(q.quantity, Amount(o), q.units.scale);
        Answer(q.quantity == v)
      else Answer(false)
  }

  /** `<`: `NotImplemented` for a non-quantity, false (not an error) for incompatible units. */
  function Lt(q: Quantity, other: Operand): (r: Comparison)
    ensures !other.Qty? ==> r == NotImplemented
    ensures other.Qty? ==> r == Answer(Compatible(q.units, other.q.units) && Amount(q) < Amount(other.q))
  {
    if !other.Qty? then NotImplemented
    else
      var o := other.q;
      if Compatible(o.units, q.units) then
        var v := GetAs(o, q.units).value;
        ScaledLess(q.quantity, v, q.units.scale);
        Answer(q.quantity < v)
      else Answer(false)
  }

  lemma ScaledLess(a: real, b: real, s: real)
    requires s > 0.0
    ensures a < b <==> a * s < b * s
  {
  }

  /**
   * `+` (also `+=`): the other operand converted into the left operand's
   * units; a non-quantity has no `_units` and raises AttributeError.
   */
  function Add(q: Quantity, other: Operand): (r: Result<Quantity>)
    ensures !other.Qty? ==> r == Err(AttributeError)
    ensures other.Qty? ==> (r.Ok? <==> Compatible(q.units, other.q.units))
    ensures other.Qty? && !Compatible(q.units, other.q.units) ==> r == Err(AssertionError)
    ensures r.Ok? ==> r.value.units == q.units && Amount(r.value) == Amount(q) + Amount(other.q)
  {
    if !other.Qty? then Err(AttributeError)
    else if !Compatible(q.units, other.q.units) then Err(AssertionError)
    else
      var v := GetAs(other.q, q.units).value;
      var r := Quantity(q.quantity + v, q.units);
      assert Amount(r) == q.quantity * q.units.scale + v * q.units.scale;
      Ok(r)
  }

  /** `-` (also `-=`), like Add. */
  function Sub(q: Quantity, other: Operand): (r: Result<Quantity>)
    ensures !other.Qty? ==> r == Err(AttributeError)
    ensures other.Qty? ==> (r.Ok? <==> Compatible(q.units, other.q.units))
    ensures other.Qty? && !Compatible(q.units, other.q.units) ==> r == Err(AssertionError)
    ensures r.Ok? ==> r.value.units == q.units && Amount(r.value) == Amount(q) - Amount(other.q)
  {
    if !other.Qty? then Err(AttributeError)
    else if !Compatible(q.units, other.q.units) then Err(AssertionError)
    else
      var v := GetAs(other.q, q.units).value;
      var r := Quantity(q.quantity - v, q.units);
      assert Amount(r) == q.quantity * q.units.scale - v * q.units.scale;
      Ok(r)
  }

  /**
   * `*` (also `*=`): quantities multiply values and units; a number scales
   * the value and keeps the units; any other operand is a TypeError.
   */
  function Mul(q: Quantity, other: Operand): (r: Result<Quantity>)
    ensures other.Object? <==> r.Err?
    ensures r.Err? ==> r.error == TypeError
    ensures other.Qty? ==> r.Ok? && r.value.units == UnitMul(q.units, other.q.units)
                           && Amount(r.value) == Amount(q) * Amount(other.q)
    ensures other.Number? ==> r.Ok? && r.value.units == q.units && Amount(r.value) == other.x * Amount(q)
  {
    match other
    case Qty(o) =>
      var r := Quantity(q.quantity * o.quantity, UnitMul(q.units, o.units));
      ProductOfProducts(q.quantity, o.quantity, q.units.scale, o.units.scale);
      Ok(r)
    case Number(x) =>
      Ok(Quantity(x * q.quantity, q.units))
    case Object => Err(TypeError)
  }

  lemma ProductOfProducts(a: real, b: real, s: real, t: real)
    ensures (a * b) * (s * t) == (a * s) * (b * t)
  {
  }

  /** `scalar * q`, reached for a number on the left: the value scales and the units stay. */
  function RMul(q: Quantity, x: real): (r: Quantity)
    ensures r.units == q.units && Amount(r) == x * Amount(q)
  {
    Quantity(x * q.quantity, q.units)
  }

  /**
   * `/` (also `/=`): quantities divide values and units; a number divides the
   * value and keeps the units; any other operand is a TypeError. A zero
   * divisor is Python's ZeroDivisionError.
   */
  function TrueDiv(q: Quantity, other: Operand): (r: Result<Quantity>)
    requires other.Qty? ==> other.q.quantity != 0.0
    requires other.Number? ==> other.x != 0.0
    ensures other.Object? <==> r.Err?
    ensures r.Err? ==> r.error == TypeError
    ensures other.Qty? ==> r.Ok? && r.value.units == UnitDiv(q.units, other.q.units)
                           && Amount(r.value) * Amount(other.q) == Amount(q)
    ensures other.Number? ==> r.Ok? && r.value.units == q.units && Amount(r.value) * other.x == Amount(q)
  {
    match other
    case Qty(o) =>
      var r := Quantity(q.quantity / o.quantity, UnitDiv(q.units, o.units));
      QuotientOfQuotients(q.quantity, o.quantity, q.units.scale, o.units.scale);
      Ok(r)
    case Number(x) =>
      var r := Quantity(q.quantity / x, q.units);
      QuotientTimes(q.quantity, x, q.units.scale);
      Ok(r)
    case Object => Err(TypeError)
  }

  lemma QuotientOfQuotients(a: real, b: real, s: real, t: real)
    requires b != 0.0 && t != 0.0
    ensures ((a / b) * (s / t)) * (b * t) == a * s
  {
    var p, q := a / b, s / t;
    assert p * b == a && q * t == s;
    assert (p * q) * (b * t) == (p * b) * (q * t);
  }

  lemma QuotientTimes(a: real, x: real, s: real)
    requires x != 0.0
    ensures ((a / x) * s) * x == a * s
  {
    var p := a / x;
    assert p * x == a;
  }

  /**
   * `number / q` as the source writes it: the number is divided by the value
   * but the units are kept, not inverted (see RTrueDivIntended).
   */
  function RTrueDiv(q: Quantity, x: real): (r: Quantity)
    requires q.quantity != 0.0
    ensures r.units == q.units && r.quantity * q.quantity == x
  {
    var v := x / q.quantity;
    QuotientIff(v, x, q.quantity);
    Quantity(v, q.units)
  }

  /** `number / q` as intended: the units are inverted, so the result times `q` is the plain number. */
  function RTrueDivIntended(q: Quantity, x: real): (r: Quantity)
    requires q.quantity != 0.0
    ensures r.units == UnitDiv(Unity, q.units)
    ensures Amount(r) * Amount(q) == x
  {
    var r := Quantity(x / q.quantity, UnitDiv(Unity, q.units));
    QuotientOfQuotients(x, q.quantity, 1.0, q.units.scale);
    r
  }

  /** `q ** n` for a whole-number `n`: value and units are both raised to `n`. */
  function Pow(q: Quantity, n: int): (r: Quantity)
    requires q.quantity != 0.0 || n >= 0
    ensures n == 0 ==> r == Quantity(1.0, Unity)
    ensures n == 1 ==> r == q
  {
    IntPowSmall(q.quantity);
    Quantity(IntPow(q.quantity, n), UnitPow(q.units, n))
  }

  /** `q ** (n + 1)` is `q ** n * q`. */
  lemma PowSucc(q: Quantity, n: nat)
    ensures Mul(Pow(q, n), Qty(q)) == Ok(Pow(q, n + 1))
  {
    var p := Pow(q, n);
    MulOfQuantities(p, q);
    UnitPowSucc(q.units, n);
    IntPowSucc(q.quantity, n);
    assert p.quantity * q.quantity == Pow(q, n + 1).quantity;
  }

  /** The product of two quantities multiplies the numbers and the units. */
  lemma MulOfQuantities(q: Quantity, o: Quantity)
    ensures Mul(q, Qty(o)) == Ok(Quantity(q.quantity * o.quantity, UnitMul(q.units, o.units)))
  {
    var m := Mul(q, Qty(o));
    assert m.Ok?;
    assert m.value.units == UnitMul(q.units, o.units);
    assert m.value.quantity == q.quantity * o.quantity;
  }

  /** Raising a quantity to `n` raises the amount it stands for to `n`. */
  lemma PowAmount(q: Quantity, n: int)
    requires q.quantity != 0.0 || n >= 0
    ensures Pow(q, n).units == UnitPow(q.units, n)
    ensures Amount(q) != 0.0 || n >= 0
    ensures Amount(Pow(q, n)) == IntPow(Amount(q), n)
  {
    var x, s := q.quantity, q.units.scale;
    PowOfAmount(x, s, n);
    var r := Pow(q, n);
    assert r.quantity == IntPow(x, n) && r.units.scale == IntPow(s, n);
    assert Amount(r) == IntPow(x, n) * IntPow(s, n);
    assert Amount(q) == x * s;
    assert IntPow(x * s, n) == IntPow(x, n) * IntPow(s, n);
    assert IntPow(Amount(q), n) == IntPow(x * s, n);
  }

  lemma PowOfAmount(x: real, s: real, n: int)
    requires s > 0.0 && (x != 0.0 || n >= 0)
    ensures x * s != 0.0 || n >= 0
    ensures IntPow(x * s, n) == IntPow(x, n) * IntPow(s, n)
  {
    ProductNonzero(x, s);
    IntPowMul(x, s, n);
  }

  function Neg(q: Quantity): (r: Quantity)
    ensures r.units == q.units && Amount(r) == -Amount(q)
  {
    Quantity(-q.quantity, q.units)
  }

  function Abs(q: Quantity): (r: Quantity)
    ensures r.units == q.units && r.quantity >= 0.0
    ensures r.quantity == q.quantity || r.quantity == -q.quantity
    ensures Amount(r) >= 0.0
  {
    var r := Quantity(if q.quantity < 0.0 then -q.quantity else q.quantity, q.units);
    NonNegativeProduct(r.quantity, q.units.scale);
    r
  }

  lemma NonNegativeProduct(a: real, s: real)
    requires a >= 0.0 && s > 0.0
    ensures a * s >= 0.0
  {
  }

  /** `bool(q)`: the quantity is true when its amount is nonzero, whatever its units. */
  function Bool(q: Quantity): (b: bool)
    ensures b <==> Amount(q) != 0.0
  {
    ProductNonzero(q.quantity, q.units.scale);
    q.quantity != 0.0
  }

  lemma ProductNonzero(a: real, s: real)
    requires s != 0.0
    ensures a * s != 0.0 <==> a != 0.0
  {
  }

  // ---------------------------------------------------------------------
  // Properties
  // ---------------------------------------------------------------------

  /** Converting to `u` and reading back in the original units returns the original number. */
  lemma CvtToRoundTrip(q: Quantity, u: SIUnit)
    requires Compatible(q.units, u)
    ensures CvtTo(q, u).Ok? && GetAs(CvtTo(q, u).value, q.units) == Ok(Get(q))
  {
    var c := CvtTo(q, u).value;
    var v := GetAs(c, q.units).value;
    QuotientIff(v, Amount(q), q.units.scale);
    QuotientIff(q.quantity, Amount(q), q.units.scale);
  }

  /** A quantity equals itself converted into any compatible units. */
  lemma EqCvtTo(q: Quantity, u: SIUnit)
    requires Compatible(q.units, u)
    ensures Eq(q, Qty(CvtTo(q, u).value)) == Answer(true)
  {
  }

  /** `==` on quantities is an equivalence relation. */
  lemma EqEquivalence(a: Quantity, b: Quantity, c: Quantity)
    ensures Eq(a, Qty(a)) == Answer(true)
    ensures Eq(a, Qty(b)) == Eq(b, Qty(a))
    ensures Eq(a, Qty(b)) == Answer(true) && Eq(b, Qty(c)) == Answer(true) ==> Eq(a, Qty(c)) == Answer(true)
  {
  }

  /** `<` on quantities is a strict order that never relates incompatible units. */
  lemma LtStrictOrder(a: Quantity, b: Quantity, c: Quantity)
    ensures Lt(a, Qty(a)) == Answer(false)
    ensures !Compatible(a.units, b.units) ==> Lt(a, Qty(b)) == Answer(false) && Lt(b, Qty(a)) == Answer(false)
    ensures Lt(a, Qty(b)) == Answer(true) ==> Lt(b, Qty(a)) == Answer(false)
    ensures Lt(a, Qty(b)) == Answer(true) && Lt(b, Qty(c)) == Answer(true) ==> Lt(a, Qty(c)) == Answer(true)
  {
  }

  /** Between compatible quantities exactly one of `a < b`, `a == b`, `b < a` holds. */
  lemma Trichotomy(a: Quantity, b: Quantity)
    requires Compatible(a.units, b.units)
    ensures Lt(a, Qty(b)).b || Eq(a, Qty(b)).b || Lt(b, Qty(a)).b
    ensures !(Lt(a, Qty(b)).b && Eq(a, Qty(b)).b)
    ensures !(Lt(b, Qty(a)).b && Eq(a, Qty(b)).b)
  {
  }

  /** `a + b` and `b + a` are equal quantities, each in its left operand's units. */
  lemma AddCommutesUpToUnits(a: Quantity, b: Quantity)
    requires Compatible(a.units, b.units)
    ensures Add(a, Qty(b)).Ok? && Add(b, Qty(a)).Ok?
    ensures Add(a, Qty(b)).value.units == a.units && Add(b, Qty(a)).value.units == b.units
    ensures Eq(Add(a, Qty(b)).value, Qty(Add(b, Qty(a)).value)) == Answer(true)
  {
  }

  /** Subtracting what was added returns the original quantity exactly. */
  lemma AddThenSub(a: Quantity, b: Quantity)
    requires Compatible(a.units, b.units)
    ensures Add(a, Qty(b)).Ok? && Sub(Add(a, Qty(b)).value, Qty(b)) == Ok(a)
  {
  }

  /** Multiplying back by the divisor returns the original quantity exactly. */
  lemma DivThenMul(a: Quantity, b: Quantity)
    requires b.quantity != 0.0
    ensures Mul(TrueDiv(a, Qty(b)).value, Qty(b)) == Ok(a)
  {
    var d := TrueDiv(a, Qty(b)).value;
    assert d.quantity == a.quantity / b.quantity;
    assert d.units == UnitDiv(a.units, b.units);
    QuotientIff(d.quantity, a.quantity, b.quantity);
    QuotientIff(d.units.scale, a.units.scale, b.units.scale);
    DimDivInverse(a.units.dims, b.units.dims);
    var m := Mul(d, Qty(b)).value;
    assert m.quantity == a.quantity;
    assert m.units.scale == a.units.scale;
    assert m.units.dims == a.units.dims;
  }

  /** Multiplication respects `==`: equal factors give equal products. */
  lemma MulRespectsEq(a: Quantity, a': Quantity, b: Quantity, b': Quantity)
    requires Eq(a, Qty(a')) == Answer(true) && Eq(b, Qty(b')) == Answer(true)
    ensures Eq(Mul(a, Qty(b)).value, Qty(Mul(a', Qty(b')).value)) == Answer(true)
  {
  }

  /** Negation is an involution and flips the order of compatible quantities. */
  lemma NegProperties(a: Quantity, b: Quantity)
    ensures Neg(Neg(a)) == a
    ensures Lt(a, Qty(b)) == Answer(true) ==> Lt(Neg(b), Qty(Neg(a))) == Answer(true)
  {
  }

  /** `normalized` as written is not the same quantity whenever the unit's scale is not 1 and the value is nonzero. */
  lemma NormalizedAsWrittenDiffers(q: Quantity)
    requires q.quantity != 0.0 && q.units.scale != 1.0
    ensures Eq(q, Qty(Normalized(q))) == Answer(false)
  {
    var s := q.units.scale;
    var a := Normalized(q).quantity;
    assert a * s == q.quantity;
    assert Amount(q) == a * s * s == a * (s * s);
    SquareNotOne(s);
    NotFixed(a, s * s);
  }

  lemma SquareNotOne(s: real)
    requires s > 0.0 && s != 1.0
    ensures s * s != 1.0
  {
    if s < 1.0 {
      assert s * s < s;
    } else {
      assert s * s > s;
    }
  }

  lemma NotFixed(a: real, t: real)
    requires a != 0.0 && t != 1.0
    ensures a * t != a
  {
    assert a * t - a == a * (t - 1.0);
  }

  /** The number, `2 / (4 m)`, built as written carries meters rather than inverse meters. */
  lemma RTrueDivAsWrittenKeepsUnits()
    ensures RTrueDiv(Quantity(4.0, SIUnit(1.0, DistanceT)), 2.0) == Quantity(0.5, SIUnit(1.0, DistanceT))
    ensures RTrueDivIntended(Quantity(4.0, SIUnit(1.0, DistanceT)), 2.0).units.dims == SIDimensions(m := -1.0)
  {
  }

  // ---------------------------------------------------------------------
  // Examples
  // ---------------------------------------------------------------------

  const Meters: SIUnit := SIUnit(1.0, DistanceT)
  const Millimeters: SIUnit := SIUnit(0.001, DistanceT)
  const Newtons: SIUnit := SIUnit(1.0, ForceT)
  const Kilonewtons: SIUnit := SIUnit(1000.0, ForceT)

  /** 1 m + 1000 mm is 2 m, while 1000 mm + 1 m is 2000 mm: each sum is in its left operand's units. */
  lemma AddUsesLeftUnits()
    ensures Add(Quantity(1.0, Meters), Qty(Quantity(1000.0, Millimeters))) == Ok(Quantity(2.0, Meters))
    ensures Add(Quantity(1000.0, Millimeters), Qty(Quantity(1.0, Meters))) == Ok(Quantity(2000.0, Millimeters))
  {
    assert GetAs(Quantity(1000.0, Millimeters), Meters) == Ok(1.0);
    assert GetAs(Quantity(1.0, Meters), Millimeters) == Ok(1000.0);
  }

  /** 100 N read in kilonewtons is 0.1, and 100 kg times 1 m/s^2 equals 100 N. */
  lemma ForceExample()
    ensures GetAs(Quantity(100.0, Newtons), Kilonewtons) == Ok(0.1)
    ensures CvtTo(Quantity(100.0, Newtons), Kilonewtons).value.units == Kilonewtons
    ensures Eq(Quantity(100.0, Newtons),
               Qty(Mul(Quantity(100.0, SIUnit(1.0, MassT)), Qty(Quantity(1.0, SIUnit(1.0, AccelerationT)))).value))
            == Answer(true)
  {
    assert DimMul(MassT, AccelerationT) == ForceT;
  }
}
