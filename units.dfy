/**
 * The unit algebra of siquant/units.py: a unit is a scale `factor` together
 * with a dictionary of seven exponents keyed by the names of the SI base
 * units. The factor is any real (the constructor does not check it); the
 * exponents are reals.
 */
module Units {
  import opened Outcomes
  import opened RealPower
  import opened Dimensions

  /** The keys of a unit's exponent dictionary: "m", "kg", "s", "k", "amp", "cd", "mol". */
  datatype Key = M | Kg | S | K | Amp | Cd | Mol

  /**
   * The exponent dictionary. Every unit holds all seven keys, so the
   * dictionary is a record with one field per key.
   */
  datatype ExponentDict = ExponentDict(m: real, kg: real, s: real, k: real, amp: real, cd: real, mol: real)

  datatype Unit = Unit(factor: real, units: ExponentDict)

  /** `Unit(factor, m=0, kg=0, s=0, amp=0, cd=0, mol=0, k=0)`. */
  function MakeUnit(factor: real, m: real := 0.0, kg: real := 0.0, s: real := 0.0, amp: real := 0.0,
                    cd: real := 0.0, mol: real := 0.0, k: real := 0.0): (u: Unit)
    ensures u.factor == factor
    ensures Exponent(u, M) == m && Exponent(u, Kg) == kg && Exponent(u, S) == s && Exponent(u, K) == k
    ensures Exponent(u, Amp) == amp && Exponent(u, Cd) == cd && Exponent(u, Mol) == mol
    ensures ToDims(u) == SIDimensions(kg := kg, m := m, s := s, k := k, a := amp, mol := mol, cd := cd)
  {
    Unit(factor, ExponentDict(m, kg, s, k, amp, cd, mol))
  }

  /** Where each key's exponent sits in a dimension tuple of siquant/dimensions.py. */
  function DimIndex(key: Key): nat
  {
    match key
    case Kg => 0
    case M => 1
    case S => 2
    case K => 3
    case Amp => 4
    case Mol => 5
    case Cd => 6
  }

  /** The exponent stored under one key (`_exponent`). */
  function Exponent(u: Unit, key: Key): (e: real)
    ensures DimIndex(key) < 7 && e == Dimensions.Exponents(ToDims(u))[DimIndex(key)]
  {
    match key
    case M => u.units.m
    case Kg => u.units.kg
    case S => u.units.s
    case K => u.units.k
    case Amp => u.units.amp
    case Cd => u.units.cd
    case Mol => u.units.mol
  }

  /**
   * The exponents read into the tuple order of siquant/dimensions.py
   * (kg, m, s, k, a, mol, cd); `amp` is that module's `a`.
   */
  function ToDims(u: Unit): Dims
  {
    var ExponentDict(m, kg, s, k, amp, cd, mol) := u.units;
    Dims(kg, m, s, k, amp, mol, cd)
  }

  /** A quantity expressed in `u`, converted to base units. */
  function Normalize(u: Unit, quantity: real): (r: real)
    ensures u.factor != 0.0 ==> r / u.factor == quantity
    ensures u.factor == 1.0 ==> r == quantity
  {
    quantity * u.factor
  }

  /** A quantity in base units, expressed in `u`. Python raises ZeroDivisionError for a zero factor. */
  function FromBaseUnits(u: Unit, normalizedQuantity: real): (r: real)
    requires u.factor != 0.0
    ensures Normalize(u, r) == normalizedQuantity
  {
    normalizedQuantity / u.factor
  }

  /** The exponents agree key by key; the factors are not compared. */
  predicate MatchesDimensions(u: Unit, other: Unit): (r: bool)
    ensures r <==> u.units == other.units
  {
    var r := forall key: Key :: Exponent(u, key) == Exponent(other, key);
    assert r ==> (Exponent(u, M) == Exponent(other, M) && Exponent(u, Kg) == Exponent(other, Kg)
                  && Exponent(u, S) == Exponent(other, S) && Exponent(u, K) == Exponent(other, K)
                  && Exponent(u, Amp) == Exponent(other, Amp) && Exponent(u, Cd) == Exponent(other, Cd)
                  && Exponent(u, Mol) == Exponent(other, Mol));
    r
  }

  /** How many `referenceUnit`s make one `u`; the failed `assert` on mismatched dimensions is an error. */
  function Convert(u: Unit, referenceUnit: Unit): (r: Result<real>)
    requires MatchesDimensions(u, referenceUnit) ==> referenceUnit.factor != 0.0
    ensures r.Ok? <==> MatchesDimensions(u, referenceUnit)
    ensures r.Err? ==> r.error == AssertionError
    ensures r.Ok? ==> Normalize(referenceUnit, r.value) == Normalize(u, 1.0)
  {
    if !MatchesDimensions(u, referenceUnit) then Err(AssertionError)
    else Ok(FromBaseUnits(referenceUnit, u.factor))
  }

  /** `u * other`: the factors multiply and the exponents add key by key. */
  function Mul(u: Unit, other: Unit): (r: Unit)
    ensures r.factor == u.factor * other.factor
    ensures u.factor != 0.0 && other.factor != 0.0 ==> r.factor != 0.0
    ensures forall key: Key :: Exponent(r, key) == Exponent(u, key) + Exponent(other, key)
  {
    var ExponentDict(m1, kg1, s1, k1, amp1, cd1, mol1) := u.units;
    var ExponentDict(m2, kg2, s2, k2, amp2, cd2, mol2) := other.units;
    Unit(u.factor * other.factor,
         ExponentDict(m1 + m2, kg1 + kg2, s1 + s2, k1 + k2, amp1 + amp2, cd1 + cd2, mol1 + mol2))
  }

  /** A left operand of `*` whose own `__mul__` gave up: another unit, or a plain number. */
  datatype Factor = UnitFactor(unit: Unit) | NumberFactor(x: real)

  /**
   * `other * u` through `__rmul__`, which the source binds to `__mul__` with
   * `u` as `self`: a number has no `_units`, so `3 * meters` raises
   * AttributeError; a unit gives the product, in either order.
   */
  function RMul(u: Unit, other: Factor): (r: Result<Unit>)
    ensures other.NumberFactor? ==> r == Err(AttributeError)
    ensures other.UnitFactor? ==> r == Ok(Mul(other.unit, u))
  {
    match other
    case NumberFactor(_) => Err(AttributeError)
    case UnitFactor(v) =>
      MulCommutative(u, v);
      Ok(Mul(u, v))
  }

  /** `u / other`: the factors divide and the exponents subtract key by key. */
  function Div(u: Unit, other: Unit): (r: Unit)
    requires other.factor != 0.0
    ensures forall key: Key :: Exponent(r, key) == Exponent(u, key) - Exponent(other, key)
    ensures Mul(r, other) == u
  {
    var ExponentDict(m1, kg1, s1, k1, amp1, cd1, mol1) := u.units;
    var ExponentDict(m2, kg2, s2, k2, amp2, cd2, mol2) := other.units;
    Unit(u.factor / other.factor,
         ExponentDict(m1 - m2, kg1 - kg2, s1 - s2, k1 - k2, amp1 - amp2, cd1 - cd2, mol1 - mol2))
  }

  /**
   * `u ** exp` for a whole-number `exp`: the factor is raised to `exp` and
   * every exponent multiplied by it. A negative power of a zero factor is
   * Python's ZeroDivisionError.
   */
  function Pow(u: Unit, exp: int): (r: Unit)
    requires u.factor != 0.0 || exp >= 0
    ensures r.factor == IntPow(u.factor, exp)
    ensures forall key: Key :: Exponent(r, key) == Exponent(u, key) * exp as real
  {
    var n := exp as real;
    var ExponentDict(m, kg, s, k, amp, cd, mol) := u.units;
    Unit(IntPow(u.factor, exp), ExponentDict(m * n, kg * n, s * n, k * n, amp * n, cd * n, mol * n))
  }

  /** `__eq__`: equal factors and matching dimensions. */
  predicate Eq(u: Unit, other: Unit): (r: bool)
    ensures r <==> u == other
  {
    u.factor == other.factor && MatchesDimensions(u, other)
  }

  // ---------------------------------------------------------------------
  // Properties
  // ---------------------------------------------------------------------

  /** Matching dimensions is the same as having the same exponent dictionary, and the same dimension tuple. */
  lemma MatchesIffSameExponents(u: Unit, v: Unit)
    ensures MatchesDimensions(u, v) <==> u.units == v.units
    ensures MatchesDimensions(u, v) <==> ToDims(u) == ToDims(v)
  {
    if MatchesDimensions(u, v) {
      assert Exponent(u, M) == Exponent(v, M);
      assert Exponent(u, Kg) == Exponent(v, Kg);
      assert Exponent(u, S) == Exponent(v, S);
      assert Exponent(u, K) == Exponent(v, K);
      assert Exponent(u, Amp) == Exponent(v, Amp);
      assert Exponent(u, Cd) == Exponent(v, Cd);
      assert Exponent(u, Mol) == Exponent(v, Mol);
    }
  }

  /** Reading a unit's exponents as a dimension tuple turns `*` into `dim_mul`. */
  lemma MulDims(u: Unit, v: Unit)
    ensures ToDims(Mul(u, v)) == DimMul(ToDims(u), ToDims(v))
  {
  }

  /** ... and `/` into `dim_div`. */
  lemma DivDims(u: Unit, v: Unit)
    requires v.factor != 0.0
    ensures ToDims(Div(u, v)) == DimDiv(ToDims(u), ToDims(v))
  {
  }

  /** ... and `**` into `dim_pow`. */
  lemma PowDims(u: Unit, n: int)
    requires u.factor != 0.0 || n >= 0
    ensures ToDims(Pow(u, n)) == DimPow(ToDims(u), n as real)
  {
  }

  /** Matching dimensions ignores the factors and is an equivalence relation. */
  lemma MatchesDimensionsEquivalence(u: Unit, v: Unit, w: Unit, f: real)
    ensures MatchesDimensions(u, u)
    ensures MatchesDimensions(u, v) ==> MatchesDimensions(v, u)
    ensures MatchesDimensions(u, v) && MatchesDimensions(v, w) ==> MatchesDimensions(u, w)
    ensures MatchesDimensions(u, v) <==> MatchesDimensions(Unit(f, u.units), v)
  {
  }

  lemma MulCommutative(u: Unit, v: Unit)
    ensures Mul(u, v) == Mul(v, u)
  {
  }

  lemma MulAssociative(u: Unit, v: Unit, w: Unit)
    ensures Mul(Mul(u, v), w) == Mul(u, Mul(v, w))
  {
  }

  /** The dimensionless unit of factor 1 is the identity of multiplication. */
  lemma MulUnity(u: Unit)
    ensures Mul(u, Unity) == u && Mul(Unity, u) == u
  {
  }

  /** A unit divided by itself is the unity unit (for a nonzero factor). */
  lemma DivSelf(u: Unit)
    requires u.factor != 0.0
    ensures Div(u, u) == Unity
  {
    assert u.factor / u.factor == 1.0;
  }

  /** Division undoes multiplication. */
  lemma DivUndoesMul(u: Unit, v: Unit)
    requires v.factor != 0.0
    ensures Div(Mul(u, v), v) == u
  {
  }

  lemma PowZeroOne(u: Unit)
    requires u.factor != 0.0
    ensures Pow(u, 0) == Unity
    ensures Pow(u, 1) == u
  {
  }

  lemma PowTwoIsSquare(u: Unit)
    ensures Pow(u, 2) == Mul(u, u)
  {
    IntPowSmall(u.factor);
  }

  /** Products, quotients and powers of factor-1 units have factor 1. */
  lemma FactorOneClosed(u: Unit, v: Unit, n: int)
    requires u.factor == 1.0 && v.factor == 1.0
    ensures Mul(u, v).factor == 1.0 && Div(u, v).factor == 1.0 && Pow(u, n).factor == 1.0
  {
    IntPowOfOne(n);
  }

  /** Products and quotients of units with matching dimensions have matching dimensions. */
  lemma MulRespectsMatching(u: Unit, u': Unit, v: Unit, v': Unit)
    requires MatchesDimensions(u, u') && MatchesDimensions(v, v')
    ensures MatchesDimensions(Mul(u, v), Mul(u', v'))
    ensures v.factor != 0.0 && v'.factor != 0.0 ==> MatchesDimensions(Div(u, v), Div(u', v'))
  {
  }

  /** Normalizing and converting back are inverse (for a nonzero factor). */
  lemma NormalizeRoundTrip(u: Unit, x: real)
    requires u.factor != 0.0
    ensures FromBaseUnits(u, Normalize(u, x)) == x
    ensures Normalize(u, FromBaseUnits(u, x)) == x
  {
  }

  /** Converting `u` into `v` and `v` into `u` gives reciprocal ratios. */
  lemma ConvertReciprocal(u: Unit, v: Unit)
    requires u.factor != 0.0 && v.factor != 0.0 && MatchesDimensions(u, v)
    ensures Convert(v, u).Ok? && Convert(u, v).value * Convert(v, u).value == 1.0
  {
    assert Convert(u, v).value == u.factor / v.factor;
    assert Convert(v, u).value == v.factor / u.factor;
    ReciprocalRatios(u.factor, v.factor);
  }

  lemma ReciprocalRatios(a: real, b: real)
    requires a != 0.0 && b != 0.0
    ensures (a / b) * (b / a) == 1.0
  {
    assert (a / b) * (b / a) == (a * b) / (b * a);
  }

  // ---------------------------------------------------------------------
  // Predefined units
  // ---------------------------------------------------------------------

  const Nano: Unit := MakeUnit(1.0 / 1000000000.0)
  const Micro: Unit := MakeUnit(1.0 / 1000000.0)
  const Milli: Unit := MakeUnit(1.0 / 1000.0)
  const Centi: Unit := MakeUnit(1.0 / 100.0)
  const Deci: Unit := MakeUnit(1.0 / 10.0)
  const Unity: Unit := MakeUnit(1.0)
  const Deca: Unit := MakeUnit(10.0)
  const Hecta: Unit := MakeUnit(100.0)
  const Kilo: Unit := MakeUnit(1000.0)
  const Mega: Unit := MakeUnit(1000000.0)
  const Giga: Unit := MakeUnit(1000000000.0)

  const Meters: Unit := MakeUnit(1.0, m := 1.0)
  const Kilograms: Unit := MakeUnit(1.0, kg := 1.0)
  const Seconds: Unit := MakeUnit(1.0, s := 1.0)
  const Candelas: Unit := MakeUnit(1.0, cd := 1.0)
  const Mols: Unit := MakeUnit(1.0, mol := 1.0)
  const Amps: Unit := MakeUnit(1.0, amp := 1.0)
  const Kelvin: Unit := MakeUnit(1.0, k := 1.0)

  const Centimeters: Unit := Mul(Centi, Meters)
  const Millimeters: Unit := Mul(Milli, Meters)
  const Inches: Unit := Mul(MakeUnit(25.4), Millimeters)
  const Feet: Unit := Mul(MakeUnit(12.0), Inches)
  const Yards: Unit := Mul(MakeUnit(3.0), Feet)
  /** `miles` as the source defines it: a bare factor with no length dimension (see Miles). */
  const MilesAsWritten: Unit := MakeUnit(5280.0)
  /** A mile: 5280 feet. */
  const Miles: Unit := Mul(MakeUnit(5280.0), Feet)

  const SquareMeters: Unit := Pow(Meters, 2)
  const SquareCentimeters: Unit := Pow(Centimeters, 2)
  const SquareMillimeters: Unit := Pow(Millimeters, 2)
  const SquareInches: Unit := Pow(Inches, 2)
  const SquareFeet: Unit := Pow(Feet, 2)
  const CubicMeters: Unit := Pow(Meters, 3)
  const CubicCentimeters: Unit := Pow(Centimeters, 3)
  const CubicMillimeters: Unit := Pow(Millimeters, 3)
  const QuarticMeters: Unit := Pow(Meters, 4)
  const QuarticCentimeters: Unit := Pow(Centimeters, 4)
  const QuarticMillimeters: Unit := Pow(Millimeters, 4)

  const Grams: Unit := Div(Kilograms, Kilo)
  const Tonnes: Unit := Mul(MakeUnit(1000.0), Kilograms)
  const Pounds: Unit := Mul(MakeUnit(0.45359237), Kilograms)
  const Slugs: Unit := Mul(MakeUnit(14.5939), Kilograms)

  const Minutes: Unit := Mul(MakeUnit(60.0), Seconds)
  const Hours: Unit := Mul(MakeUnit(60.0), Minutes)

  const MetersPerSecond: Unit := Div(Meters, Seconds)
  /** Miles per hour built on the corrected `Miles`; see MilesPerHourAsWritten. */
  const MilesPerHour: Unit := Div(Miles, Hours)
  /** `miles_per_hour` as the source defines it, on the dimensionless `MilesAsWritten`. */
  const MilesPerHourAsWritten: Unit := Div(MilesAsWritten, Hours)

  const Newtons: Unit := Div(Mul(Kilograms, Meters), Pow(Seconds, 2))
  const Kilonewtons: Unit := Mul(Kilo, Newtons)
  const Dynes: Unit := Div(Mul(Grams, Centimeters), Pow(Seconds, 2))
  const PoundForce: Unit := Div(Mul(Slugs, Feet), Pow(Seconds, 2))

  const Pascals: Unit := Div(Newtons, Pow(Meters, 2))
  const Kilopascals: Unit := Mul(Kilo, Pascals)
  const Megapascals: Unit := Mul(Mega, Pascals)
  const Gigapascals: Unit := Mul(Giga, Pascals)
  const Atmospheres: Unit := Mul(MakeUnit(101325.0), Pascals)
  const Torrs: Unit := Div(Atmospheres, MakeUnit(760.0))

  const Joules: Unit := MakeUnit(1.0, kg := 1.0, m := 2.0, s := -2.0)
  const Watts: Unit := Div(Joules, Seconds)
  const Volts: Unit := Div(Watts, Amps)

  const NewtonMeters: Unit := Mul(Newtons, Meters)
  const KilonewtonMeters: Unit := Mul(Kilonewtons, Meters)
  const PoundFeet: Unit := Mul(PoundForce, Feet)

  const Pi: real := 3.14159265358979323846264338327950288419716939937510582097
  const Radians: Unit := MakeUnit(1.0)
  const Degrees: Unit := Mul(Radians, MakeUnit(Pi / 180.0))
  const Arcminutes: Unit := Div(Degrees, MakeUnit(60.0))
  const Arcseconds: Unit := Div(Arcminutes, MakeUnit(60.0))

  const Hertz: Unit := Div(MakeUnit(1.0), Seconds)
  const Rpm: Unit := Div(MakeUnit(1.0), Minutes)

  // ---------------------------------------------------------------------
  // Facts about the predefined units
  // ---------------------------------------------------------------------

  /** The SI base units and the units built from them alone have factor 1. */
  lemma BaseUnitsAtUnity()
    ensures Meters.factor == 1.0 && SquareMeters.factor == 1.0 && CubicMeters.factor == 1.0
    ensures QuarticMeters.factor == 1.0 && Kilograms.factor == 1.0 && Seconds.factor == 1.0
    ensures Newtons.factor == 1.0 && NewtonMeters.factor == 1.0 && Pascals.factor == 1.0
    ensures Hertz.factor == 1.0 && Radians.factor == 1.0
  {
    FactorOneClosed(Meters, Meters, 2);
    FactorOneClosed(Meters, Meters, 3);
    FactorOneClosed(Meters, Meters, 4);
    FactorOneClosed(Seconds, Seconds, 2);
    FactorOneClosed(Kilograms, Meters, 0);
    FactorOneClosed(Mul(Kilograms, Meters), Pow(Seconds, 2), 0);
    FactorOneClosed(Newtons, Meters, 0);
    FactorOneClosed(Newtons, SquareMeters, 0);
    FactorOneClosed(MakeUnit(1.0), Seconds, 0);
  }

  /** Length units match meters; areas, volumes, time, mass and force do not. */
  lemma DistanceUnits()
    ensures MatchesDimensions(Meters, Meters)
    ensures MatchesDimensions(Millimeters, Meters) && MatchesDimensions(Centimeters, Meters)
    ensures !MatchesDimensions(SquareMeters, Meters) && !MatchesDimensions(CubicMeters, Meters)
    ensures !MatchesDimensions(QuarticMeters, Meters)
    ensures !MatchesDimensions(Seconds, Meters) && !MatchesDimensions(Kilograms, Meters)
    ensures !MatchesDimensions(Newtons, Meters) && !MatchesDimensions(NewtonMeters, Meters)
  {
    assert Exponent(SquareMeters, M) == 2.0;
    assert Exponent(CubicMeters, M) == 3.0;
    assert Exponent(QuarticMeters, M) == 4.0;
    assert Exponent(Seconds, M) == 0.0;
    assert Exponent(Kilograms, M) == 0.0;
    assert Exponent(Newtons, Kg) == 1.0;
    assert Exponent(NewtonMeters, M) == 2.0;
  }

  /** Tonnes and grams are kilograms scaled by 1000 and 1/1000. */
  lemma MassUnits()
    ensures Kilograms == Unit(1.0, ExponentDict(0.0, 1.0, 0.0, 0.0, 0.0, 0.0, 0.0))
    ensures Tonnes == Unit(1000.0, Kilograms.units)
    ensures Grams == Unit(1.0 / 1000.0, Kilograms.units)
  {
  }

  /** 100 base units are 100 m, 100000 mm or 10000 cm. */
  lemma DistanceFromBaseUnits()
    ensures FromBaseUnits(Meters, 100.0) == 100.0
    ensures FromBaseUnits(Millimeters, 100.0) == 100000.0
    ensures FromBaseUnits(Centimeters, 100.0) == 10000.0
  {
    assert Millimeters.factor == 0.001;
    assert Centimeters.factor == 0.01;
  }

  lemma AreaUnits()
    ensures MatchesDimensions(SquareMeters, SquareMeters)
    ensures MatchesDimensions(SquareCentimeters, SquareMeters)
    ensures MatchesDimensions(SquareMillimeters, SquareMeters)
  {
  }

  /** Products of base units: `kg*kg*kg == Unit(1, kg=3)` and the like. */
  lemma MultiplyExamples()
    ensures Eq(Mul(Mul(Kilograms, Kilograms), Kilograms), MakeUnit(1.0, kg := 3.0))
    ensures Eq(Mul(Kilograms, Meters), MakeUnit(1.0, kg := 1.0, m := 1.0))
    ensures Eq(Mul(Mul(Kilograms, Meters), Seconds), MakeUnit(1.0, kg := 1.0, s := 1.0, m := 1.0))
  {
  }

  /** Quotients of base units: `kg / kg == unity` and `m / s == Unit(1, m=1, s=-1)`. */
  lemma DivideExamples()
    ensures Eq(Div(Kilograms, Kilograms), Unity) && Eq(Div(Meters, Meters), Unity)
    ensures Eq(Div(Seconds, Seconds), Unity)
    ensures Eq(Div(Meters, Seconds), MakeUnit(1.0, m := 1.0, s := -1.0))
  {
    DivSelf(Kilograms);
    DivSelf(Meters);
    DivSelf(Seconds);
  }

  /** Powers of base units: `m ** 3 == Unit(1, m=3)` and `(m/s) ** 2 == Unit(1, m=2, s=-2)`. */
  lemma PowExamples()
    ensures Eq(Pow(Meters, 3), MakeUnit(1.0, m := 3.0))
    ensures Eq(Pow(Div(Meters, Seconds), 2), MakeUnit(1.0, m := 2.0, s := -2.0))
  {
    IntPowSmall(1.0);
  }

  /** Normalizing 100 of a unit multiplies by its factor, e.g. 100 mm is 0.1 m. */
  lemma NormalizeExamples()
    ensures Normalize(MakeUnit(1.0, m := 1.0), 100.0) == 100.0
    ensures Normalize(MakeUnit(1.0 / 1000.0, m := 1.0), 100.0) == 0.1
    ensures Normalize(MakeUnit(1000.0, m := 1.0), 100.0) == 100000.0
    ensures Normalize(Mul(MakeUnit(1.0 / 1000.0, m := 1.0), MakeUnit(1.0, m := 1.0)), 100.0) == 0.1
  {
  }

  /** The units of each kind have the dimensions of the corresponding dimension tuple. */
  lemma PredefinedDimensions()
    ensures ToDims(Meters) == DistanceT && ToDims(Kilograms) == MassT && ToDims(Seconds) == TimeT
    ensures ToDims(SquareMeters) == AreaT && ToDims(CubicMeters) == VolumeT
    ensures ToDims(MetersPerSecond) == SpeedT && ToDims(Hertz) == FrequencyT
    ensures ToDims(Newtons) == ForceT && ToDims(Pascals) == PressureT
    ensures ToDims(Joules) == EnergyT && ToDims(Watts) == PowerT && ToDims(NewtonMeters) == MomentT
    ensures ToDims(Volts) == PotentialT && ToDims(Volts) != PotentialTAsWritten
  {
    ElectricalDimensionsAsWritten();
    ElectricalDimensions();
  }

  /** `miles` as written has no length dimension, so it matches neither meters nor feet, and `miles_per_hour` is not a speed. */
  lemma MilesAsWrittenIsDimensionless()
    ensures MatchesDimensions(MilesAsWritten, Unity)
    ensures !MatchesDimensions(MilesAsWritten, Meters) && !MatchesDimensions(MilesAsWritten, Feet)
    ensures !MatchesDimensions(MilesPerHourAsWritten, MetersPerSecond)
  {
    assert Exponent(Meters, M) == 1.0;
    assert Exponent(Feet, M) == 1.0;
    assert Exponent(MetersPerSecond, M) == 1.0;
  }

  /** A mile as 5280 feet is a length of 1609.344 m, and miles per hour is a speed. */
  lemma MilesIsALength()
    ensures MatchesDimensions(Miles, Meters) && Miles.factor == 1609.344
    ensures Convert(Miles, Feet) == Ok(5280.0)
    ensures MatchesDimensions(MilesPerHour, MetersPerSecond)
  {
  }
}
