# siquant in Dafny

siquant is a small Python library for physical quantities with SI units.
This project models its core in Dafny and proves properties of that model:

- `dimensions.dfy` (module `Dimensions`): the dimension tuples of
  `siquant/dimensions.py`. These are seven real exponents of kg, m, s, k, a,
  mol and cd. The file has products, quotients and powers of tuples, their
  printing (`dim_str`), and the derived dimensions (speed, force, energy,
  potential, ...).
- `units.dfy` (module `Units`): the `Unit` class of `siquant/units.py`. A
  unit is a scale factor plus an exponent dictionary over seven fixed keys.
  The file has `normalize`, `from_base_units`, `convert`, `*`, `/`, `**` and
  `==`, and the predefined units (meters, newtons, miles, ...).
- `realpower.dfy` (module `RealPower`): `x ** n` on reals for a whole-number
  `n`, plus small facts about products and quotients.
- `quantities.dfy` (module `Quantities`): the `Quantity` class of
  `siquant/quantities.py`. A quantity is a number together with a unit, and
  every operator returns a new quantity.
  - The unit interface that class relies on (`_scale`, `compatible`,
    `base_units`, `*`, `/`, `**`) is modelled abstractly: a unit is a
    positive scale plus a dimension tuple. Compatible means equal dimensions.
  - `Amount(q)`, the number times the scale, is the amount in base units.
    The contracts are stated in those terms.
- `dispatch.dfy` (module `Dispatch`): `bin_op_dispatcher` of
  `siquant/quantities/dispatch.py`, as a class `Dispatcher`.
  - Its `registry` field maps an operand's type to a handler.
  - The `register` loop updates the map in place. `Dispatch` reads it and
    raises a KeyError for an unregistered type.
- `meta.dfy` (module `QuantityTypes`): the typed quantities generated by the
  metaclasses of `siquant/quantities/meta.py`.
  - A quantity type is a name plus base units. An instance stores one
    number: the given value times the given unit's factor, which is the
    amount in factor-1 SI units. That is the value in the type's base units
    only when their factor is 1 (the coherent types below).
  - Equality and ordering are type-gated.
  - A `LinearType` object holds the four operator registries that
    `LinearQuantity` installs: adder, subtracter, multiplier and divider.
    Its constructor registers the scalar and same-type handlers. Its
    `QMultiplier` and `QDivider` methods register cross-type products and
    quotients.
- `outcomes.dfy` (module `Outcomes`): `Result` and `Option`. Each exception
  the library raises becomes an `Err` value:
  - a failed `assert` is `AssertionError`;
  - a registry miss is `KeyError`;
  - `other._units` on a non-quantity is `AttributeError`;
  - a non-numeric operand is `TypeError`;
  - a type declared without base units is `ValueError`;
  - a division by zero inside a registered handler is `ZeroDivisionError`.

Outside registered handlers, Python's ZeroDivisionError on a zero divisor is
a precondition (`requires divisor != 0.0`).

Numbers are exact reals. Python floats, and the NumPy arrays some tests pass
in, are not modelled.

In `meta.py`, `add`, `sub` and `__neg__` rebuild their result as
`q1.__class__(value)`. That call uses the default units, so the stored
result is the value times the base factor. The model keeps this
(`Renormalized`). It matters only for base units whose factor is not 1, and
every type the library declares has factor-1 base units. The model calls such
types `Coherent`, and the algebraic laws of typed quantities are proved for
them.

## Model

| member | source | states |
|---|---|---|
| `Dimensions.SIDimensions` | siquant/dimensions.py:4-23 | the tuple holds the given exponents in the order kg, m, s, k, a, mol, cd; missing ones are 0 |
| `Dimensions.DimMul` | siquant/dimensions.py:26-43 | dividing a product by its second factor gives back the first |
| `Dimensions.DimDiv` | siquant/dimensions.py:46-63 | each exponent of the quotient plus the divisor's is the dividend's; the quotient is dimensionless exactly when the two tuples are equal |
| `Dimensions.DimPow` | siquant/dimensions.py:66-83 | each exponent is multiplied by the power; every power of the dimensionless tuple is dimensionless |
| `Dimensions.DimMulCommutative` | siquant/dimensions.py:26-43 | `dim_mul` is commutative |
| `Dimensions.DimMulAssociative` | siquant/dimensions.py:26-43 | `dim_mul` is associative |
| `Dimensions.DimMulIdentity` | siquant/dimensions.py:26-43 | the dimensionless tuple is the identity of `dim_mul` |
| `Dimensions.DimDivSelf` | siquant/dimensions.py:46-63 | a tuple divided by itself is dimensionless |
| `Dimensions.DimDivInverse` | siquant/dimensions.py:26-63 | `dim_div` undoes `dim_mul`, and `dim_mul` undoes `dim_div` |
| `Dimensions.DimDivIsMulByInverse` | siquant/dimensions.py:46-83 | dividing is multiplying by the power -1 |
| `Dimensions.DimPowOne` | siquant/dimensions.py:66-83 | the power 1 is the identity |
| `Dimensions.DimPowZero` | siquant/dimensions.py:66-83 | the power 0 is dimensionless |
| `Dimensions.DimPowPow` | siquant/dimensions.py:66-83 | powers compose by multiplying the exponents |
| `Dimensions.DimSquareRoot` | tests/test_dimensions.py:29-38 | the power 0.5 undoes the square |
| `Dimensions.DimPowMul` | siquant/dimensions.py:66-83 | a power distributes over a product |
| `Dimensions.DimPowAdd` | siquant/dimensions.py:66-83 | powers of one tuple multiply by adding exponents |
| `Dimensions.DimPowNeg` | siquant/dimensions.py:46-83 | the power `-e` is the dimensionless tuple divided by the power `e` |
| `Dimensions.NatStr` | siquant/dimensions.py:94 | a nonempty string of decimal digits, without a leading zero, whose decimal value is the number |
| `Dimensions.IntStr` | siquant/dimensions.py:94 | starts with a minus sign exactly when the number is negative; the digits after it have the absolute value as decimal value and no leading zero |
| `Dimensions.Terms` | siquant/dimensions.py:93-97 | no terms exactly when every exponent is zero; every term is nonempty |
| `Dimensions.NonzeroIndices` | siquant/dimensions.py:95-97 | every listed position holds a nonzero exponent |
| `Dimensions.NonzeroIndicesIncreasing` | siquant/dimensions.py:95-97 | the positions are listed in strictly increasing order, so each at most once |
| `Dimensions.NonzeroIndicesComplete` | siquant/dimensions.py:95-97 | every position holding a nonzero exponent is listed |
| `Dimensions.TermsAtNonzeroIndices` | siquant/dimensions.py:93-97 | there are as many terms as nonzero exponents, and the k-th term is `abbr**power` for the k-th nonzero exponent |
| `Dimensions.Join` | siquant/dimensions.py:93 | joining nonempty parts gives the empty string only for no parts |
| `Dimensions.JoinAppend` | siquant/dimensions.py:93 | joining two nonempty lists is joining each and putting one `*` between them |
| `Dimensions.DimStr` | siquant/dimensions.py:86-97 | for every printable tuple, the text is the `*`-join of `abbr**power` over the nonzero exponents, in the order kg, m, s, k, a, mol, cd |
| `Dimensions.DimStrEmpty` | siquant/dimensions.py:86-97 | `dim_str` is empty exactly for the dimensionless tuple |
| `Dimensions.DimStrForce` | tests/test_dimensions.py:41-43 | a force prints as `kg**1*m**1*s**-2` |
| `Dimensions.DerivedDimensions` | siquant/dimensions.py:100-260 | the derived dimension constants have the SI exponent tuples (speed, acceleration, force, energy = moment, pressure, ...) |
| `Dimensions.ElectricalDimensionsAsWritten` | siquant/dimensions.py:206-230 | `potential_t` as written equals `magnetic_flux_t` and is not power per current; capacitance, resistance (= impedance = reactance), conductance and inductance built on it each have one power of the second too many or too few, and differ from the corrected constants |
| `Dimensions.ElectricalDimensions` | siquant/dimensions.py:200-230 | the corrected potential is power per current (the volt), and capacitance, resistance, conductance and inductance get their SI tuples |
| `RealPower.NatPow` | siquant/units.py:93 | a power of a nonzero base is nonzero, of a positive base positive |
| `RealPower.IntPow` | siquant/units.py:93 | the same, for negative exponents too |
| `RealPower.NatPowMul` | siquant/units.py:93 | (x*y)^n = x^n * y^n for natural n |
| `RealPower.IntPowMul` | siquant/units.py:93 | (x*y)^n = x^n * y^n for whole n (nonzero bases when n < 0) |
| `RealPower.IntPowSmall` | siquant/units.py:93 | x^0 = 1, x^1 = x, x^2 = x*x, x^3 = x*x*x |
| `RealPower.IntPowOfOne` | siquant/units.py:93 | 1^n = 1 for every whole n |
| `RealPower.IntPowSucc` | siquant/units.py:93 | x^(n+1) = x^n * x for natural n |
| `Units.MakeUnit` | siquant/units.py:3-25 | the factor and each keyed exponent are the arguments, missing exponents 0; the dimension tuple is `SIDimensions` of them |
| `Units.Exponent` | siquant/units.py:37-46 | the exponent of a key is the dimension tuple's component at that key's position |
| `Units.Normalize` | siquant/units.py:27-28 | dividing the result by a nonzero factor gives back the quantity; a factor of 1 keeps it |
| `Units.FromBaseUnits` | siquant/units.py:27-31 | `normalize` of the result gives back the normalised quantity |
| `Units.Convert` | siquant/units.py:33-35 | succeeds exactly when the dimensions match, else AssertionError; the result expresses one of `u` in the reference unit |
| `Units.MatchesDimensions` | siquant/units.py:106-107 | true exactly when all seven exponents agree |
| `Units.Mul` | siquant/units.py:48-61 | factors multiply (nonzero stays nonzero) and exponents add key by key |
| `Units.RMul` | siquant/units.py:63 | with a unit on the left, the product taken the other way round; with a number on the left (`3 * meters`), AttributeError |
| `Units.Div` | siquant/units.py:65-78 | exponents subtract key by key, and multiplying back by the divisor gives the dividend |
| `Units.Pow` | siquant/units.py:80-93 | the factor is raised to the power and each exponent multiplied by it |
| `Units.Eq` | siquant/units.py:103-104 | true exactly for equal factors and equal exponents, that is, for equal units |
| `Units.MatchesIffSameExponents` | siquant/units.py:106-107 | matching dimensions iff equal exponent dictionaries iff equal dimension tuples |
| `Units.MulDims` | siquant/units.py:48-61 | unit product maps to `dim_mul` |
| `Units.DivDims` | siquant/units.py:65-78 | unit quotient maps to `dim_div` |
| `Units.PowDims` | siquant/units.py:80-93 | unit power maps to `dim_pow` |
| `Units.MatchesDimensionsEquivalence` | siquant/units.py:106-107 | matching is an equivalence and ignores the factor |
| `Units.MulCommutative` | siquant/units.py:48-61 | unit product commutes |
| `Units.MulAssociative` | siquant/units.py:48-61 | unit product is associative |
| `Units.MulUnity` | siquant/units.py:48-61 | `unity` is the identity of the product |
| `Units.DivSelf` | siquant/units.py:65-78 | a unit over itself is `unity` |
| `Units.DivUndoesMul` | siquant/units.py:48-78 | dividing by a factor undoes multiplying by it |
| `Units.PowZeroOne` | siquant/units.py:80-93 | `u ** 0` is `unity` and `u ** 1` is `u` |
| `Units.PowTwoIsSquare` | siquant/units.py:80-93 | `u ** 2` is `u * u` |
| `Units.FactorOneClosed` | siquant/units.py:48-93 | products, quotients and powers of factor-1 units have factor 1 |
| `Units.MulRespectsMatching` | siquant/units.py:48-78 | products and quotients of matching units match |
| `Units.NormalizeRoundTrip` | siquant/units.py:27-31 | `normalize` and `from_base_units` are inverse |
| `Units.ConvertReciprocal` | siquant/units.py:33-35 | converting each way gives reciprocal ratios |
| `Units.BaseUnitsAtUnity` | siquant/tests/test_unit_types.py:7-19 | meters, square/cubic/quartic meters, kilograms, seconds, newtons, newton-meters, pascals, hertz and radians have factor 1 |
| `Units.DistanceUnits` | siquant/tests/test_unit_types.py:21-35 | millimeters and centimeters match meters; areas, volumes, seconds, kilograms and forces do not |
| `Units.MassUnits` | siquant/units.py:141-174 | tonnes and grams are kilograms scaled by 1000 and 1/1000 |
| `Units.DistanceFromBaseUnits` | siquant/tests/test_unit_types.py:37-39 | 100 base units are 100 m, 100000 mm, 10000 cm |
| `Units.AreaUnits` | siquant/tests/test_unit_types.py:41-45 | square centimeters and millimeters match square meters |
| `Units.MultiplyExamples` | siquant/tests/test_unit.py:7-15 | `kg*kg*kg == Unit(1, kg=3)` and the other products of the test |
| `Units.DivideExamples` | siquant/tests/test_unit.py:18-28 | `kg/kg == unity`, `m/s == Unit(1, m=1, s=-1)` |
| `Units.PowExamples` | siquant/tests/test_unit.py:30-38 | `m**3 == Unit(1, m=3)`, `(m/s)**2 == Unit(1, m=2, s=-2)` |
| `Units.NormalizeExamples` | siquant/tests/test_unit.py:40-52 | 100 m, mm, km and mm*m normalise to 100, 0.1, 100000, 0.1 |
| `Units.PredefinedDimensions` | siquant/units.py:138-213 | the predefined units have the dimension tuples of their kinds; volts have the corrected potential |
| `Units.MilesAsWrittenIsDimensionless` | siquant/units.py:155 | `miles` as written is dimensionless: it matches neither meters nor feet, and `miles / hours` is not a speed |
| `Units.MilesIsALength` | siquant/units.py:150-186 | a mile of 5280 feet is a length of factor 1609.344, converts to 5280 ft, and miles per hour is a speed |
| `Quantities.BaseUnits` | siquant/quantities.py:26 | the base units have scale 1 and are compatible with the unit |
| `Quantities.UnitMul` | siquant/quantities.py:52 | dividing the product by the second factor gives back the first |
| `Quantities.UnitDiv` | siquant/quantities.py:62 | multiplying the quotient by the divisor gives back the dividend's scale and, by `dim_mul`, its dimensions |
| `Quantities.UnitPow` | siquant/quantities.py:71 | for every whole `n`, the scale is raised to `n` and the dimensions are `dim_pow` by `n`; the power 0 is the dimensionless unit of scale 1, the power 1 the unit itself, and every power of a scale-1 unit has scale 1 |
| `Quantities.UnitPowSucc` | siquant/quantities.py:71 | for natural `n`, `u ** (n + 1)` is `u ** n * u` |
| `Quantities.UnitPowNeg` | siquant/quantities.py:71 | `u ** -n` is `1 / u ** n` |
| `Quantities.Get` | siquant/quantities.py:15-16 | `get()` is `get_as` of the quantity's own units |
| `Quantities.GetAs` | siquant/quantities.py:18-20 | succeeds exactly for compatible units (else AssertionError); the result in the new units stands for the same amount |
| `Quantities.CvtTo` | siquant/quantities.py:22-23 | the result is in the requested units and stands for the same amount; incompatible units fail |
| `Quantities.Normalized` | siquant/quantities.py:25-26 | as written: base units, and the number divided (not multiplied) by the scale |
| `Quantities.NormalizedIntended` | siquant/quantities.py:25-26 | corrected: base units, and a quantity equal to the original |
| `Quantities.Eq` | siquant/quantities.py:28-31 | NotImplemented for a non-quantity; otherwise compatible units and equal amounts |
| `Quantities.Lt` | siquant/quantities.py:33-36 | NotImplemented for a non-quantity; otherwise compatible units and a smaller amount |
| `Quantities.Add` | siquant/quantities.py:38-42 | AttributeError for a non-quantity, AssertionError for incompatible units; the sum is in the left units and its amount is the sum of amounts |
| `Quantities.Sub` | siquant/quantities.py:44-48 | the same for the difference |
| `Quantities.Mul` | siquant/quantities.py:50-55 | quantities: units multiply and amounts multiply; numbers: units kept, amount scaled; anything else TypeError |
| `Quantities.RMul` | siquant/quantities.py:57-58 | units kept, amount scaled |
| `Quantities.TrueDiv` | siquant/quantities.py:60-65 | quantities: units divide, and the quotient's amount times the divisor's is the dividend's; numbers: units kept; anything else TypeError |
| `Quantities.RTrueDiv` | siquant/quantities.py:67-68 | as written: units kept, value is the number over the quantity's value |
| `Quantities.RTrueDivIntended` | siquant/quantities.py:67-68 | corrected: units inverted, and the result times the quantity is the plain number |
| `Quantities.Pow` | siquant/quantities.py:70-71 | the power 0 is the number 1 in the dimensionless unit, and the power 1 is the quantity itself |
| `Quantities.PowAmount` | siquant/quantities.py:70-71 | the units are raised to `n`, and so is the amount |
| `Quantities.PowSucc` | siquant/quantities.py:50-71 | for natural `n`, `q ** (n + 1)` is `q ** n * q`, exactly |
| `Quantities.MulOfQuantities` | siquant/quantities.py:50-52 | the product of two quantities is the product of their numbers in the product of their units |
| `Quantities.Neg` | siquant/quantities.py:73-74 | units kept, amount negated |
| `Quantities.Abs` | siquant/quantities.py:76-77 | units kept, value is the original or its negation and not negative |
| `Quantities.Bool` | siquant/quantities.py:79-80 | true exactly when the amount is nonzero |
| `Quantities.CvtToRoundTrip` | siquant/quantities.py:18-23 | converting and reading back in the original units returns the original number |
| `Quantities.EqCvtTo` | siquant/tests/test_quantities.py:30-35 | a quantity equals its conversion into any compatible units |
| `Quantities.EqEquivalence` | siquant/quantities.py:28-31 | `==` on quantities is reflexive, symmetric and transitive |
| `Quantities.LtStrictOrder` | siquant/quantities.py:33-36 | `<` is irreflexive, asymmetric, transitive and false across incompatible units |
| `Quantities.Trichotomy` | siquant/quantities.py:28-36 | for compatible quantities exactly one of `<`, `==`, `>` holds |
| `Quantities.AddCommutesUpToUnits` | siquant/quantities.py:38-40 | `a + b` and `b + a` are equal but each is in its left operand's units |
| `Quantities.AddThenSub` | siquant/quantities.py:38-46 | `(a + b) - b` is exactly `a` |
| `Quantities.DivThenMul` | siquant/quantities.py:50-62 | `(a / b) * b` is exactly `a` |
| `Quantities.MulRespectsEq` | siquant/quantities.py:28-52 | products of equal quantities are equal |
| `Quantities.NegProperties` | siquant/quantities.py:73-74 | negation is an involution and reverses `<` |
| `Quantities.NormalizedAsWrittenDiffers` | siquant/quantities.py:25-26 | for a nonzero value and a scale other than 1, `normalized()` as written is not equal to the original |
| `Quantities.RTrueDivAsWrittenKeepsUnits` | siquant/quantities.py:67-68 | `2 / (4 m)` as written is 0.5 m; the corrected form has dimension m^-1 |
| `Quantities.AddUsesLeftUnits` | siquant/quantities.py:38-40 | 1 m + 1000 mm is 2 m, and 1000 mm + 1 m is 2000 mm |
| `Quantities.ForceExample` | tests/test_quantities.py:5-13 | 100 N read in kN is 0.1; converted, it is in kN; it equals 100 kg times 1 m/s^2 |
| `Dispatch.Dispatcher.constructor` | siquant/quantities/dispatch.py:2-3 | a fresh dispatcher has an empty registry |
| `Dispatch.Dispatcher.SupportedTypes` | siquant/quantities/dispatch.py:7 | exactly the registered types |
| `Dispatch.Dispatcher.Dispatch` | siquant/quantities/dispatch.py:4-6 | the handler registered for `type(other)` applied to both operands; KeyError exactly when that type is unregistered |
| `Dispatch.Dispatcher.Register` | siquant/quantities/dispatch.py:9-14 | every listed type now maps to the handler (overwriting), all other entries are kept, and the dispatcher itself is returned |
| `QuantityTypes.DefineType` | siquant/quantities/meta.py:13-15 | a type needs base units, else ValueError |
| `QuantityTypes.New` | siquant/quantities/meta.py:19-21 | succeeds exactly when the units have the type's dimensions (else AssertionError), storing the value normalised by those units |
| `QuantityTypes.Make` | siquant/quantities/meta.py:19-21 | `T(x)` is `T(x, T.base_units)`, which always succeeds; it has type `T`, and reading its stored value back in the base units gives `x` |
| `QuantityTypes.Get` | siquant/quantities/meta.py:36 | in a coherent type `get()` is `get_as(base_units)` |
| `QuantityTypes.GetAs` | siquant/quantities/meta.py:23-25 | succeeds exactly for units of the type's dimensions; normalising the result gives the stored value |
| `QuantityTypes.Equals` | siquant/quantities/meta.py:5-6 | true exactly when the other operand is a typed quantity identical to the first: same type and same stored value |
| `QuantityTypes.LessThan` | siquant/quantities/meta.py:8-9 | when true, both have one type and are not equal; within one type, `<`, `==` or `>` holds |
| `QuantityTypes.Neg` | siquant/quantities/meta.py:44 | same type; stored value is minus the re-normalised value |
| `QuantityTypes.Add` | siquant/quantities/meta.py:56-58 | AssertionError unless both have one type; the result has that type and stores the sum of the re-normalised values |
| `QuantityTypes.Sub` | siquant/quantities/meta.py:60-62 | the same for the difference |
| `QuantityTypes.ScalarMul` | siquant/quantities/meta.py:76 | the result has the registering type and stores the re-normalised value times the scalar |
| `QuantityTypes.ScalarDiv` | siquant/quantities/meta.py:77 | the result times the scalar stores the re-normalised value |
| `QuantityTypes.Ratio` | siquant/quantities/meta.py:78 | the ratio times the divisor's stored value is the dividend's |
| `QuantityTypes.QMul` | siquant/quantities/meta.py:83-84 | succeeds exactly when the result type's dimensions are the `dim_mul` of the operands' base dimensions, else AssertionError; the result has the result type and, in coherent types, stores the product |
| `QuantityTypes.QDiv` | siquant/quantities/meta.py:89-90 | the same for `dim_div`; in coherent types the stored quotient times the divisor's stored value is the dividend's |
| `QuantityTypes.NewGetAsRoundTrip` | siquant/quantities/meta.py:19-25 | building from `(x, u)` and reading in `u` gives `x` |
| `QuantityTypes.NewInAnyUnits` | siquant/quantities/meta.py:19-21 | building in any matching units equals building the normalised amount in base units |
| `QuantityTypes.EqualsEquivalence` | siquant/quantities/meta.py:5-6 | `equals` is an equivalence, is false across types, and holds exactly for identical instances |
| `QuantityTypes.LessThanStrictOrder` | siquant/quantities/meta.py:8-9 | `less_than` is a strict order within a type, total with `equals`, false across types |
| `QuantityTypes.GetIsGetAsBase` | siquant/quantities/meta.py:19-36 | in a coherent type `get()` is `get_as(base_units)`, and `T(x).get()` is `x` |
| `QuantityTypes.AddSubLaws` | siquant/quantities/meta.py:56-62 | `add` commutes; in a coherent type it sums stored values, `sub` undoes it, and `a - a` is `T(0)` |
| `QuantityTypes.NegLaws` | siquant/quantities/meta.py:44 | in a coherent type negation is an involution and reverses `less_than` |
| `QuantityTypes.ScalarLaws` | siquant/quantities/meta.py:76-78 | in a coherent type dividing by the scalar undoes multiplying by it, and the same-type ratio recovers the scalar |
| `QuantityTypes.DistanceExample` | siquant/tests/test_quantity_types.py:11-15 | `Distance(1000, meters).get()` is 1000 |
| `QuantityTypes.MassConstruction` | siquant/tests/test_quantity_types.py:17-22 | `Mass(1000)` equals `Mass(1000, kilograms)` and `Mass(1, tonnes)` |
| `QuantityTypes.MassArithmetic` | siquant/tests/test_quantity_types.py:24-27 | sum, double, difference and half of `Mass(1000)` |
| `QuantityTypes.MassInKilograms` | siquant/tests/test_quantity_types.py:29 | `Mass(1000)` reads 1000 in kilograms |
| `QuantityTypes.MassInTonnes` | siquant/tests/test_quantity_types.py:30 | `Mass(1000)` reads 1 in tonnes |
| `QuantityTypes.MassInGrams` | siquant/tests/test_quantity_types.py:31 | `Mass(1000)` reads 1000000 in grams |
| `QuantityTypes.AddHandler` | siquant/quantities/meta.py:56-58 | succeeds exactly for a quantity of the same type, else AssertionError; the result has that type and stores the sum of the re-normalised values |
| `QuantityTypes.SubHandler` | siquant/quantities/meta.py:60-62 | the same for the difference |
| `QuantityTypes.ScalarMulHandler` | siquant/quantities/meta.py:76 | a float or an int gives a value of the registering type storing the re-normalised value times that number; a quantity is a TypeError |
| `QuantityTypes.ScalarDivHandler` | siquant/quantities/meta.py:77 | a nonzero number gives a value of the registering type whose stored value times the number is the re-normalised value; zero is a ZeroDivisionError, a quantity a TypeError |
| `QuantityTypes.RatioHandler` | siquant/quantities/meta.py:78 | a quantity with a nonzero stored value gives a plain number that times the divisor's stored value is the dividend's; zero is a ZeroDivisionError, a number a TypeError |
| `QuantityTypes.QMulHandler` | siquant/quantities/meta.py:83-85 | for a quantity, succeeds exactly when `QMul` does (else AssertionError), with the result type; a number is a TypeError |
| `QuantityTypes.QDivHandler` | siquant/quantities/meta.py:89-91 | for a quantity with a nonzero stored value, succeeds exactly when `QDiv` does (else AssertionError), with the result type; a zero divisor is a ZeroDivisionError, a number a TypeError |
| `QuantityTypes.LinearType.constructor` | siquant/quantities/meta.py:64-81 | four distinct fresh registries; `*` holds the scalar handler for float and int; `/` the scalar handler and the same-type ratio; `+` and `-` the same-type handlers |
| `QuantityTypes.LinearType.Plus` | siquant/quantities/meta.py:69 | with valid registries, a KeyError exactly when `type(other)` is unregistered in the adder, and otherwise the registered handler's result |
| `QuantityTypes.LinearType.Minus` | siquant/quantities/meta.py:70 | the same for the subtracter |
| `QuantityTypes.LinearType.Times` | siquant/quantities/meta.py:71-74 | the same for the multiplier, which also serves `__rmul__` |
| `QuantityTypes.LinearType.Over` | siquant/quantities/meta.py:72 | the same for the divider |
| `QuantityTypes.LinearType.QMultiplier` | siquant/quantities/meta.py:82-86 | the multiplier registry gains (or overwrites) the handler for the operand type, and the registry is returned |
| `QuantityTypes.LinearType.QDivider` | siquant/quantities/meta.py:88-92 | the same for the divider registry |
| `QuantityTypes.FreshLinearTypeOperators` | siquant/quantities/meta.py:69-80 | right after set-up, `+` and `-` combine same-type instances, `*` scales by a number, `/` gives the same-type ratio and raises ZeroDivisionError for zero, and other operand types are a KeyError |

## Left out

- `__str__`, `__repr__` and `Unit.dimensions()` are not modelled. They are string formatting only. `dim_str` is modelled, for whole-number exponents below a million and not for the other forms `%g` prints.
- Floating point is not modelled: all numbers are exact reals, so rounding (such as `1 / 1e9`) is not captured. NumPy array payloads are not modelled either.
- Only whole-number exponents of `**` are modelled, for units and quantities. The real exponents that `dim_pow` accepts are modelled for dimension tuples.
- `Units.Pow`: laws for powers of powers and powers of products of units are not stated. Only the power 0, 1 and 2 laws, the `dim_pow` correspondence and factor-1 closure are proved.
- `SIUnit`, the unit class that `siquant/quantities.py` calls into (`_scale`, `compatible`, `base_units`), is imported by siquant/__init__.py from siquant/units.py, but that file's revision defines only `Unit`. `Quantities` models it abstractly as a positive scale plus a dimension tuple, so a zero or negative scale cannot occur there.
- The unit exponent dictionary is a record, `Units.ExponentDict`, with one field per key. Every `Unit` holds all seven keys, so a lookup (`_exponent`) never fails.
- The `__slots__` set-up and `total_ordering` of `Quantity` and the metaclasses are not modelled. So `<=`, `>` and `>=` are not derived.
- A quantity type is identified by its name and base units. Python identifies classes by object identity, so two classes declared with the same name and base units are distinct there but the same here.
- `Quantities.TrueDiv`, `Quantities.RTrueDiv`, `Quantities.Pow`, `QuantityTypes.QDiv`: a zero divisor is a precondition, and so is a zero base with a negative power for `Pow` and a zero base factor of the divisor's type for `QDiv`. Python raises ZeroDivisionError there; these members do not model that error path. For typed quantities `QuantityTypes.QDivHandler` does: it returns ZeroDivisionError before calling `QDiv`.
- Handlers are total functions: a handler that raises in Python is modelled as one that returns `Err`.
- `Units.Mul`: takes a unit on both sides. In Python `meters * 2` reads `_units` of the number and raises AttributeError; that error path is not modelled (it is for `Units.RMul`).
- `Units.Div`: takes a unit on both sides. `meters / 2` raises AttributeError in Python (it reads `_units` of the number), and `2 / meters` raises TypeError (`Unit` has no `__rtruediv__`); neither error path is modelled.
- `Units.Eq`: compares two units. In Python `meters == 5` reads `_factor` of the number and raises AttributeError; that error path is not modelled.
- `Dispatch.Dispatcher.SupportedTypes`: returns the set of registered types at the time of the call. Python returns the dictionary's live key view, which later registrations update.
- The handlers as `LinearType` registers them take any operand. The registry never routes some operands to them. In those cases the same-type `add` and `sub` handlers return AssertionError for a number, as their `assert` would. The scalar handlers given a quantity, and the ratio and cross-type handlers given a number, return TypeError.
- `Distance.squared` and `Distance.cubed` (siquant/quantities/qtypes.py), `siquant/quantities/operations.py`, `siquant/systems/`, `siquant/exceptions.py` and `siquant/util.py` are not part of this model.

## Findings

| source | as written | input that shows it | evidently intended | confidence | as-written member | corrected member |
|---|---|---|---|---|---|---|
| siquant/dimensions.py:206-230 | potential is defined as energy divided by current | the tuple is (1, 2, -2, 0, -1, 0, 0), which is `magnetic_flux_t`; the volt is (1, 2, -3, 0, -1, 0, 0); `capacitance_t`, `resistance_t`, `impedance_t`, `reactance_t`, `conductance_t` and `inductance_t` (lines 209-230), built on it, are off by one power of the second, e.g. capacitance (-1, -2, 3, 0, 2, 0, 0) instead of (-1, -2, 4, 0, 2, 0, 0) | energy per charge, i.e. power per current | not executed | `Dimensions.ElectricalDimensionsAsWritten` | `Dimensions.ElectricalDimensions` |
| siquant/units.py:155 | miles is a bare factor of 5280 with no length exponent | `miles.matches_dimensions(meters)` is false, so `miles_per_hour` is not a speed | 5280 feet, `Unit(5280) * feet` | not executed | `Units.MilesAsWrittenIsDimensionless` | `Units.MilesIsALength` |
| siquant/quantities.py:25-26 | `normalized()` divides the value by the scale | 1000 of a unit of scale 0.001 becomes 1000000 base units instead of 1 | multiply by the scale, so that the result equals the original | not executed | `Quantities.NormalizedAsWrittenDiffers` | `Quantities.NormalizedIntended` |
| siquant/quantities.py:67-68 | `number / q` keeps `q`'s units | `2 / Quantity(4, meters)` is 0.5 m rather than 0.5 m^-1 | invert the units | not executed | `Quantities.RTrueDivAsWrittenKeepsUnits` | `Quantities.RTrueDivIntended` |
