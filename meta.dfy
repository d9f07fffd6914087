/**
 * The generated quantity types of siquant/quantities/meta.py. A quantity
 * type is declared with base units; each of its values stores one number:
 * the given value times the given unit's factor, an amount in factor-1 SI
 * units. That is the value in the type's base units only when their factor
 * is 1 (a coherent type). Linear types additionally get
 * `+`, `-`, `*` and `/` through four operator registries.
 */
module QuantityTypes {
  import opened Outcomes
  import opened Dimensions
  import U = Units
  import opened Dispatch

  /**
   * A quantity type (a class built by the `Quantity` metaclass): its name and
   * its base units. Two types are the same when name and base units agree.
   */
  datatype QType = QType(name: string, baseUnits: U.Unit)

  /** Declaring a quantity type: base units are required. */
  function DefineType(name: string, baseUnits: Option<U.Unit>): (r: Result<QType>)
    ensures r.Ok? <==> baseUnits.Some?
    ensures r.Err? ==> r.error == ValueError
    ensures r.Ok? ==> r.value.name == name && r.value.baseUnits == baseUnits.value
  {
    if baseUnits.None? then Err(ValueError) else Ok(QType(name, baseUnits.value))
  }

  /**
   * An instance of a quantity type; `stored` is its `_quantity`, an amount in
   * factor-1 SI units (the value in base units only in a coherent type).
   */
  datatype TypedQuantity = TypedQuantity(qtype: QType, stored: real)

  /** The instance's value times its type's base factor: what `__init__` stores for the default units. */
  function Renormalized(q: TypedQuantity): real
  {
    U.Normalize(q.qtype.baseUnits, q.stored)
  }

  /**
   * `T(quantity, units)`: the units must have the type's dimensions, and the
   * value is stored normalised by those units (times their factor).
   */
  function New(t: QType, quantity: real, units: U.Unit): (r: Result<TypedQuantity>)
    ensures r.Ok? <==> U.MatchesDimensions(t.baseUnits, units)
    ensures r.Err? ==> r.error == AssertionError
    ensures r.Ok? ==> r.value.qtype == t && r.value.stored == U.Normalize(units, quantity)
  {
    if U.MatchesDimensions(t.baseUnits, units) then Ok(TypedQuantity(t, U.Normalize(units, quantity)))
    else Err(AssertionError)
  }

  /** `T(quantity)`: the units default to the type's base units, so construction never fails. */
  function Make(t: QType, quantity: real): (r: TypedQuantity)
    ensures New(t, quantity, t.baseUnits) == Ok(r)
    ensures r.qtype == t
    ensures t.baseUnits.factor != 0.0 ==> U.FromBaseUnits(t.baseUnits, r.stored) == quantity
  {
    TypedQuantity(t, U.Normalize(t.baseUnits, quantity))
  }

  /** `get()`: the stored value as it is; in a coherent type that is `get_as(base_units)`. */
  function Get(q: TypedQuantity): (r: real)
    ensures Coherent(q.qtype) ==> GetAs(q, q.qtype.baseUnits) == Ok(r)
  {
    q.stored
  }

  /**
   * `get_as(units)`: the stored value expressed in `units`, which must have the
   * type's dimensions. A zero factor is Python's ZeroDivisionError.
   */
  function GetAs(q: TypedQuantity, units: U.Unit): (r: Result<real>)
    requires U.MatchesDimensions(q.qtype.baseUnits, units) ==> units.factor != 0.0
    ensures r.Ok? <==> U.MatchesDimensions(q.qtype.baseUnits, units)
    ensures r.Err? ==> r.error == AssertionError
    ensures r.Ok? ==> U.Normalize(units, r.value) == q.stored
  {
    if U.MatchesDimensions(q.qtype.baseUnits, units) then Ok(U.FromBaseUnits(units, q.stored))
    else Err(AssertionError)
  }

  /** The right-hand operand of a typed-quantity operator, as Python types it. */
  datatype Operand = Float(x: real) | Int(i: int) | Typed(q: TypedQuantity)

  /** The registry key of an operand: `type(other)`. */
  datatype TypeTag = FloatType | IntType | Of(t: QType)

  function TypeOf(o: Operand): TypeTag
  {
    match o
    case Float(_) => FloatType
    case Int(_) => IntType
    case Typed(q) => Of(q.qtype)
  }

  /** `equals`: the same type and the same stored value; any non-quantity is unequal. */
  predicate Equals(q1: TypedQuantity, q2: Operand): (r: bool)
    ensures r <==> q2.Typed? && q2.q == q1
  {
    q2.Typed? && q1.qtype == q2.q.qtype && q1.stored == q2.q.stored
  }

  /** `less_than`: the same type and a smaller stored value; any other pair is not less. */
  predicate LessThan(q1: TypedQuantity, q2: Operand): (r: bool)
    ensures r ==> q2.Typed? && q2.q.qtype == q1.qtype && !Equals(q1, q2)
    ensures r ==> q2.Typed? && q1.stored < q2.q.stored
    ensures q2.Typed? && q2.q.qtype == q1.qtype ==> r || Equals(q1, q2) || q2.q.stored < q1.stored
  {
    q2.Typed? && q1.qtype == q2.q.qtype && q1.stored < q2.q.stored
  }

  /** `-q`: the type rebuilt, with default units, from the negated stored value. */
  function Neg(q: TypedQuantity): (r: TypedQuantity)
    ensures r.qtype == q.qtype && r.stored == -Renormalized(q)
  {
    Make(q.qtype, -q.stored)
  }

  /** `add`: both operands of one type; the type rebuilt from the sum of the stored values. */
  function Add(q1: TypedQuantity, q2: TypedQuantity): (r: Result<TypedQuantity>)
    ensures r.Ok? <==> q1.qtype == q2.qtype
    ensures r.Err? ==> r.error == AssertionError
    ensures r.Ok? ==> r.value.qtype == q1.qtype
    ensures r.Ok? ==> r.value.stored == Renormalized(q1) + Renormalized(q2)
  {
    if q1.qtype != q2.qtype then Err(AssertionError)
    else
      var r := Make(q1.qtype, q1.stored + q2.stored);
      assert r.stored == (q1.stored + q2.stored) * q1.qtype.baseUnits.factor;
      Ok(r)
  }

  /** `sub`, like Add. */
  function Sub(q1: TypedQuantity, q2: TypedQuantity): (r: Result<TypedQuantity>)
    ensures r.Ok? <==> q1.qtype == q2.qtype
    ensures r.Err? ==> r.error == AssertionError
    ensures r.Ok? ==> r.value.qtype == q1.qtype
    ensures r.Ok? ==> r.value.stored == Renormalized(q1) - Renormalized(q2)
  {
    if q1.qtype != q2.qtype then Err(AssertionError)
    else
      var r := Make(q1.qtype, q1.stored - q2.stored);
      assert r.stored == (q1.stored - q2.stored) * q1.qtype.baseUnits.factor;
      Ok(r)
  }

  /** The scalar `*` handler of type `t`: `t(self.get() * scalar)`. */
  function ScalarMul(t: QType, q: TypedQuantity, scalar: real): (r: TypedQuantity)
    ensures r.qtype == t && r.stored == U.Normalize(t.baseUnits, q.stored) * scalar
  {
    ProductRightCommutes(q.stored, scalar, t.baseUnits.factor);
    Make(t, q.stored * scalar)
  }

  /** The scalar `/` handler of type `t`: `t(self.get() / scalar)`. */
  function ScalarDiv(t: QType, q: TypedQuantity, scalar: real): (r: TypedQuantity)
    requires scalar != 0.0
    ensures r.qtype == t && r.stored * scalar == U.Normalize(t.baseUnits, q.stored)
  {
    var v := q.stored / scalar;
    assert v * scalar == q.stored;
    ProductRightCommutes(v, t.baseUnits.factor, scalar);
    ProductRightCommutes(v, scalar, t.baseUnits.factor);
    Make(t, v)
  }

  lemma ProductRightCommutes(x: real, y: real, z: real)
    ensures x * y * z == x * z * y
  {
  }

  /** The same-type `/` handler: the plain ratio of the stored values. */
  function Ratio(q1: TypedQuantity, q2: TypedQuantity): (r: real)
    requires q2.stored != 0.0
    ensures r * q2.stored == q1.stored
  {
    var v := q1.stored / q2.stored;
    assert v * q2.stored == q1.stored;
    v
  }

  /**
   * The handler `q_multiplier` registers: `result_type(q1*q2, b1*b2)`, which
   * succeeds exactly when the result type's dimensions are those of the product.
   */
  function QMul(resultType: QType, q1: TypedQuantity, q2: TypedQuantity): (r: Result<TypedQuantity>)
    ensures r.Ok? <==>
            U.ToDims(resultType.baseUnits) == DimMul(U.ToDims(q1.qtype.baseUnits), U.ToDims(q2.qtype.baseUnits))
    ensures r.Err? ==> r.error == AssertionError
    ensures r.Ok? ==> r.value.qtype == resultType
    ensures r.Ok? && Coherent(q1.qtype) && Coherent(q2.qtype) ==> r.value.stored == q1.stored * q2.stored
  {
    var b := U.Mul(q1.qtype.baseUnits, q2.qtype.baseUnits);
    U.MulDims(q1.qtype.baseUnits, q2.qtype.baseUnits);
    U.MatchesIffSameExponents(resultType.baseUnits, b);
    New(resultType, q1.stored * q2.stored, b)
  }

  /** The handler `q_divider` registers: `result_type(q1/q2, b1/b2)`. */
  function QDiv(resultType: QType, q1: TypedQuantity, q2: TypedQuantity): (r: Result<TypedQuantity>)
    requires q2.stored != 0.0 && q2.qtype.baseUnits.factor != 0.0
    ensures r.Ok? <==>
            U.ToDims(resultType.baseUnits) == DimDiv(U.ToDims(q1.qtype.baseUnits), U.ToDims(q2.qtype.baseUnits))
    ensures r.Err? ==> r.error == AssertionError
    ensures r.Ok? ==> r.value.qtype == resultType
    ensures r.Ok? && Coherent(q1.qtype) && Coherent(q2.qtype) ==> r.value.stored * q2.stored == q1.stored
  {
    var b := U.Div(q1.qtype.baseUnits, q2.qtype.baseUnits);
    U.DivDims(q1.qtype.baseUnits, q2.qtype.baseUnits);
    U.MatchesIffSameExponents(resultType.baseUnits, b);
    var v := q1.stored / q2.stored;
    assert v * q2.stored == q1.stored;
    assert Coherent(q1.qtype) && Coherent(q2.qtype) ==> b.factor == 1.0;
    New(resultType, v, b)
  }

  // ---------------------------------------------------------------------
  // Properties
  // ---------------------------------------------------------------------

  /** A type's base units are coherent when their factor is 1 (true of every type the library declares). */
  predicate Coherent(t: QType)
  {
    t.baseUnits.factor == 1.0
  }

  /** Building from `(x, units)` and reading back in `units` returns `x`. */
  lemma NewGetAsRoundTrip(t: QType, x: real, units: U.Unit)
    requires U.MatchesDimensions(t.baseUnits, units) && units.factor != 0.0
    ensures New(t, x, units).Ok? && GetAs(New(t, x, units).value, units) == Ok(x)
  {
    U.NormalizeRoundTrip(units, x);
  }

  /** Building in `units` equals building the converted amount in base units. */
  lemma NewInAnyUnits(t: QType, x: real, units: U.Unit)
    requires U.MatchesDimensions(t.baseUnits, units) && Coherent(t)
    ensures Equals(New(t, x, units).value, Typed(Make(t, U.Normalize(units, x))))
  {
  }

  /** Equality is an equivalence relation, and never holds between different types. */
  lemma EqualsEquivalence(a: TypedQuantity, b: TypedQuantity, c: TypedQuantity)
    ensures Equals(a, Typed(a))
    ensures Equals(a, Typed(b)) <==> Equals(b, Typed(a))
    ensures Equals(a, Typed(b)) && Equals(b, Typed(c)) ==> Equals(a, Typed(c))
    ensures a.qtype != b.qtype ==> !Equals(a, Typed(b))
    ensures Equals(a, Typed(b)) <==> a == b
  {
  }

  /** `<` is a strict order within one type, total together with `==`, and false across types. */
  lemma LessThanStrictOrder(a: TypedQuantity, b: TypedQuantity, c: TypedQuantity)
    ensures !LessThan(a, Typed(a))
    ensures LessThan(a, Typed(b)) ==> !LessThan(b, Typed(a))
    ensures LessThan(a, Typed(b)) && LessThan(b, Typed(c)) ==> LessThan(a, Typed(c))
    ensures a.qtype != b.qtype ==> !LessThan(a, Typed(b)) && !LessThan(b, Typed(a))
    ensures a.qtype == b.qtype ==> LessThan(a, Typed(b)) || Equals(a, Typed(b)) || LessThan(b, Typed(a))
  {
  }

  /** In a coherent type `get()` is `get_as(base_units)`, and `T(x).get()` is `x`. */
  lemma GetIsGetAsBase(q: TypedQuantity, x: real)
    requires Coherent(q.qtype)
    ensures GetAs(q, q.qtype.baseUnits) == Ok(Get(q))
    ensures Get(Make(q.qtype, x)) == x
  {
  }

  /** Addition of one type commutes, and subtraction undoes it in a coherent type. */
  lemma AddSubLaws(a: TypedQuantity, b: TypedQuantity)
    requires a.qtype == b.qtype
    ensures Add(a, b) == Add(b, a)
    ensures Coherent(a.qtype) ==> Add(a, b).value.stored == a.stored + b.stored
    ensures Coherent(a.qtype) ==> Sub(Add(a, b).value, b) == Ok(a)
    ensures Coherent(a.qtype) ==> Sub(a, a).value == Make(a.qtype, 0.0)
  {
  }

  /** In a coherent type negation is an involution and reverses `<`. */
  lemma NegLaws(a: TypedQuantity, b: TypedQuantity)
    requires Coherent(a.qtype)
    ensures Neg(Neg(a)) == a
    ensures LessThan(a, Typed(b)) ==> LessThan(Neg(b), Typed(Neg(a)))
  {
  }

  /** In a coherent type, dividing by the scalar one multiplied by returns the original value, and so does the same-type ratio. */
  lemma ScalarLaws(a: TypedQuantity, x: real)
    requires Coherent(a.qtype) && x != 0.0
    ensures ScalarDiv(a.qtype, ScalarMul(a.qtype, a, x), x) == a
    ensures a.stored != 0.0 ==> Ratio(ScalarMul(a.qtype, a, x), a) == x
  {
    var m := ScalarMul(a.qtype, a, x);
    assert m.stored == a.stored * x;
    var d := ScalarDiv(a.qtype, m, x);
    assert d.stored * x == a.stored * x;
    if a.stored != 0.0 {
      assert Ratio(m, a) * a.stored == x * a.stored;
    }
  }

  // ---------------------------------------------------------------------
  // Examples
  // ---------------------------------------------------------------------

  const Mass: QType := QType("Mass", U.Kilograms)
  const Distance: QType := QType("Distance", U.Meters)

  /** A distance built from 1000 meters reads back 1000. */
  lemma DistanceExample()
    ensures New(Distance, 1000.0, U.Meters).Ok? && Get(New(Distance, 1000.0, U.Meters).value) == 1000.0
  {
  }

  /** `Mass(1000)` equals 1000 kg and 1 t. */
  lemma MassConstruction()
    ensures New(Mass, 1000.0, U.Kilograms).Ok? && New(Mass, 1.0, U.Tonnes).Ok?
    ensures Equals(Make(Mass, 1000.0), Typed(New(Mass, 1000.0, U.Kilograms).value))
    ensures Equals(Make(Mass, 1000.0), Typed(New(Mass, 1.0, U.Tonnes).value))
  {
    NewMassInKilograms();
    NewMassInTonnes();
    MassOfOneThousandEquals();
    StoredMassEqualsTonnes();
  }

  lemma MassOfOneThousandEquals()
    ensures Equals(Make(Mass, 1000.0), Typed(TypedQuantity(Mass, 1000.0)))
  {
    MassOfOneThousand();
  }

  lemma StoredMassEqualsTonnes()
    ensures Equals(TypedQuantity(Mass, 1000.0), Typed(New(Mass, 1.0, U.Tonnes).value))
  {
    NewMassInTonnes();
  }

  lemma NewMassInKilograms()
    ensures New(Mass, 1000.0, U.Kilograms) == Ok(TypedQuantity(Mass, 1000.0))
  {
    U.MassUnits();
    assert U.Normalize(U.Kilograms, 1000.0) == 1000.0;
  }

  lemma NewMassInTonnes()
    ensures New(Mass, 1.0, U.Tonnes) == Ok(TypedQuantity(Mass, 1000.0))
  {
    U.MassUnits();
    assert U.MatchesDimensions(Mass.baseUnits, U.Tonnes);
    assert U.Normalize(U.Tonnes, 1.0) == 1000.0;
  }

  /** Sum, scalar product, difference and scalar quotient of `Mass(1000)`. */
  lemma MassArithmetic()
    ensures Equals(Add(Make(Mass, 1000.0), Make(Mass, 1000.0)).value, Typed(Make(Mass, 2000.0)))
    ensures Equals(ScalarMul(Mass, Make(Mass, 1000.0), 2.0), Typed(Make(Mass, 2000.0)))
    ensures Equals(Sub(Make(Mass, 1000.0), Make(Mass, 1000.0)).value, Typed(Make(Mass, 0.0)))
    ensures Equals(ScalarDiv(Mass, Make(Mass, 1000.0), 2.0), Typed(Make(Mass, 500.0)))
  {
  }

  /** `Mass(1000)` read in kilograms, tonnes and grams. */
  lemma MassInKilograms()
    ensures GetAs(Make(Mass, 1000.0), U.Kilograms) == Ok(1000.0)
  {
    MassOfOneThousand();
    StoredMassInKilograms();
  }

  lemma MassInTonnes()
    ensures GetAs(Make(Mass, 1000.0), U.Tonnes) == Ok(1.0)
  {
    MassOfOneThousand();
    StoredMassInTonnes();
  }

  lemma MassInGrams()
    ensures GetAs(Make(Mass, 1000.0), U.Grams) == Ok(1000000.0)
  {
    MassOfOneThousand();
    StoredMassInGrams();
  }

  lemma MassOfOneThousand()
    ensures Make(Mass, 1000.0) == TypedQuantity(Mass, 1000.0)
  {
    U.MassUnits();
  }

  lemma StoredMassInKilograms()
    ensures GetAs(TypedQuantity(Mass, 1000.0), U.Kilograms) == Ok(1000.0)
  {
    U.MassUnits();
    assert U.FromBaseUnits(U.Kilograms, 1000.0) == 1000.0;
  }

  lemma StoredMassInTonnes()
    ensures GetAs(TypedQuantity(Mass, 1000.0), U.Tonnes) == Ok(1.0)
  {
    U.MassUnits();
    assert U.FromBaseUnits(U.Tonnes, 1000.0) == 1.0;
  }

  lemma StoredMassInGrams()
    ensures GetAs(TypedQuantity(Mass, 1000.0), U.Grams) == Ok(1000000.0)
  {
    U.MassUnits();
    assert U.Grams.factor == 0.001;
    assert U.FromBaseUnits(U.Grams, 1000.0) == 1000000.0;
  }

  // ---------------------------------------------------------------------
  // Linear types and their operator registries
  // ---------------------------------------------------------------------

  /** What a linear operator returns: a typed quantity, or a plain number for a same-type ratio. */
  datatype Value = OfType(q: TypedQuantity) | Plain(x: real)

  type Handler = (TypedQuantity, Operand) -> Result<Value>

  function Numeric(o: Operand): real
  {
    match o
    case Float(x) => x
    case Int(i) => i as real
    case Typed(_) => 0.0
  }

  /** The registered `add`: a second quantity is required to be of the same type. */
  function AddHandler(self: TypedQuantity, other: Operand): (r: Result<Value>)
    ensures r.Ok? <==> other.Typed? && other.q.qtype == self.qtype
    ensures r.Err? ==> r.error == AssertionError
    ensures r.Ok? ==> r.value.OfType? && r.value.q.qtype == self.qtype
    ensures r.Ok? ==> r.value.q.stored == Renormalized(self) + Renormalized(other.q)
  {
    if other.Typed? then
      var r := Add(self, other.q);
      if r.Ok? then Ok(OfType(r.value)) else Err(r.error)
    else Err(AssertionError)
  }

  /** The registered `sub`. */
  function SubHandler(self: TypedQuantity, other: Operand): (r: Result<Value>)
    ensures r.Ok? <==> other.Typed? && other.q.qtype == self.qtype
    ensures r.Err? ==> r.error == AssertionError
    ensures r.Ok? ==> r.value.OfType? && r.value.q.qtype == self.qtype
    ensures r.Ok? ==> r.value.q.stored == Renormalized(self) - Renormalized(other.q)
  {
    if other.Typed? then
      var r := Sub(self, other.q);
      if r.Ok? then Ok(OfType(r.value)) else Err(r.error)
    else Err(AssertionError)
  }

  /** The scalar `*` of type `t`; it is only ever registered for, and so reached with, a number. */
  function ScalarMulHandler(t: QType, self: TypedQuantity, other: Operand): (r: Result<Value>)
    ensures r.Ok? <==> !other.Typed?
    ensures r.Err? ==> r.error == TypeError
    ensures r.Ok? ==> r.value.OfType? && r.value.q.qtype == t
    ensures other.Float? ==> r.value.q.stored == U.Normalize(t.baseUnits, self.stored) * other.x
    ensures other.Int? ==> r.value.q.stored == U.Normalize(t.baseUnits, self.stored) * other.i as real
  {
    if other.Typed? then Err(TypeError) else Ok(OfType(ScalarMul(t, self, Numeric(other))))
  }

  /** The scalar `/` of type `t`; division by zero raises. */
  function ScalarDivHandler(t: QType, self: TypedQuantity, other: Operand): (r: Result<Value>)
    ensures r.Ok? <==> !other.Typed? && Numeric(other) != 0.0
    ensures other.Typed? ==> r == Err(TypeError)
    ensures !other.Typed? && Numeric(other) == 0.0 ==> r == Err(ZeroDivisionError)
    ensures r.Ok? ==> r.value.OfType? && r.value.q.qtype == t
    ensures r.Ok? ==> r.value.q.stored * Numeric(other) == U.Normalize(t.baseUnits, self.stored)
  {
    if other.Typed? then Err(TypeError)
    else if Numeric(other) == 0.0 then Err(ZeroDivisionError)
    else Ok(OfType(ScalarDiv(t, self, Numeric(other))))
  }

  /** The same-type `/`: the plain ratio of the stored values. */
  function RatioHandler(self: TypedQuantity, other: Operand): (r: Result<Value>)
    ensures r.Ok? <==> other.Typed? && other.q.stored != 0.0
    ensures !other.Typed? ==> r == Err(TypeError)
    ensures other.Typed? && other.q.stored == 0.0 ==> r == Err(ZeroDivisionError)
    ensures r.Ok? ==> r.value.Plain? && r.value.x * other.q.stored == self.stored
  {
    if !other.Typed? then Err(TypeError)
    else if other.q.stored == 0.0 then Err(ZeroDivisionError)
    else Ok(Plain(Ratio(self, other.q)))
  }

  /** The `*` that `q_multiplier(op_type, result_type)` registers. */
  function QMulHandler(resultType: QType, self: TypedQuantity, other: Operand): (r: Result<Value>)
    ensures !other.Typed? ==> r == Err(TypeError)
    ensures other.Typed? ==> (r.Ok? <==> QMul(resultType, self, other.q).Ok?)
    ensures other.Typed? && r.Err? ==> r.error == AssertionError
    ensures r.Ok? ==> r.value.OfType? && r.value.q.qtype == resultType
  {
    if !other.Typed? then Err(TypeError)
    else
      var r := QMul(resultType, self, other.q);
      if r.Ok? then Ok(OfType(r.value)) else Err(r.error)
  }

  /** The `/` that `q_divider(op_type, result_type)` registers. */
  function QDivHandler(resultType: QType, self: TypedQuantity, other: Operand): (r: Result<Value>)
    ensures !other.Typed? ==> r == Err(TypeError)
    ensures other.Typed? && (other.q.stored == 0.0 || other.q.qtype.baseUnits.factor == 0.0) ==>
            r == Err(ZeroDivisionError)
    ensures other.Typed? && other.q.stored != 0.0 && other.q.qtype.baseUnits.factor != 0.0 ==>
            (r.Ok? <==> QDiv(resultType, self, other.q).Ok?) &&
            (r.Err? ==> r.error == AssertionError)
    ensures r.Ok? ==> r.value.OfType? && r.value.q.qtype == resultType
  {
    if !other.Typed? then Err(TypeError)
    else if other.q.stored == 0.0 || other.q.qtype.baseUnits.factor == 0.0 then Err(ZeroDivisionError)
    else
      var r := QDiv(resultType, self, other.q);
      if r.Ok? then Ok(OfType(r.value)) else Err(r.error)
  }

  /** A handler of type `t` (or towards `t`), closed over `t` as the Python closures are. */
  function ScalarMulBy(t: QType): Handler
  {
    (self: TypedQuantity, other: Operand) => ScalarMulHandler(t, self, other)
  }

  function ScalarDivBy(t: QType): Handler
  {
    (self: TypedQuantity, other: Operand) => ScalarDivHandler(t, self, other)
  }

  function QMulInto(resultType: QType): Handler
  {
    (self: TypedQuantity, other: Operand) => QMulHandler(resultType, self, other)
  }

  function QDivInto(resultType: QType): Handler
  {
    (self: TypedQuantity, other: Operand) => QDivHandler(resultType, self, other)
  }

  /**
   * A type built by the `LinearQuantity` metaclass: its four operator
   * registries, with `__rmul__` sharing the `*` registry.
   */
  class LinearType {
    const qtype: QType
    const adder: Dispatcher<TypeTag, TypedQuantity, Operand, Result<Value>>
    const subtracter: Dispatcher<TypeTag, TypedQuantity, Operand, Result<Value>>
    const multiplier: Dispatcher<TypeTag, TypedQuantity, Operand, Result<Value>>
    const divider: Dispatcher<TypeTag, TypedQuantity, Operand, Result<Value>>

    /** The four registries are distinct objects, each keyed by `type(other)`. */
    ghost predicate Valid()
    {
      adder != subtracter && adder != multiplier && adder != divider &&
      subtracter != multiplier && subtracter != divider && multiplier != divider &&
      adder.typeOf == TypeOf && subtracter.typeOf == TypeOf &&
      multiplier.typeOf == TypeOf && divider.typeOf == TypeOf
    }

    /**
     * The class set-up of `LinearQuantity.__new__`: scalars multiply and
     * divide, the same type adds, subtracts and divides.
     */
    constructor (t: QType)
      ensures qtype == t && Valid()
      ensures fresh(adder) && fresh(subtracter) && fresh(multiplier) && fresh(divider)
      ensures adder.registry == map[Of(t) := AddHandler]
      ensures subtracter.registry == map[Of(t) := SubHandler]
      ensures multiplier.registry == map[FloatType := ScalarMulBy(t), IntType := ScalarMulBy(t)]
      ensures divider.registry == map[FloatType := ScalarDivBy(t), IntType := ScalarDivBy(t), Of(t) := RatioHandler]
    {
      qtype := t;
      var a := new Dispatcher(TypeOf);
      var s := new Dispatcher(TypeOf);
      var m := new Dispatcher(TypeOf);
      var d := new Dispatcher(TypeOf);
      var _ := m.Register([FloatType, IntType], ScalarMulBy(t));
      RegisteredNumbers(m.registry, ScalarMulBy(t));
      var _ := d.Register([FloatType, IntType], ScalarDivBy(t));
      RegisteredNumbers(d.registry, ScalarDivBy(t));
      ghost var numbersOnly := d.registry;
      var _ := d.Register([Of(t)], RatioHandler);
      RegisteredOne(numbersOnly, d.registry, Of(t), RatioHandler);
      var _ := a.Register([Of(t)], AddHandler);
      RegisteredOne(map[], a.registry, Of(t), AddHandler);
      var _ := s.Register([Of(t)], SubHandler);
      RegisteredOne(map[], s.registry, Of(t), SubHandler);
      adder, subtracter, multiplier, divider := a, s, m, d;
    }

    /** `self + other`. A KeyError unless `type(other)` is registered. */
    function Plus(self: TypedQuantity, other: Operand): (r: Result<Result<Value>>)
      reads adder
      ensures Valid() ==> (r.Ok? <==> TypeOf(other) in adder.registry)
      ensures r.Err? ==> r.error == KeyError
      ensures Valid() && r.Ok? ==> r.value == adder.registry[TypeOf(other)](self, other)
    {
      adder.Dispatch(self, other)
    }

    /** `self - other`. A KeyError unless `type(other)` is registered. */
    function Minus(self: TypedQuantity, other: Operand): (r: Result<Result<Value>>)
      reads subtracter
      ensures Valid() ==> (r.Ok? <==> TypeOf(other) in subtracter.registry)
      ensures r.Err? ==> r.error == KeyError
      ensures Valid() && r.Ok? ==> r.value == subtracter.registry[TypeOf(other)](self, other)
    {
      subtracter.Dispatch(self, other)
    }

    /** `self * other`, and `other * self` since `__rmul__` is `__mul__`. A KeyError unless `type(other)` is registered. */
    function Times(self: TypedQuantity, other: Operand): (r: Result<Result<Value>>)
      reads multiplier
      ensures Valid() ==> (r.Ok? <==> TypeOf(other) in multiplier.registry)
      ensures r.Err? ==> r.error == KeyError
      ensures Valid() && r.Ok? ==> r.value == multiplier.registry[TypeOf(other)](self, other)
    {
      multiplier.Dispatch(self, other)
    }

    /** `self / other`. A KeyError unless `type(other)` is registered. */
    function Over(self: TypedQuantity, other: Operand): (r: Result<Result<Value>>)
      reads divider
      ensures Valid() ==> (r.Ok? <==> TypeOf(other) in divider.registry)
      ensures r.Err? ==> r.error == KeyError
      ensures Valid() && r.Ok? ==> r.value == divider.registry[TypeOf(other)](self, other)
    {
      divider.Dispatch(self, other)
    }

    /** `q_multiplier(op_type, result_type)`: `self * op_type-instance` now builds `result_type`. */
    method QMultiplier(opType: QType, resultType: QType)
      returns (d: Dispatcher<TypeTag, TypedQuantity, Operand, Result<Value>>)
      requires Valid()
      modifies multiplier
      ensures d == multiplier
      ensures multiplier.registry == old(multiplier.registry)[Of(opType) := QMulInto(resultType)]
    {
      d := multiplier.Register([Of(opType)], QMulInto(resultType));
    }

    /** `q_divider(op_type, result_type)`: `self / op_type-instance` now builds `result_type`. */
    method QDivider(opType: QType, resultType: QType)
      returns (d: Dispatcher<TypeTag, TypedQuantity, Operand, Result<Value>>)
      requires Valid()
      modifies divider
      ensures d == divider
      ensures divider.registry == old(divider.registry)[Of(opType) := QDivInto(resultType)]
    {
      d := divider.Register([Of(opType)], QDivInto(resultType));
    }
  }

  /** The registry after `register(float, int)(h)` on an empty one. */
  lemma RegisteredNumbers(r: map<TypeTag, Handler>, h: Handler)
    requires r.Keys == (set t | t in [FloatType, IntType])
    requires forall t :: t in [FloatType, IntType] ==> r[t] == h
    ensures r == map[FloatType := h, IntType := h]
  {
    assert r.Keys == {FloatType, IntType};
  }

  /** The registry after `register(key)(h)`. */
  lemma RegisteredOne(r0: map<TypeTag, Handler>, r: map<TypeTag, Handler>, key: TypeTag, h: Handler)
    requires r.Keys == r0.Keys + (set t | t in [key])
    requires forall t :: t in [key] ==> r[t] == h
    requires forall t :: t in r0 && t !in [key] ==> r[t] == r0[t]
    ensures r == r0[key := h]
  {
    assert r.Keys == r0.Keys + {key};
  }

  /**
   * Right after set-up, a linear type adds and subtracts its own instances,
   * scales by any number, divides by its own instances (a plain ratio) or by
   * a nonzero number, and rejects other operand types with a KeyError.
   */
  lemma FreshLinearTypeOperators(lt: LinearType, a: TypedQuantity, b: TypedQuantity, x: real, other: QType)
    requires lt.Valid() && a.qtype == lt.qtype && b.qtype == lt.qtype && other != lt.qtype
    requires lt.adder.registry == map[Of(lt.qtype) := AddHandler]
    requires lt.subtracter.registry == map[Of(lt.qtype) := SubHandler]
    requires lt.multiplier.registry == map[FloatType := ScalarMulBy(lt.qtype), IntType := ScalarMulBy(lt.qtype)]
    requires lt.divider.registry ==
             map[FloatType := ScalarDivBy(lt.qtype), IntType := ScalarDivBy(lt.qtype), Of(lt.qtype) := RatioHandler]
    ensures lt.Plus(a, Typed(b)) == Ok(Ok(OfType(Add(a, b).value)))
    ensures lt.Plus(a, Float(x)) == Err(KeyError)
    ensures lt.Minus(a, Typed(b)) == Ok(Ok(OfType(Sub(a, b).value)))
    ensures lt.Times(a, Float(x)) == Ok(Ok(OfType(ScalarMul(lt.qtype, a, x))))
    ensures lt.Times(a, Typed(TypedQuantity(other, x))) == Err(KeyError)
    ensures b.stored != 0.0 ==> lt.Over(a, Typed(b)) == Ok(Ok(Plain(Ratio(a, b))))
    ensures lt.Over(a, Int(0)) == Ok(Err(ZeroDivisionError))
    ensures lt.Over(a, Typed(TypedQuantity(other, x))) == Err(KeyError)
  {
  }
}
