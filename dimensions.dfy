/**
 * The dimension algebra of siquant/dimensions.py: a dimension is the
 * 7-tuple of real exponents of the SI base units
 * (kg, m, s, k, a, mol, cd), in that order.
 */
module Dimensions {

  /** One exponent per SI base unit, in the fixed order of the source's tuples. */
  datatype Dims = Dims(kg: real, m: real, s: real, k: real, a: real, mol: real, cd: real)

  /** Builds a dimension tuple; every exponent that is not given is 0. */
  function SIDimensions(kg: real := 0.0, m: real := 0.0, s: real := 0.0, k: real := 0.0,
                        a: real := 0.0, mol: real := 0.0, cd: real := 0.0): (d: Dims)
    ensures Exponents(d) == [kg, m, s, k, a, mol, cd]
  {
    Dims(kg, m, s, k, a, mol, cd)
  }

  /** The exponents as a sequence, in tuple order. */
  function Exponents(d: Dims): (e: seq<real>)
    ensures |e| == 7
  {
    [d.kg, d.m, d.s, d.k, d.a, d.mol, d.cd]
  }

  /** The dimensionless tuple, `SIDimensions()`. */
  const Dimensionless: Dims := SIDimensions()

  /** Dimensions of a product: the exponents add. */
  function DimMul(d1: Dims, d2: Dims): (r: Dims)
    ensures forall i :: 0 <= i < 7 ==> Exponents(r)[i] == Exponents(d1)[i] + Exponents(d2)[i]
    ensures DimDiv(r, d2) == d1
  {
    var Dims(kg1, m1, s1, k1, a1, mol1, cd1) := d1;
    var Dims(kg2, m2, s2, k2, a2, mol2, cd2) := d2;
    Dims(kg1 + kg2, m1 + m2, s1 + s2, k1 + k2, a1 + a2, mol1 + mol2, cd1 + cd2)
  }

  /** Dimensions of a quotient: the exponents subtract. */
  function DimDiv(d1: Dims, d2: Dims): (r: Dims)
    ensures forall i :: 0 <= i < 7 ==> Exponents(r)[i] + Exponents(d2)[i] == Exponents(d1)[i]
    ensures r == Dimensionless <==> d1 == d2
  {
    var Dims(kg1, m1, s1, k1, a1, mol1, cd1) := d1;
    var Dims(kg2, m2, s2, k2, a2, mol2, cd2) := d2;
    Dims(kg1 - kg2, m1 - m2, s1 - s2, k1 - k2, a1 - a2, mol1 - mol2, cd1 - cd2)
  }

  /** Dimensions of a power: every exponent is scaled by `exp` (which may be fractional). */
  function DimPow(d: Dims, exp: real): (r: Dims)
    ensures forall i :: 0 <= i < 7 ==> Exponents(r)[i] == Exponents(d)[i] * exp
    ensures d == Dimensionless ==> r == Dimensionless
  {
    var Dims(kg, m, s, k, a, mol, cd) := d;
    Dims(kg * exp, m * exp, s * exp, k * exp, a * exp, mol * exp, cd * exp)
  }

  lemma DimMulCommutative(d1: Dims, d2: Dims)
    ensures DimMul(d1, d2) == DimMul(d2, d1)
  {
  }

  lemma DimMulAssociative(d1: Dims, d2: Dims, d3: Dims)
    ensures DimMul(DimMul(d1, d2), d3) == DimMul(d1, DimMul(d2, d3))
  {
  }

  lemma DimMulIdentity(d: Dims)
    ensures DimMul(d, Dimensionless) == d && DimMul(Dimensionless, d) == d
  {
  }

  lemma DimDivSelf(d: Dims)
    ensures DimDiv(d, d) == Dimensionless
  {
  }

  /** Division undoes multiplication and multiplication undoes division. */
  lemma DimDivInverse(d1: Dims, d2: Dims)
    ensures DimDiv(DimMul(d1, d2), d2) == d1
    ensures DimMul(DimDiv(d1, d2), d2) == d1
  {
  }

  /** Dividing is multiplying by the reciprocal power. */
  lemma DimDivIsMulByInverse(d1: Dims, d2: Dims)
    ensures DimDiv(d1, d2) == DimMul(d1, DimPow(d2, -1.0))
  {
  }

  lemma DimPowOne(d: Dims)
    ensures DimPow(d, 1.0) == d
  {
  }

  lemma DimPowZero(d: Dims)
    ensures DimPow(d, 0.0) == Dimensionless
  {
  }

  /** A negative power is the reciprocal of the positive one. */
  lemma DimPowNeg(d: Dims, e: real)
    ensures DimPow(d, -e) == DimDiv(Dimensionless, DimPow(d, e))
  {
    var p := DimPow(d, e);
    Negates(d.kg, e);
    Negates(d.m, e);
    Negates(d.s, e);
    Negates(d.k, e);
    Negates(d.a, e);
    Negates(d.mol, e);
    Negates(d.cd, e);
    calc {
      DimPow(d, -e);
      { PowFields(d, -e); }
      Dims(d.kg * -e, d.m * -e, d.s * -e, d.k * -e, d.a * -e, d.mol * -e, d.cd * -e);
      Dims(0.0 - d.kg * e, 0.0 - d.m * e, 0.0 - d.s * e, 0.0 - d.k * e, 0.0 - d.a * e, 0.0 - d.mol * e, 0.0 - d.cd * e);
      { PowFields(d, e); }
      Dims(0.0 - p.kg, 0.0 - p.m, 0.0 - p.s, 0.0 - p.k, 0.0 - p.a, 0.0 - p.mol, 0.0 - p.cd);
      DimDiv(Dimensionless, p);
    }
  }

  lemma Negates(x: real, e: real)
    ensures x * -e == 0.0 - x * e
  {
  }

  /** Powers compose by multiplying the exponents, e.g. a square root undoes a square. */
  lemma DimPowPow(d: Dims, e1: real, e2: real)
    ensures DimPow(DimPow(d, e1), e2) == DimPow(d, e1 * e2)
  {
    var Dims(kg, m, s, k, a, mol, cd) := d;
    MulAssociates(kg, e1, e2);
    MulAssociates(m, e1, e2);
    MulAssociates(s, e1, e2);
    MulAssociates(k, e1, e2);
    MulAssociates(a, e1, e2);
    MulAssociates(mol, e1, e2);
    MulAssociates(cd, e1, e2);
  }

  lemma MulAssociates(x: real, e1: real, e2: real)
    ensures x * e1 * e2 == x * (e1 * e2)
  {
  }

  lemma DimSquareRoot(d: Dims)
    ensures DimPow(DimPow(d, 2.0), 0.5) == d
  {
    DimPowPow(d, 2.0, 0.5);
  }

  /** Raising to a power distributes over products. */
  lemma DimPowMul(d1: Dims, d2: Dims, e: real)
    ensures DimPow(DimMul(d1, d2), e) == DimMul(DimPow(d1, e), DimPow(d2, e))
  {
    var p := DimMul(d1, d2);
    MulFields(d1, d2);
    Distributes(p.kg, d1.kg, d2.kg, e);
    Distributes(p.m, d1.m, d2.m, e);
    Distributes(p.s, d1.s, d2.s, e);
    Distributes(p.k, d1.k, d2.k, e);
    Distributes(p.a, d1.a, d2.a, e);
    Distributes(p.mol, d1.mol, d2.mol, e);
    Distributes(p.cd, d1.cd, d2.cd, e);
    calc {
      DimPow(p, e);
      { PowFields(p, e); }
      Dims(p.kg * e, p.m * e, p.s * e, p.k * e, p.a * e, p.mol * e, p.cd * e);
      Dims(d1.kg * e + d2.kg * e, d1.m * e + d2.m * e, d1.s * e + d2.s * e, d1.k * e + d2.k * e,
           d1.a * e + d2.a * e, d1.mol * e + d2.mol * e, d1.cd * e + d2.cd * e);
      { PowFields(d1, e); PowFields(d2, e); MulFields(DimPow(d1, e), DimPow(d2, e)); }
      DimMul(DimPow(d1, e), DimPow(d2, e));
    }
  }

  /** `DimPow` written out exponent by exponent. */
  lemma PowFields(d: Dims, e: real)
    ensures DimPow(d, e) == Dims(d.kg * e, d.m * e, d.s * e, d.k * e, d.a * e, d.mol * e, d.cd * e)
  {
  }

  /** `DimMul` written out exponent by exponent. */
  lemma MulFields(d1: Dims, d2: Dims)
    ensures DimMul(d1, d2) == Dims(d1.kg + d2.kg, d1.m + d2.m, d1.s + d2.s, d1.k + d2.k,
                                   d1.a + d2.a, d1.mol + d2.mol, d1.cd + d2.cd)
  {
  }

  /**
   * One exponent of `DimPowMul`, stated about the exponent `t` of the product
   * itself so that no multiplication has to be rewritten under an equality.
   */
  lemma Distributes(t: real, x: real, y: real, e: real)
    requires t == x + y
    ensures t * e == x * e + y * e
  {
  }

  /** Powers of one dimension multiply by adding the exponents. */
  lemma DimPowAdd(d: Dims, e: real, f: real)
    ensures DimPow(d, e + f) == DimMul(DimPow(d, e), DimPow(d, f))
  {
    var lhs := DimPow(d, e + f);
    var rhs := DimMul(DimPow(d, e), DimPow(d, f));
    forall i | 0 <= i < 7
      ensures Exponents(lhs)[i] == Exponents(rhs)[i]
    {
      DistributesLeft(Exponents(d)[i], e, f);
    }
    ExponentsInjective(lhs, rhs);
  }

  lemma DistributesLeft(x: real, e: real, f: real)
    ensures x * (e + f) == x * e + x * f
  {
  }

  /** A dimension is determined by its exponents. */
  lemma ExponentsInjective(d1: Dims, d2: Dims)
    requires forall i :: 0 <= i < 7 ==> Exponents(d1)[i] == Exponents(d2)[i]
    ensures d1 == d2
  {
    assert Exponents(d1) == Exponents(d2);
  }

  // ---------------------------------------------------------------------
  // Printing (dim_str)
  // ---------------------------------------------------------------------

  /** Abbreviations of the base units, in tuple order. */
  const Abbreviations: seq<string> := ["kg", "m", "s", "k", "a", "mol", "cd"]

  /**
   * An exponent that `%g` prints as a plain decimal integer: a whole number
   * with at most six digits.
   */
  predicate PrintableExponent(e: real) {
    e == e.Floor as real && -1000000.0 < e < 1000000.0
  }

  predicate Printable(d: Dims) {
    forall i :: 0 <= i < 7 ==> PrintableExponent(Exponents(d)[i])
  }

  predicate IsDigit(c: char) {
    '0' <= c <= '9'
  }

  predicate AllDigits(s: string) {
    forall i :: 0 <= i < |s| ==> IsDigit(s[i])
  }

  /** The value of a decimal digit character. */
  function DigitValue(c: char): int {
    c as int - '0' as int
  }

  /** The number a string of decimal digits spells, most significant digit first. */
  function DigitsValue(s: string): int {
    if s == [] then 0 else DigitsValue(s[..|s| - 1]) * 10 + DigitValue(s[|s| - 1])
  }

  function DigitChar(n: nat): (c: char)
    requires n < 10
    ensures IsDigit(c) && DigitValue(c) == n
  {
    ('0' as int + n) as char
  }

  /** Decimal digits of `n`, most significant first, no leading zeros. */
  function NatStr(n: nat): (s: string)
    ensures |s| > 0 && AllDigits(s)
    ensures DigitsValue(s) == n
    ensures s[0] == '0' ==> s == "0"
    decreases n
  {
    if n < 10 then
      var s := [DigitChar(n)];
      assert s[..0] == [];
      s
    else
      var p := NatStr(n / 10);
      var s := p + [DigitChar(n % 10)];
      assert s[..|s| - 1] == p;
      s
  }

  /** `%g` of a whole number below a million: optional minus sign, then the digits. */
  function IntStr(n: int): (s: string)
    ensures |s| > 0 && (s[0] == '-' <==> n < 0)
    ensures n >= 0 ==> AllDigits(s) && DigitsValue(s) == n && (s[0] == '0' ==> s == "0")
    ensures n < 0 ==> AllDigits(s[1..]) && DigitsValue(s[1..]) == -n && s[1] != '0'
  {
    if n < 0 then
      var s := "-" + NatStr(-n);
      assert s[1..] == NatStr(-n);
      s
    else NatStr(n)
  }

  /** One term of the printed form: `abbr**power`. */
  function Term(name: string, power: real): string {
    name + "**" + IntStr(power.Floor)
  }

  /** The positions of the nonzero powers, in increasing order. */
  function NonzeroIndices(powers: seq<real>): (ix: seq<nat>)
    ensures forall k :: 0 <= k < |ix| ==> ix[k] < |powers| && powers[ix[k]] != 0.0
  {
    NonzeroIndicesFrom(powers, 0)
  }

  /** The positions at or after `i` of the nonzero powers. */
  function NonzeroIndicesFrom(powers: seq<real>, i: nat): (ix: seq<nat>)
    requires i <= |powers|
    ensures forall k :: 0 <= k < |ix| ==> i <= ix[k] < |powers| && powers[ix[k]] != 0.0
    decreases |powers| - i
  {
    if i == |powers| then []
    else (if powers[i] != 0.0 then [i] else []) + NonzeroIndicesFrom(powers, i + 1)
  }

  /** NonzeroIndices lists the positions in strictly increasing order, so each one once. */
  lemma NonzeroIndicesIncreasing(powers: seq<real>)
    ensures forall k, l :: 0 <= k < l < |NonzeroIndices(powers)| ==> NonzeroIndices(powers)[k] < NonzeroIndices(powers)[l]
  {
    NonzeroIndicesFromIncreasing(powers, 0);
  }

  lemma {:induction false} NonzeroIndicesFromIncreasing(powers: seq<real>, i: nat)
    requires i <= |powers|
    ensures forall k, l :: 0 <= k < l < |NonzeroIndicesFrom(powers, i)| ==>
              NonzeroIndicesFrom(powers, i)[k] < NonzeroIndicesFrom(powers, i)[l]
    decreases |powers| - i
  {
    if i < |powers| {
      NonzeroIndicesFromIncreasing(powers, i + 1);
      var ix, rest := NonzeroIndicesFrom(powers, i), NonzeroIndicesFrom(powers, i + 1);
      if powers[i] != 0.0 {
        assert ix == [i] + rest;
        IncreasingCons(i, rest);
      } else {
        assert ix == rest;
      }
    }
  }

  /** A position below every one of an increasing run of positions extends it. */
  lemma IncreasingCons(i: nat, rest: seq<nat>)
    requires forall k, l :: 0 <= k < l < |rest| ==> rest[k] < rest[l]
    requires forall k :: 0 <= k < |rest| ==> i < rest[k]
    ensures var ix := [i] + rest; forall k, l :: 0 <= k < l < |ix| ==> ix[k] < ix[l]
  {
    var ix := [i] + rest;
    forall k, l | 0 <= k < l < |ix|
      ensures ix[k] < ix[l]
    {
      assert ix[l] == rest[l - 1];
      if k > 0 {
        assert ix[k] == rest[k - 1];
      }
    }
  }

  /** NonzeroIndices lists every nonzero position. */
  lemma NonzeroIndicesComplete(powers: seq<real>)
    ensures forall j :: 0 <= j < |powers| && powers[j] != 0.0 ==> j in NonzeroIndices(powers)
  {
    NonzeroIndicesFromComplete(powers, 0);
  }

  lemma {:induction false} NonzeroIndicesFromComplete(powers: seq<real>, i: nat)
    requires i <= |powers|
    ensures forall j :: i <= j < |powers| && powers[j] != 0.0 ==> j in NonzeroIndicesFrom(powers, i)
    decreases |powers| - i
  {
    if i < |powers| {
      NonzeroIndicesFromComplete(powers, i + 1);
      var ix, rest := NonzeroIndicesFrom(powers, i), NonzeroIndicesFrom(powers, i + 1);
      if powers[i] != 0.0 {
        assert ix == [i] + rest;
      } else {
        assert ix == rest;
      }
    }
  }

  /** One `abbr**power` term per nonzero exponent, skipping the zero ones. */
  function Terms(names: seq<string>, powers: seq<real>): (ts: seq<string>)
    requires |names| == |powers|
    ensures ts == [] <==> forall i :: 0 <= i < |powers| ==> powers[i] == 0.0
    ensures forall i :: 0 <= i < |ts| ==> |ts[i]| > 0
  {
    var all := AllTerms(names, powers);
    SelectAtNonzeroIndices(all, powers, 0);
    Select(all, powers, 0)
  }

  /** The term of every exponent, zero or not. */
  function AllTerms(names: seq<string>, powers: seq<real>): (all: seq<string>)
    requires |names| == |powers|
    ensures |all| == |powers| && forall j :: 0 <= j < |all| ==> all[j] == Term(names[j], powers[j])
  {
    seq(|powers|, j requires 0 <= j < |powers| => Term(names[j], powers[j]))
  }

  /** The elements of `xs` at or after position `i` whose power is nonzero, in order. */
  function Select<T>(xs: seq<T>, powers: seq<real>, i: nat): (ys: seq<T>)
    requires |xs| == |powers| && i <= |powers|
    ensures ys == [] <==> forall j :: i <= j < |powers| ==> powers[j] == 0.0
    decreases |powers| - i
  {
    if i == |powers| then []
    else (if powers[i] != 0.0 then [xs[i]] else []) + Select(xs, powers, i + 1)
  }

  /** The k-th term is the term of the k-th nonzero power. */
  lemma TermsAtNonzeroIndices(names: seq<string>, powers: seq<real>)
    requires |names| == |powers|
    ensures var ts, ix := Terms(names, powers), NonzeroIndices(powers);
            |ts| == |ix| && forall k :: 0 <= k < |ix| ==> ts[k] == Term(names[ix[k]], powers[ix[k]])
  {
    SelectAtNonzeroIndices(AllTerms(names, powers), powers, 0);
  }

  /** The k-th selected element is the element at the k-th nonzero position. */
  lemma {:induction false} SelectAtNonzeroIndices<T>(xs: seq<T>, powers: seq<real>, i: nat)
    requires |xs| == |powers| && i <= |powers|
    ensures var ys, ix := Select(xs, powers, i), NonzeroIndicesFrom(powers, i);
            |ys| == |ix| && forall k :: 0 <= k < |ix| ==> ys[k] == xs[ix[k]]
    decreases |powers| - i
  {
    if i < |powers| {
      SelectAtNonzeroIndices(xs, powers, i + 1);
      var ys, ix := Select(xs, powers, i), NonzeroIndicesFrom(powers, i);
      var rest, rix := Select(xs, powers, i + 1), NonzeroIndicesFrom(powers, i + 1);
      if powers[i] != 0.0 {
        assert ys == [xs[i]] + rest;
        assert ix == [i] + rix;
        forall k | 1 <= k < |ix|
          ensures ys[k] == xs[ix[k]]
        {
          assert ys[k] == rest[k - 1] && ix[k] == rix[k - 1];
        }
      } else {
        assert ys == rest && ix == rix;
      }
    }
  }

  /** The parts joined by `*`. */
  function Join(parts: seq<string>): (s: string)
    ensures (forall i :: 0 <= i < |parts| ==> |parts[i]| > 0) ==> (s == "" <==> parts == [])
    ensures |parts| == 1 ==> s == parts[0]
  {
    if parts == [] then ""
    else if |parts| == 1 then parts[0]
    else parts[0] + "*" + Join(parts[1..])
  }

  /** Joining two nonempty runs of parts puts one `*` between their joins. */
  lemma {:induction false} JoinAppend(ps: seq<string>, qs: seq<string>)
    requires ps != [] && qs != []
    ensures Join(ps + qs) == Join(ps) + "*" + Join(qs)
    decreases |ps|
  {
    if |ps| == 1 {
      assert (ps + qs)[1..] == qs;
    } else {
      assert (ps + qs)[1..] == ps[1..] + qs;
      JoinAppend(ps[1..], qs);
    }
  }

  /**
   * The human-readable form of a dimension tuple: `dim_str`. For a printable
   * tuple `%g` prints each exponent as a plain integer.
   */
  function DimStr(d: Dims): (s: string)
    requires Printable(d)
    ensures var e := Exponents(d);
            var ix := NonzeroIndices(e);
            s == Join(seq(|ix|, k requires 0 <= k < |ix| => Term(Abbreviations[ix[k]], e[ix[k]])))
  {
    var ts := Terms(Abbreviations, Exponents(d));
    var ix := NonzeroIndices(Exponents(d));
    TermsAtNonzeroIndices(Abbreviations, Exponents(d));
    assert ts == seq(|ix|, k requires 0 <= k < |ix| => Term(Abbreviations[ix[k]], Exponents(d)[ix[k]]));
    Join(ts)
  }

  /** Only the dimensionless tuple prints as the empty string. */
  lemma DimStrEmpty(d: Dims)
    requires Printable(d)
    ensures DimStr(d) == "" <==> d == Dimensionless
  {
    var e := Exponents(d);
    assert DimStr(d) == "" <==> Terms(Abbreviations, e) == [];
    DimensionlessIffZero(d);
  }

  /** A tuple is dimensionless exactly when all its exponents are zero. */
  lemma DimensionlessIffZero(d: Dims)
    ensures d == Dimensionless <==> forall i :: 0 <= i < 7 ==> Exponents(d)[i] == 0.0
  {
    var e := Exponents(d);
    if forall i :: 0 <= i < 7 ==> e[i] == 0.0 {
      assert e[0] == 0.0 && e[1] == 0.0 && e[2] == 0.0 && e[3] == 0.0;
      assert e[4] == 0.0 && e[5] == 0.0 && e[6] == 0.0;
    }
  }

  /** The example of the source's test: a force prints as `kg**1*m**1*s**-2`. */
  lemma DimStrForce()
    ensures Printable(ForceT) && DimStr(ForceT) == "kg**1*m**1*s**-2"
  {
    ForceTerms();
    ForceJoin();
  }

  lemma ForceJoin()
    ensures Join(["kg**1", "m**1", "s**-2"]) == "kg**1*m**1*s**-2"
  {
    var ts := ["kg**1", "m**1", "s**-2"];
    assert ts[1..] == ["m**1", "s**-2"] && ts[1..][1..] == ["s**-2"];
    assert Join(ts[1..]) == "m**1*s**-2";
  }

  lemma ForceTerms()
    ensures Exponents(ForceT) == [1.0, 1.0, -2.0, 0.0, 0.0, 0.0, 0.0]
    ensures Printable(ForceT)
    ensures Terms(Abbreviations, Exponents(ForceT)) == ["kg**1", "m**1", "s**-2"]
  {
    ForceExponents();
    var e := [1.0, 1.0, -2.0, 0.0, 0.0, 0.0, 0.0];
    var all := AllTerms(Abbreviations, e);
    SelectFirstThree(all, e);
    TermStrings();
    assert all[0] == Term("kg", 1.0) && all[1] == Term("m", 1.0) && all[2] == Term("s", -2.0);
  }

  /** With only the first three powers nonzero, `Select` keeps the first three elements. */
  lemma SelectFirstThree<T>(xs: seq<T>, powers: seq<real>)
    requires |xs| == |powers| == 7
    requires powers[0] != 0.0 && powers[1] != 0.0 && powers[2] != 0.0
    requires forall j :: 3 <= j < 7 ==> powers[j] == 0.0
    ensures Select(xs, powers, 0) == [xs[0], xs[1], xs[2]]
  {
    assert Select(xs, powers, 3) == [];
    SelectStep(xs, powers, 2);
    SelectStep(xs, powers, 1);
    SelectStep(xs, powers, 0);
  }

  lemma ForceExponents()
    ensures Exponents(ForceT) == [1.0, 1.0, -2.0, 0.0, 0.0, 0.0, 0.0]
    ensures Printable(ForceT)
  {
  }

  lemma TermStrings()
    ensures Term("kg", 1.0) == "kg**1"
    ensures Term("m", 1.0) == "m**1"
    ensures Term("s", -2.0) == "s**-2"
  {
    assert (1.0).Floor == 1 && (-2.0).Floor == -2;
    assert IntStr(1) == "1" && IntStr(-2) == "-2";
  }

  /** One step of `Select`: the element at `i` is kept when its power is nonzero. */
  lemma SelectStep<T>(xs: seq<T>, powers: seq<real>, i: nat)
    requires |xs| == |powers| && i < |powers|
    ensures Select(xs, powers, i) == (if powers[i] != 0.0 then [xs[i]] else []) + Select(xs, powers, i + 1)
  {
  }

  // ---------------------------------------------------------------------
  // Derived dimensions
  // ---------------------------------------------------------------------

  const AngleT: Dims := SIDimensions()
  const SolidAngleT: Dims := SIDimensions()
  const StrainT: Dims := SIDimensions()
  const RatioT: Dims := SIDimensions()
  const MassT: Dims := SIDimensions(kg := 1.0)
  const DistanceT: Dims := SIDimensions(m := 1.0)
  const TimeT: Dims := SIDimensions(s := 1.0)
  const TemperatureT: Dims := SIDimensions(k := 1.0)
  const CurrentT: Dims := SIDimensions(a := 1.0)
  const AmountT: Dims := SIDimensions(mol := 1.0)
  const LuminosityT: Dims := SIDimensions(cd := 1.0)
  const FrequencyT: Dims := SIDimensions(s := -1.0)
  const SpeedT: Dims := DimDiv(DistanceT, TimeT)
  const AccelerationT: Dims := DimDiv(SpeedT, TimeT)
  const JerkT: Dims := DimDiv(AccelerationT, TimeT)
  const JounceT: Dims := DimDiv(JerkT, TimeT)
  const AreaT: Dims := DimPow(DistanceT, 2.0)
  const VolumeT: Dims := DimPow(DistanceT, 3.0)
  const DensityT: Dims := DimDiv(MassT, VolumeT)
  const VolumetricFlowT: Dims := DimDiv(VolumeT, TimeT)
  const ForceT: Dims := DimMul(MassT, AccelerationT)
  const MomentT: Dims := DimMul(ForceT, DistanceT)
  const TorqueT: Dims := MomentT
  const ImpulseT: Dims := DimMul(ForceT, TimeT)
  const MomentumT: Dims := ImpulseT
  const StressT: Dims := DimDiv(ForceT, AreaT)
  const PressureT: Dims := StressT
  const HydrostaticPressureT: Dims := DimMul(DensityT, DimMul(AccelerationT, DistanceT))
  const StiffnessT: Dims := DimDiv(ForceT, DistanceT)
  const SurfaceTensionT: Dims := StiffnessT
  const EnergyT: Dims := DimMul(ForceT, DistanceT)
  const WorkT: Dims := EnergyT
  const HeatT: Dims := EnergyT
  const PowerT: Dims := DimDiv(EnergyT, TimeT)
  const ChargeT: Dims := DimMul(CurrentT, TimeT)
  /** `potential_t` as the source defines it: energy per current (see PotentialT). */
  const PotentialTAsWritten: Dims := DimDiv(EnergyT, CurrentT)
  /** The electric potential (volt): energy per charge. */
  const PotentialT: Dims := DimDiv(EnergyT, ChargeT)
  /** The electrical dimensions as the source builds them, on the as-written potential. */
  const CapacitanceTAsWritten: Dims := DimDiv(ChargeT, PotentialTAsWritten)
  const ResistanceTAsWritten: Dims := DimDiv(PotentialTAsWritten, CurrentT)
  const ImpedanceTAsWritten: Dims := ResistanceTAsWritten
  const ReactanceTAsWritten: Dims := ResistanceTAsWritten
  const ConductanceTAsWritten: Dims := DimDiv(CurrentT, PotentialTAsWritten)
  const InductanceTAsWritten: Dims := DimMul(ImpedanceTAsWritten, TimeT)
  /** The electrical dimensions on the corrected potential. */
  const CapacitanceT: Dims := DimDiv(ChargeT, PotentialT)
  const ResistanceT: Dims := DimDiv(PotentialT, CurrentT)
  const ImpedanceT: Dims := ResistanceT
  const ReactanceT: Dims := ResistanceT
  const ConductanceT: Dims := DimDiv(CurrentT, PotentialT)
  const MagneticFluxT: Dims := DimDiv(EnergyT, CurrentT)
  const MagneticFluxDensityT: Dims := DimDiv(MagneticFluxT, AreaT)
  const InductanceT: Dims := DimMul(ImpedanceT, TimeT)
  const LuminousFluxT: Dims := DimMul(LuminosityT, SolidAngleT)
  const IlluminanceT: Dims := DimDiv(LuminousFluxT, AreaT)
  const MolarityT: Dims := DimDiv(AmountT, VolumeT)
  const MolalityT: Dims := DimDiv(AmountT, MassT)
  const MolarMassT: Dims := DimDiv(MassT, AmountT)
  const EntropyT: Dims := DimDiv(EnergyT, TemperatureT)
  const HeatCapacityT: Dims := EntropyT
  const SpecificEntropyT: Dims := DimDiv(EntropyT, MassT)
  const SpecificHeatCapacityT: Dims := SpecificEntropyT
  const TemperatureGradientT: Dims := DimDiv(TemperatureT, DistanceT)

  /** The derived dimensions, written out as exponent tuples. */
  lemma DerivedDimensions()
    ensures SIDimensions(kg := 1.0, m := 2.0, s := 3.0, k := 4.0, a := 5.0, mol := 6.0, cd := 7.0)
            == Dims(1.0, 2.0, 3.0, 4.0, 5.0, 6.0, 7.0)
    ensures SpeedT == Dims(0.0, 1.0, -1.0, 0.0, 0.0, 0.0, 0.0)
    ensures AccelerationT == Dims(0.0, 1.0, -2.0, 0.0, 0.0, 0.0, 0.0)
    ensures JounceT == Dims(0.0, 1.0, -4.0, 0.0, 0.0, 0.0, 0.0)
    ensures AreaT == Dims(0.0, 2.0, 0.0, 0.0, 0.0, 0.0, 0.0)
    ensures DensityT == Dims(1.0, -3.0, 0.0, 0.0, 0.0, 0.0, 0.0)
    ensures ForceT == Dims(1.0, 1.0, -2.0, 0.0, 0.0, 0.0, 0.0)
    ensures EnergyT == Dims(1.0, 2.0, -2.0, 0.0, 0.0, 0.0, 0.0)
    ensures EnergyT == MomentT && EnergyT == DimMul(ForceT, DistanceT)
    ensures PowerT == Dims(1.0, 2.0, -3.0, 0.0, 0.0, 0.0, 0.0)
    ensures PressureT == Dims(1.0, -1.0, -2.0, 0.0, 0.0, 0.0, 0.0)
    ensures HydrostaticPressureT == PressureT
    ensures MagneticFluxT == Dims(1.0, 2.0, -2.0, 0.0, -1.0, 0.0, 0.0)
    ensures MagneticFluxDensityT == Dims(1.0, 0.0, -2.0, 0.0, -1.0, 0.0, 0.0)
    ensures EntropyT == Dims(1.0, 2.0, -2.0, -1.0, 0.0, 0.0, 0.0)
    ensures IlluminanceT == Dims(0.0, -2.0, 0.0, 0.0, 0.0, 0.0, 1.0)
    ensures FrequencyT == DimDiv(Dimensionless, TimeT)
  {
  }

  /**
   * As written, `potential_t` is energy per current, which is the dimension
   * of magnetic flux (the weber), not of the volt (power per current); the
   * capacitance, resistance, impedance, reactance, conductance and inductance
   * built on it are off by one power of the second.
   */
  lemma ElectricalDimensionsAsWritten()
    ensures PotentialTAsWritten == MagneticFluxT
    ensures PotentialTAsWritten != DimDiv(PowerT, CurrentT)
    ensures CapacitanceTAsWritten == Dims(-1.0, -2.0, 3.0, 0.0, 2.0, 0.0, 0.0)
    ensures ResistanceTAsWritten == Dims(1.0, 2.0, -2.0, 0.0, -2.0, 0.0, 0.0)
    ensures ImpedanceTAsWritten == ResistanceTAsWritten && ReactanceTAsWritten == ResistanceTAsWritten
    ensures ConductanceTAsWritten == Dims(-1.0, -2.0, 2.0, 0.0, 2.0, 0.0, 0.0)
    ensures InductanceTAsWritten == Dims(1.0, 2.0, -1.0, 0.0, -2.0, 0.0, 0.0)
    ensures CapacitanceTAsWritten != CapacitanceT && ResistanceTAsWritten != ResistanceT
    ensures ConductanceTAsWritten != ConductanceT && InductanceTAsWritten != InductanceT
  {
  }

  /** The corrected potential is the volt, and the electrical dimensions built on it are the SI ones. */
  lemma ElectricalDimensions()
    ensures PotentialT == DimDiv(PowerT, CurrentT)
    ensures PotentialT == Dims(1.0, 2.0, -3.0, 0.0, -1.0, 0.0, 0.0)
    ensures PotentialT != MagneticFluxT
    ensures CapacitanceT == Dims(-1.0, -2.0, 4.0, 0.0, 2.0, 0.0, 0.0)
    ensures ResistanceT == Dims(1.0, 2.0, -3.0, 0.0, -2.0, 0.0, 0.0)
    ensures ConductanceT == Dims(-1.0, -2.0, 3.0, 0.0, 2.0, 0.0, 0.0)
    ensures InductanceT == Dims(1.0, 2.0, -2.0, 0.0, -2.0, 0.0, 0.0)
    ensures MagneticFluxT == DimMul(PotentialT, TimeT)
  {
  }
}
