/**
 * The position fix held by the location-feed client (src/gps/position.rs).
 *
 * Latitude and longitude are Rust `f64`s. They are never used in arithmetic,
 * only copied and compared, so the model keeps their IEEE-754 binary64 bit
 * pattern and gives `==` on them its IEEE meaning: a NaN equals nothing (not
 * even itself) and +0.0 equals -0.0.
 */
module GpsPosition {

  /** The bit pattern of an IEEE-754 binary64 value. */
  type F64 = bv64

  /** The bit pattern of +0.0. */
  const PositiveZero: F64 := 0

  /** The bit pattern of -0.0. */
  const NegativeZero: F64 := 0x8000_0000_0000_0000

  /** All exponent bits set and a non-zero fraction. */
  predicate IsNaN(x: F64) {
    x & 0x7FF0_0000_0000_0000 == 0x7FF0_0000_0000_0000 && x & 0x000F_FFFF_FFFF_FFFF != 0
  }

  /** +0.0 or -0.0. */
  predicate IsZero(x: F64) {
    x & 0x7FFF_FFFF_FFFF_FFFF == 0
  }

  /** Rust's `f64 == f64`: IEEE-754 equality. */
  predicate FloatEq(a: F64, b: F64) {
    !IsNaN(a) && !IsNaN(b) && (a == b || (IsZero(a) && IsZero(b)))
  }

  lemma FloatEqSymmetric(a: F64, b: F64)
    ensures FloatEq(a, b) <==> FloatEq(b, a)
  {}

  lemma FloatEqTransitive(a: F64, b: F64, c: F64)
    ensures FloatEq(a, b) && FloatEq(b, c) ==> FloatEq(a, c)
  {}

  /** A float equals itself exactly when it is not a NaN. */
  lemma FloatEqReflexiveUnlessNaN(a: F64)
    ensures FloatEq(a, a) <==> !IsNaN(a)
  {}

  /** On everything except NaNs and -0.0, IEEE equality is bit equality. */
  lemma FloatEqIsIdentityOnCanonical(a: F64, b: F64)
    requires !IsNaN(a) && !IsNaN(b) && a != NegativeZero && b != NegativeZero
    ensures FloatEq(a, b) <==> a == b
  {}

  /** A fix: the feed's timestamp text and the coordinates it reported. */
  datatype Position = Position(time: string, lat: F64, lon: F64)

  /** `Position::new`: stores the three values as given. */
  function New(time: string, lat: F64, lon: F64): (p: Position)
    ensures p.time == time && p.lat == lat && p.lon == lon
  {
    Position(time, lat, lon)
  }

  /** `Position::default`: the empty timestamp at (0.0, 0.0). */
  function Default(): (p: Position)
    ensures p.time == "" && p.lat == PositiveZero && p.lon == PositiveZero
  {
    New("", PositiveZero, PositiveZero)
  }

  /** `PartialEq::eq`: field-wise, with IEEE equality on the coordinates. */
  predicate Eq(p: Position, q: Position)
    ensures Eq(p, q) ==> p.time == q.time && !IsNaN(p.lat) && !IsNaN(p.lon) && !IsNaN(q.lat) && !IsNaN(q.lon)
  {
    p.time == q.time && FloatEq(p.lat, q.lat) && FloatEq(p.lon, q.lon)
  }

  /** `Display::fmt` writes nothing, whatever the fix. */
  function Display(p: Position): (s: string)
    ensures |s| == 0
  {
    ""
  }

  /** Equal positions agree on their timestamp, and equality is symmetric and transitive. */
  lemma EqIsPartialEquivalence(p: Position, q: Position, r: Position)
    ensures Eq(p, q) ==> p.time == q.time
    ensures Eq(p, q) <==> Eq(q, p)
    ensures Eq(p, q) && Eq(q, r) ==> Eq(p, r)
  {}

  /** A position equals itself exactly when neither coordinate is a NaN. */
  lemma EqReflexiveUnlessNaN(p: Position)
    ensures Eq(p, p) <==> !IsNaN(p.lat) && !IsNaN(p.lon)
  {}

  /** Two fixes built by `New` are equal iff their three arguments are. */
  lemma NewEqIffArgumentsEq(t1: string, a1: F64, o1: F64, t2: string, a2: F64, o2: F64)
    ensures Eq(New(t1, a1, o1), New(t2, a2, o2)) <==> t1 == t2 && FloatEq(a1, a2) && FloatEq(o1, o2)
  {}

  /** The default fix is equal to itself and to every fix with an empty time at (±0.0, ±0.0). */
  lemma DefaultIsEmptyFix(p: Position)
    ensures Eq(Default(), Default())
    ensures Eq(Default(), p) <==> p.time == "" && IsZero(p.lat) && IsZero(p.lon)
  {}
}
