/** `WindowState.java`: the immutable description of one requested render, with the
    value equality and hash the render scheduler uses to suppress duplicates. The
    double fields hold raw IEEE 754 bit patterns. */
module WindowStates {
  import opened Java
  import opened Ieee754

  /** Canvas size, iteration limit, focus, zoom and the per-pixel step. The step is
      carried for navigation only: `equals` and `hashCode` ignore it. */
  datatype WindowState = WindowState(
    pixWidth: Int32, pixHeight: Int32, limit: Int32,
    focusX: bv64, focusY: bv64, zoom: bv64,
    step: bv64)

  /** A double compared as `equals` compares it: by `doubleToLongBits`. */
  predicate SameDouble(a: bv64, b: bv64) {
    DoubleToLongBits(a) == DoubleToLongBits(b)
  }

  /** `equals` between two `WindowState`s, field by field in the source's order. */
  predicate Equals(a: WindowState, b: WindowState) {
    SameDouble(a.focusX, b.focusX) && SameDouble(a.focusY, b.focusY)
    && a.limit == b.limit && a.pixHeight == b.pixHeight && a.pixWidth == b.pixWidth
    && SameDouble(a.zoom, b.zoom)
  }

  /** What `equals(Object)` may be handed: null, a `WindowState`, or an object of
      another class. */
  datatype JavaObject = Null | State(state: WindowState) | OtherClass

  /** `equals(Object)`: false for null and for other classes; the same reference
      carries the same fields, so the identity shortcut agrees with `Equals`. */
  predicate EqualsObject(a: WindowState, obj: JavaObject) {
    match obj
    case Null => false
    case OtherClass => false
    case State(b) => a == b || Equals(a, b)
  }

  /** Two states are equal exactly when their canvas, limit, focus and zoom agree,
      where two doubles agree when their bits are identical or both are NaN. */
  lemma EqualsIff(a: WindowState, b: WindowState)
    ensures Equals(a, b) <==>
      a.pixWidth == b.pixWidth && a.pixHeight == b.pixHeight && a.limit == b.limit
      && (a.focusX == b.focusX || (IsNaN(a.focusX) && IsNaN(b.focusX)))
      && (a.focusY == b.focusY || (IsNaN(a.focusY) && IsNaN(b.focusY)))
      && (a.zoom == b.zoom || (IsNaN(a.zoom) && IsNaN(b.zoom)))
  {
    SameLongBits(a.focusX, b.focusX);
    SameLongBits(a.focusY, b.focusY);
    SameLongBits(a.zoom, b.zoom);
  }

  /** `equals(Object)` rejects null and other classes and accepts the same object. */
  lemma EqualsObjectCases(a: WindowState)
    ensures !EqualsObject(a, Null) && !EqualsObject(a, OtherClass)
    ensures EqualsObject(a, State(a))
  {
  }

  /** `equals(Object)` on a `WindowState` argument is `Equals`. */
  lemma EqualsObjectOnStates(a: WindowState, b: WindowState)
    ensures EqualsObject(a, State(b)) <==> Equals(a, b)
  {
  }

  lemma EqualsReflexive(a: WindowState)
    ensures Equals(a, a)
  {
  }

  lemma EqualsSymmetric(a: WindowState, b: WindowState)
    ensures Equals(a, b) <==> Equals(b, a)
  {
    assert SameDouble(a.focusX, b.focusX) == SameDouble(b.focusX, a.focusX);
    assert SameDouble(a.focusY, b.focusY) == SameDouble(b.focusY, a.focusY);
    assert SameDouble(a.zoom, b.zoom) == SameDouble(b.zoom, a.zoom);
  }

  lemma EqualsTransitive(a: WindowState, b: WindowState, c: WindowState)
    requires Equals(a, b) && Equals(b, c)
    ensures Equals(a, c)
  {
  }

  /** The step never takes part in equality. */
  lemma EqualsIgnoresStep(a: WindowState, step: bv64)
    ensures Equals(a, a.(step := step))
  {
  }

  /** NaNs with different payloads are the same for `equals`; the two zeros, equal as
      numbers, are not. */
  lemma EqualsOnSpecialDoubles(a: WindowState)
    ensures Equals(a.(zoom := 0x7FF0_0000_0000_0001), a.(zoom := 0xFFF8_0000_0000_0000))
    ensures !Equals(a.(focusX := 0), a.(focusX := SIGN_BIT))
  {
    SameLongBits(0x7FF0_0000_0000_0001, 0xFFF8_0000_0000_0000);
    SameLongBits(0, SIGN_BIT);
  }

  // ---------------------------------------------------------------------------
  // hashCode

  /** An `int` as the 32 bits Java stores it in (two's complement). */
  function IntBits(x: Int32): bv32 {
    (x % 0x1_0000_0000) as bv32
  }

  /** `(int)(temp ^ (temp >>> 32))`: the two halves of a long xor-ed. */
  function LongBits(temp: bv64): bv32 {
    ((temp ^ (temp >> 32)) & 0xFFFF_FFFF) as bv32
  }

  /** One step of the fold, `31 * result + word` with 32-bit wrap-around. */
  function Step31(result: bv32, word: bv32): bv32 {
    31 * result + word
  }

  /** `hashCode`: starting from 1, fold in focusX, focusY, limit, pixHeight,
      pixWidth and zoom, each double through `doubleToLongBits`. */
  function HashCode(s: WindowState): bv32 {
    var r0: bv32 := 1;
    var r1 := Step31(r0, LongBits(DoubleToLongBits(s.focusX)));
    var r2 := Step31(r1, LongBits(DoubleToLongBits(s.focusY)));
    var r3 := Step31(r2, IntBits(s.limit));
    var r4 := Step31(r3, IntBits(s.pixHeight));
    var r5 := Step31(r4, IntBits(s.pixWidth));
    Step31(r5, LongBits(DoubleToLongBits(s.zoom)))
  }

  /** Equal states have equal hash codes. */
  lemma HashConsistentWithEquals(a: WindowState, b: WindowState)
    requires Equals(a, b)
    ensures HashCode(a) == HashCode(b)
  {
  }

  /** The step does not enter the hash. */
  lemma HashIgnoresStep(a: WindowState, step: bv64)
    ensures HashCode(a) == HashCode(a.(step := step))
  {
  }
}
