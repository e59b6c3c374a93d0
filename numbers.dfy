/**
 * Lox numbers are host doubles. The model does not define floating-point arithmetic: a double is
 * its canonical 64-bit pattern (the one Java's `doubleToLongBits` gives, which folds every NaN into
 * one), and the operations the interpreter, the printer and the tokens use are host functions
 * passed in as a NumberOps value.
 */
module Numbers {
  import opened TokenTypes

  /**
   * A double. Two boxed doubles are `equals` on the JVM exactly when their canonical bit patterns
   * agree, so Dafny's `==` on this type is Kotlin's `==` on boxed numbers: NaN equals NaN, and
   * 0.0 differs from -0.0.
   */
  datatype Double = Double(bits: bv64)

  /** The host's conversions and floating-point operations. */
  datatype NumberOps = NumberOps(
    /** `String.toDouble` of a number lexeme. */
    fromText: string -> Double,
    /** `Double.toString`. */
    toText: Double -> string,
    add: (Double, Double) -> Double,
    subtract: (Double, Double) -> Double,
    multiply: (Double, Double) -> Double,
    divide: (Double, Double) -> Double,
    negate: Double -> Double,
    /** IEEE `<` and `<=`; `a > b` is `b < a` and `a >= b` is `b <= a`, NaN included. */
    less: (Double, Double) -> bool,
    lessEqual: (Double, Double) -> bool)

  /** Kotlin's `Double.hashCode`: the high and low halves of the bit pattern, exclusive-or'ed, as an Int. */
  function DoubleHash(d: Double): Int32 {
    var low := (d.bits ^ (d.bits >> 32)) & 0xFFFF_FFFF;
    Wrap32(low as int)
  }
}
