/** Token classes of the expression grammar and the accepted truth values. */
module Grammar {
  import opened PyValues

  /** `DELIMITERS`: characters that end an operand. */
  const Delimiters: set<char> := {' ', '(', ')'}

  /** `CONSTANT_VALUES`: operand texts that denote constants, not symbols. */
  const ConstantValues: set<string> := {"0", "1"}

  /**
   * `v in BOOLEAN_VALUES` with `BOOLEAN_VALUES = {0, 1, True, False}`: Python
   * set membership compares by hash and `==`, so the floats 0.0 and 1.0 are
   * members too.
   */
  predicate IsBooleanValue(v: PyValue)
    requires IsHashable(v)
  {
    match v
    case PyInt(i) => i == 0 || i == 1
    case PyBool(_) => true
    case PyFloat(f) => f == 0.0 || f == 1.0
    case _ => false
  }
}
