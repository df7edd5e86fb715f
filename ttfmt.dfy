/** Helpers of the early truth-table formatter: variable extraction. */
module TtFmt {
  import opened PyValues

  /**
   * `get_vars(equation)`: each character that is upper-case
   * alphanumeric, as a one-character string, in order and with repeats.
   */
  function GetVars(equation: string): seq<string> {
    if equation == [] then []
    else (if IsUpperAlnum(equation[0]) then [[equation[0]]] else []) + GetVars(equation[1..])
  }

  /** Every extracted variable is one upper-case alphanumeric character, and there are at most as many as characters. */
  lemma {:induction false} GetVarsAreVariables(equation: string)
    ensures var vars := GetVars(equation);
            |vars| <= |equation| && forall k :: 0 <= k < |vars| ==> |vars[k]| == 1 && IsUpperAlnum(vars[k][0])
  {
    if equation != [] {
      GetVarsAreVariables(equation[1..]);
    }
  }

  /** Extraction goes piece by piece, so the variables keep the equation's order. */
  lemma {:induction false} GetVarsConcat(a: string, b: string)
    ensures GetVars(a + b) == GetVars(a) + GetVars(b)
  {
    if a == [] {
      assert a + b == b;
    } else {
      assert (a + b)[0] == a[0] && (a + b)[1..] == a[1..] + b;
      GetVarsConcat(a[1..], b);
    }
  }

  /** A single character is kept exactly when it is upper-case alphanumeric. */
  lemma GetVarsOfChar(c: char)
    ensures GetVars([c]) == if IsUpperAlnum(c) then [[c]] else []
  {
    assert [c][1..] == [];
  }

  /** The output variable comes first when the equation starts with it. */
  lemma OutputVariableFirst(equation: string)
    requires equation != [] && IsUpperAlnum(equation[0])
    ensures GetVars(equation) != [] && GetVars(equation)[0] == [equation[0]]
  {
  }

  /** Lower-case letters, digits, spaces and operator characters are dropped. */
  lemma {:induction false} NoVars(s: string)
    requires forall i :: 0 <= i < |s| ==> !IsUpperAlnum(s[i])
    ensures GetVars(s) == []
  {
    if s != [] {
      NoVars(s[1..]);
    }
  }

  /** `transform_to_generic_schema(equation)`: a placeholder that returns its argument. */
  function TransformToGenericSchema(equation: string): (r: string)
    ensures r == equation
  {
    equation
  }
}
