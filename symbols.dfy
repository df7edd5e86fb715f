/**
 * The symbol validators that guard evaluation and truth-table construction:
 * a one-to-one check of user-supplied symbol lists against an expression's
 * symbols, and a check of the keyword arguments mapping symbols to values.
 */
module SymbolAssertions {
  import opened Wrappers
  import opened PyValues
  import opened Seqs
  import Grammar

  /** The symbol errors, with the symbols their messages name. */
  datatype SymbolError =
    | DuplicateSymbol                              // "Received duplicate symbols"
    | MissingSymbols(missing: set<string>)         // "Did not receive value for the following symbols: ..."
    | ExtraSymbols(extra: set<string>)             // "Received unexpected symbols: ..."
    | ExtraSymbol(key: string)                     // "\"k\" is not a symbol in this expression"
    | InvalidBooleanValue(value: PyValue, key: string)
    | UnhashableValue(value: PyValue)              // the `TypeError` of `v in BOOLEAN_VALUES` on a list

  function SetOf(s: seq<string>): set<string> {
    set x | x in s
  }

  /** A sequence whose set is as large as the sequence has no repeated element. */
  lemma {:induction false} CardMeansDistinct(s: seq<string>)
    ensures Distinct(s) <==> |SetOf(s)| == |s|
  {
    if Distinct(s) {
      DistinctCard(s);
    } else {
      var i, j :| 0 <= i < j < |s| && s[i] == s[j];
      var t := s[..j] + s[j + 1..];
      assert s == s[..j] + [s[j]] + s[j + 1..];
      assert SetOf(s) == SetOf(t) by {
        assert s[j] == t[i];
        forall x | x in SetOf(s) ensures x in SetOf(t) {
          var k :| 0 <= k < |s| && s[k] == x;
          if k < j {
            assert t[k] == x;
          } else if k > j {
            assert t[k - 1] == x;
          }
        }
      }
      CardAtMostLength(t);
    }
  }

  /** The set of a sequence has at most its length. */
  lemma {:induction false} CardAtMostLength(s: seq<string>)
    ensures |SetOf(s)| <= |s|
  {
    if s != [] {
      var t := s[..|s| - 1];
      CardAtMostLength(t);
      assert SetOf(s) == SetOf(t) + {s[|s| - 1]};
    }
  }

  /**
   * `assert_iterable_contains_all_expr_symbols(passed, reference)`: duplicates
   * are rejected first, then missing symbols, then unexpected ones.
   */
  function ContainsAllSymbols(passed: seq<string>, reference: set<string>): (r: Outcome<SymbolError>)
    ensures r.Pass? <==> Distinct(passed) && SetOf(passed) == reference
    ensures r == Fail(DuplicateSymbol) <==> !Distinct(passed)
    ensures r.Fail? && r.error.MissingSymbols? ==>
              Distinct(passed) && r.error.missing == reference - SetOf(passed) && r.error.missing != {}
    ensures r.Fail? && r.error.ExtraSymbols? ==>
              Distinct(passed) && reference <= SetOf(passed) &&
              r.error.extra == SetOf(passed) - reference && r.error.extra != {}
    ensures r.Fail? ==> r.error.DuplicateSymbol? || r.error.MissingSymbols? || r.error.ExtraSymbols?
  {
    CardMeansDistinct(passed);
    var passedSet := SetOf(passed);
    if |passed| != |passedSet| then Fail(DuplicateSymbol)
    else
      var passedExcess := passedSet - reference;
      var referenceExcess := reference - passedSet;
      if referenceExcess != {} then Fail(MissingSymbols(referenceExcess))
      else
        assert reference <= passedSet by {
          forall x | x in reference ensures x in passedSet {
            assert x !in referenceExcess;
          }
        }
        if passedExcess != {} then Fail(ExtraSymbols(passedExcess))
        else Pass
  }

  /** The error `assert_all_valid_keys` raises for one entry, if any. */
  function EntryError(key: string, value: PyValue, symbolSet: set<string>): Option<SymbolError> {
    if key !in symbolSet then Some(ExtraSymbol(key))
    else if !IsHashable(value) then Some(UnhashableValue(value))
    else if !Grammar.IsBooleanValue(value) then Some(InvalidBooleanValue(value, key))
    else None
  }

  /** An entry whose key is a symbol and whose value is one of `BOOLEAN_VALUES`. */
  predicate ValidEntry(key: string, value: PyValue, symbolSet: set<string>) {
    key in symbolSet && IsHashable(value) && Grammar.IsBooleanValue(value)
  }

  /** The position of the first entry that is not valid, or `|entries|` when all are. */
  function FirstInvalid(entries: seq<(string, PyValue)>, symbolSet: set<string>): (i: nat)
    ensures i <= |entries|
    ensures forall j :: 0 <= j < i ==> ValidEntry(entries[j].0, entries[j].1, symbolSet)
    ensures i < |entries| ==> !ValidEntry(entries[i].0, entries[i].1, symbolSet)
  {
    if entries == [] || !ValidEntry(entries[0].0, entries[0].1, symbolSet) then 0
    else 1 + FirstInvalid(entries[1..], symbolSet)
  }

  /**
   * `assert_all_valid_keys(entries, symbolSet)` over the dictionary's items
   * in iteration order: the first offending entry decides the error.
   */
  function ValidKeys(entries: seq<(string, PyValue)>, symbolSet: set<string>): (r: Outcome<SymbolError>)
    ensures r.Pass? <==> forall i :: 0 <= i < |entries| ==> ValidEntry(entries[i].0, entries[i].1, symbolSet)
    ensures r.Fail? ==> var i := FirstInvalid(entries, symbolSet);
                        i < |entries| && EntryError(entries[i].0, entries[i].1, symbolSet) == Some(r.error)
    ensures r.Fail? ==> r.error.ExtraSymbol? || r.error.InvalidBooleanValue? || r.error.UnhashableValue?
  {
    if entries == [] then Pass
    else
      match EntryError(entries[0].0, entries[0].1, symbolSet)
      case Some(e) => Fail(e)
      case None => ValidKeys(entries[1..], symbolSet)
  }

  /** A key outside the symbols is reported even when its value is also bad. */
  lemma ExtraKeyFirst(entries: seq<(string, PyValue)>, symbolSet: set<string>)
    requires entries != [] && entries[0].0 !in symbolSet
    ensures ValidKeys(entries, symbolSet) == Fail(ExtraSymbol(entries[0].0))
  {
  }

  /** Any subset of the symbols with truth values passes: missing symbols are never reported. */
  lemma SubsetPasses(entries: seq<(string, PyValue)>, symbolSet: set<string>)
    requires forall i :: 0 <= i < |entries| ==> entries[i].0 in symbolSet
    requires forall i :: 0 <= i < |entries| ==> entries[i].1 in [PyInt(0), PyInt(1), PyBool(true), PyBool(false)]
    ensures ValidKeys(entries, symbolSet) == Pass
  {
    assert forall i :: 0 <= i < |entries| ==> ValidEntry(entries[i].0, entries[i].1, symbolSet);
  }
}
