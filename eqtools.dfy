/**
 * The early equation rewriter: operator aliases replaced by schema symbols,
 * then whitespace removed; and symbol extraction from an equation.
 */
module EqTools {
  import opened PyValues
  import Utils
  import TtFmt

  /** `s.replace(pat, rep)`: every occurrence of `pat`, left to right and not overlapping, replaced by `rep`. */
  function Replace(s: string, pat: string, rep: string): string
    requires pat != []
    decreases |s|
  {
    if |s| < |pat| then s
    else if s[..|pat|] == pat then rep + Replace(s[|pat|..], pat, rep)
    else [s[0]] + Replace(s[1..], pat, rep)
  }

  /** With no occurrence of `pat`, `replace` changes nothing: the `if sym in transformed_eq` guard is redundant. */
  lemma {:induction false} ReplaceAbsent(s: string, pat: string, rep: string)
    requires pat != [] && !Contains(s, pat)
    ensures Replace(s, pat, rep) == s
    decreases |s|
  {
    if |s| >= |pat| {
      assert !OccursAt(s, pat, 0);
      assert s[0..|pat|] == s[..|pat|];
      assert !Contains(s[1..], pat) by {
        forall i | 0 <= i <= |s[1..]| - |pat|
          ensures !OccursAt(s[1..], pat, i)
        {
          assert s[1..][i..i + |pat|] == s[i + 1..i + 1 + |pat|];
          assert !OccursAt(s, pat, i + 1);
        }
      }
      ReplaceAbsent(s[1..], pat, rep);
      assert s == [s[0]] + s[1..];
    }
  }

  /** Replacing a string by itself changes nothing (the table maps `~`, `&` and `|` to themselves). */
  lemma {:induction false} ReplaceBySelf(s: string, pat: string)
    requires pat != []
    ensures Replace(s, pat, pat) == s
    decreases |s|
  {
    if |s| >= |pat| {
      if s[..|pat|] == pat {
        ReplaceBySelf(s[|pat|..], pat);
        assert s == s[..|pat|] + s[|pat|..];
      } else {
        ReplaceBySelf(s[1..], pat);
        assert s == [s[0]] + s[1..];
      }
    }
  }

  /** A pattern with a character that `s` lacks does not occur in `s`. */
  lemma AbsentChar(s: string, pat: string, c: char)
    requires c in pat && c !in s
    ensures !Contains(s, pat)
  {
    var k :| 0 <= k < |pat| && pat[k] == c;
    forall i | 0 <= i <= |s| - |pat|
      ensures !OccursAt(s, pat, i)
    {
      assert s[i..i + |pat|][k] == s[i + k];
    }
  }

  /** `replace` copies a character that does not begin `pat`. */
  lemma ReplaceSkip(c: char, s: string, pat: string, rep: string)
    requires pat != [] && pat[0] != c
    ensures Replace([c] + s, pat, rep) == [c] + Replace(s, pat, rep)
  {
    var t := [c] + s;
    if |t| >= |pat| {
      assert t[..|pat|][0] == c;
    }
    assert t[1..] == s;
  }

  /** `replace` rewrites an occurrence of `pat` at the front. */
  lemma ReplaceHit(pat: string, rep: string, b: string)
    requires pat != []
    ensures Replace(pat + b, pat, rep) == rep + Replace(b, pat, rep)
  {
    var t := pat + b;
    assert t[..|pat|] == pat && t[|pat|..] == b;
  }

  /** `replace` copies a character at which `pat` does not begin. */
  lemma ReplaceMiss(c: char, s: string, pat: string, rep: string)
    requires pat != [] && (|s| + 1 < |pat| || ([c] + s)[..|pat|] != pat)
    ensures Replace([c] + s, pat, rep) == [c] + Replace(s, pat, rep)
  {
    assert ([c] + s)[1..] == s;
  }

  /** A prefix without the first character of `pat` is copied unchanged. */
  lemma {:induction false} ReplacePrefix(a: string, b: string, pat: string, rep: string)
    requires pat != [] && pat[0] !in a
    ensures Replace(a + b, pat, rep) == a + Replace(b, pat, rep)
    decreases |a|
  {
    if a == [] {
      assert a + b == b;
    } else {
      ReplacePrefix(a[1..], b, pat, rep);
      ReplacePrefixCons(a[0], a[1..], b, pat, rep);
      assert a == [a[0]] + a[1..];
    }
  }

  lemma ReplacePrefixCons(c: char, a: string, b: string, pat: string, rep: string)
    requires pat != [] && pat[0] != c
    requires Replace(a + b, pat, rep) == a + Replace(b, pat, rep)
    ensures Replace([c] + a + b, pat, rep) == [c] + a + Replace(b, pat, rep)
  {
    ReplaceSkip(c, a + b, pat, rep);
    assert [c] + a + b == [c] + (a + b);
  }

  /** `eq_transform_sym_dict`, in its iteration order: each schema symbol with its aliases. */
  const EqTransformSymbols: seq<(string, seq<string>)> := [("~", NotAliases), ("&", AndAliases), ("|", OrAliases)]
  const NotAliases: seq<string> := ["not", "NOT", "~", "!"]
  const AndAliases: seq<string> := ["and", "AND", "&", "&&", "/\\"]
  const OrAliases: seq<string> := ["or", "OR", "|", "||", "\\/"]

  predicate AliasesNonEmpty(aliases: seq<string>) {
    forall k :: 0 <= k < |aliases| ==> aliases[k] != []
  }

  lemma TableAliasesNonEmpty()
    ensures forall i :: 0 <= i < |EqTransformSymbols| ==> AliasesNonEmpty(EqTransformSymbols[i].1)
  {
  }

  /** Each alias in turn replaced by `sym`. */
  function RewriteAliases(s: string, aliases: seq<string>, sym: string): string
    requires AliasesNonEmpty(aliases)
  {
    if aliases == [] then s
    else Replace(RewriteAliases(s, aliases[..|aliases| - 1], sym), aliases[|aliases| - 1], sym)
  }

  /** Each group of aliases in turn rewritten to its schema symbol. */
  function RewriteGroups(s: string, groups: seq<(string, seq<string>)>): string
    requires forall i :: 0 <= i < |groups| ==> AliasesNonEmpty(groups[i].1)
  {
    if groups == [] then s
    else
      var last := groups[|groups| - 1];
      RewriteAliases(RewriteGroups(s, groups[..|groups| - 1]), last.1, last.0)
  }

  /** Every alias leaves `s` as it is. */
  predicate Untouched(s: string, aliases: seq<string>, sym: string) {
    forall a :: a in aliases ==> a != [] && Replace(s, a, sym) == s
  }

  lemma {:induction false} RewriteUntouched(s: string, aliases: seq<string>, sym: string)
    requires AliasesNonEmpty(aliases) && Untouched(s, aliases, sym)
    ensures RewriteAliases(s, aliases, sym) == s
    decreases |aliases|
  {
    if aliases != [] {
      var init := aliases[..|aliases| - 1];
      assert aliases[|aliases| - 1] in aliases;
      assert forall a :: a in init ==> a in aliases;
      RewriteUntouched(s, init, sym);
    }
  }

  lemma {:induction false} RewriteAliasesAppend(s: string, a: seq<string>, b: seq<string>, sym: string)
    requires AliasesNonEmpty(a) && AliasesNonEmpty(b)
    ensures AliasesNonEmpty(a + b)
    ensures RewriteAliases(s, a + b, sym) == RewriteAliases(RewriteAliases(s, a, sym), b, sym)
    decreases |b|
  {
    if b == [] {
      assert a + b == a;
    } else {
      var init := b[..|b| - 1];
      assert (a + b)[..|a + b| - 1] == a + init;
      RewriteAliasesAppend(s, a, init, sym);
    }
  }

  /** Only alias `j` changes anything, turning `s` into `t`. */
  lemma RewriteOneAlias(s: string, aliases: seq<string>, sym: string, j: nat, t: string)
    requires AliasesNonEmpty(aliases) && j < |aliases|
    requires Untouched(s, aliases[..j], sym)
    requires Replace(s, aliases[j], sym) == t
    requires Untouched(t, aliases[j + 1..], sym)
    ensures RewriteAliases(s, aliases, sym) == t
  {
    var before, after := aliases[..j], aliases[j + 1..];
    assert aliases == before + [aliases[j]] + after;
    RewriteAliasesAppend(s, before + [aliases[j]], after, sym);
    RewriteAliasesAppend(s, before, [aliases[j]], sym);
    RewriteUntouched(s, before, sym);
    assert [aliases[j]][..0] == [];
    RewriteUntouched(t, after, sym);
  }

  /** The three groups of the table, one after the other. */
  lemma RewriteTable(s: string)
    ensures RewriteGroups(s, EqTransformSymbols) ==
      RewriteAliases(RewriteAliases(RewriteAliases(s, NotAliases, "~"), AndAliases, "&"), OrAliases, "|")
  {
    var g := EqTransformSymbols;
    assert g[..2][..1][..0] == [] && g[..2][..1] == [g[0]] && g[..2] == [g[0], g[1]];
    assert RewriteGroups(s, g[..2][..1]) == RewriteAliases(s, NotAliases, "~");
    assert RewriteGroups(s, g[..2]) == RewriteAliases(RewriteAliases(s, NotAliases, "~"), AndAliases, "&");
  }

  /** A pattern with a character that `s` lacks leaves `s` as it is. */
  lemma Absent(s: string, pat: string, rep: string, c: char)
    requires c in pat && c !in s
    ensures pat != [] && Replace(s, pat, rep) == s
  {
    AbsentChar(s, pat, c);
    ReplaceAbsent(s, pat, rep);
  }

  /** Without `n`, `N`, `~` and `!` no NOT alias occurs. */
  lemma NoNotAliases(s: string)
    requires 'n' !in s && 'N' !in s && '~' !in s && '!' !in s
    ensures RewriteAliases(s, NotAliases, "~") == s
  {
    Absent(s, "not", "~", 'n');
    Absent(s, "NOT", "~", 'N');
    Absent(s, "~", "~", '~');
    Absent(s, "!", "~", '!');
    RewriteUntouched(s, NotAliases, "~");
  }

  /** Without `n`, `N`, `&` and `/` no AND alias occurs. */
  lemma NoAndAliases(s: string)
    requires 'n' !in s && 'N' !in s && '&' !in s && '/' !in s
    ensures RewriteAliases(s, AndAliases, "&") == s
  {
    Absent(s, "and", "&", 'n');
    Absent(s, "AND", "&", 'N');
    Absent(s, "&", "&", '&');
    Absent(s, "&&", "&", '&');
    Absent(s, "/\\", "&", '/');
    RewriteUntouched(s, AndAliases, "&");
  }

  /** Without `o`, `O`, `|` and a backslash no OR alias occurs. */
  lemma NoOrAliases(s: string)
    requires 'o' !in s && 'O' !in s && '|' !in s && '\\' !in s
    ensures RewriteAliases(s, OrAliases, "|") == s
  {
    Absent(s, "or", "|", 'o');
    Absent(s, "OR", "|", 'O');
    Absent(s, "|", "|", '|');
    Absent(s, "||", "|", '|');
    Absent(s, "\\/", "|", '\\');
    RewriteUntouched(s, OrAliases, "|");
  }

  /** `replace` of a pattern that occurs once, after a prefix without its first character. */
  lemma ReplaceOnce(a: string, pat: string, b: string, rep: string, c: char)
    requires pat != [] && pat[0] !in a && c in pat && c !in b
    ensures Replace(a + pat + b, pat, rep) == a + rep + b
  {
    assert a + pat + b == a + (pat + b);
    ReplacePrefix(a, pat + b, pat, rep);
    ReplaceHit(pat, rep, b);
    Absent(b, pat, rep, c);
  }

  /** No character of `s` occurs in any alias except as noted: `s` is plain text. */
  predicate Plain(s: string) {
    'n' !in s && 'N' !in s && '~' !in s && '!' !in s && '&' !in s && '/' !in s &&
    'o' !in s && 'O' !in s && '|' !in s && '\\' !in s
  }

  lemma PlainConcat(a: string, b: string)
    requires Plain(a) && Plain(b)
    ensures Plain(a + b)
  {
  }

  /** `a && b` becomes `a & b` wherever the `&&` stands, and nothing else changes. */
  lemma AndAndRewritten(a: string, b: string)
    requires Plain(a) && Plain(b)
    ensures RewriteGroups(a + "&&" + b, EqTransformSymbols) == a + "&" + b
  {
    RewriteTable(a + "&&" + b);
    NoNotAliases(a + "&&" + b);
    AndAndGroup(a, b);
    NoOrAliases(a + "&" + b);
  }

  lemma AndAndGroup(a: string, b: string)
    requires Plain(a) && Plain(b)
    ensures RewriteAliases(a + "&&" + b, AndAliases, "&") == a + "&" + b
  {
    AndAndBefore(a + "&&" + b);
    ReplaceOnce(a, "&&", b, "&", '&');
    AndAndAfter(a + "&" + b);
    RewriteOneAlias(a + "&&" + b, AndAliases, "&", 3, a + "&" + b);
  }

  lemma AndAndBefore(s: string)
    requires 'n' !in s && 'N' !in s
    ensures Untouched(s, AndAliases[..3], "&")
  {
    Absent(s, "and", "&", 'n');
    Absent(s, "AND", "&", 'N');
    ReplaceBySelf(s, "&");
    assert AndAliases[..3] == ["and", "AND", "&"];
  }

  lemma AndAndAfter(t: string)
    requires '/' !in t
    ensures Untouched(t, AndAliases[4..], "&")
  {
    Absent(t, "/\\", "&", '/');
    assert AndAliases[4..] == ["/\\"];
  }

  /** `a /\\ b` becomes `a & b`. */
  lemma SlashRewritten(a: string, b: string)
    requires Plain(a) && Plain(b)
    ensures RewriteGroups(a + "/\\" + b, EqTransformSymbols) == a + "&" + b
  {
    RewriteTable(a + "/\\" + b);
    NoNotAliases(a + "/\\" + b);
    SlashGroup(a, b);
    NoOrAliases(a + "&" + b);
  }

  lemma SlashGroup(a: string, b: string)
    requires Plain(a) && Plain(b)
    ensures RewriteAliases(a + "/\\" + b, AndAliases, "&") == a + "&" + b
  {
    SlashBefore(a + "/\\" + b);
    ReplaceOnce(a, "/\\", b, "&", '/');
    assert AndAliases[5..] == [];
    RewriteOneAlias(a + "/\\" + b, AndAliases, "&", 4, a + "&" + b);
  }

  lemma SlashBefore(s: string)
    requires 'n' !in s && 'N' !in s && '&' !in s
    ensures Untouched(s, AndAliases[..4], "&")
  {
    Absent(s, "and", "&", 'n');
    Absent(s, "AND", "&", 'N');
    ReplaceBySelf(s, "&");
    Absent(s, "&&", "&", '&');
    assert AndAliases[..4] == ["and", "AND", "&", "&&"];
  }

  /** `a ! b` becomes `a ~ b`. */
  lemma BangRewritten(a: string, b: string)
    requires Plain(a) && Plain(b)
    ensures RewriteGroups(a + "!" + b, EqTransformSymbols) == a + "~" + b
  {
    RewriteTable(a + "!" + b);
    BangGroup(a, b);
    NoAndAliases(a + "~" + b);
    NoOrAliases(a + "~" + b);
  }

  lemma BangGroup(a: string, b: string)
    requires Plain(a) && Plain(b)
    ensures RewriteAliases(a + "!" + b, NotAliases, "~") == a + "~" + b
  {
    BangBefore(a + "!" + b);
    ReplaceOnce(a, "!", b, "~", '!');
    assert NotAliases[4..] == [];
    RewriteOneAlias(a + "!" + b, NotAliases, "~", 3, a + "~" + b);
  }

  lemma BangBefore(s: string)
    requires 'n' !in s && 'N' !in s
    ensures Untouched(s, NotAliases[..3], "~")
  {
    Absent(s, "not", "~", 'n');
    Absent(s, "NOT", "~", 'N');
    ReplaceBySelf(s, "~");
    assert NotAliases[..3] == ["not", "NOT", "~"];
  }

  /** `a OR b` becomes `a | b`. */
  lemma OrRewritten(a: string, b: string)
    requires Plain(a) && Plain(b)
    ensures RewriteGroups(a + "OR" + b, EqTransformSymbols) == a + "|" + b
  {
    RewriteTable(a + "OR" + b);
    NoNotAliases(a + "OR" + b);
    NoAndAliases(a + "OR" + b);
    OrGroup(a, b);
  }

  lemma OrGroup(a: string, b: string)
    requires Plain(a) && Plain(b)
    ensures RewriteAliases(a + "OR" + b, OrAliases, "|") == a + "|" + b
  {
    Absent(a + "OR" + b, "or", "|", 'o');
    assert OrAliases[..1] == ["or"];
    ReplaceOnce(a, "OR", b, "|", 'O');
    OrAfter(a, b);
    RewriteOneAlias(a + "OR" + b, OrAliases, "|", 1, a + "|" + b);
  }

  lemma OrAfter(a: string, b: string)
    requires Plain(a) && Plain(b)
    ensures Untouched(a + "|" + b, OrAliases[2..], "|")
  {
    var t := a + "|" + b;
    ReplaceBySelf(t, "|");
    NoDoubleBar(a, b);
    Absent(t, "\\/", "|", '\\');
    assert OrAliases[2..] == ["|", "||", "\\/"];
  }

  /** A single `|` between plain texts is no `||`. */
  lemma NoDoubleBar(a: string, b: string)
    requires Plain(a) && Plain(b)
    ensures Replace(a + "|" + b, "||", "|") == a + "|" + b
  {
    assert a + "|" + b == a + (['|'] + b);
    ReplacePrefix(a, ['|'] + b, "||", "|");
    if |b| + 1 >= 2 {
      assert (['|'] + b)[..2][1] == b[0];
    }
    ReplaceMiss('|', b, "||", "|");
    Absent(b, "||", "|", '|');
  }

  /** Dropping the whitespace around a one-character schema symbol. */
  lemma WithoutSpacesAround(a: string, c: char, b: string)
    requires !IsSpace(c)
    ensures Utils.WithoutSpaces(a + [c] + b) == Utils.NonSpace(a) + [c] + Utils.NonSpace(b)
  {
    calc {
      Utils.WithoutSpaces(a + [c] + b);
      Utils.NonSpace(a + [c] + b);
      { Utils.NonSpaceConcat(a + [c], b); }
      Utils.NonSpace(a + [c]) + Utils.NonSpace(b);
      { Utils.NonSpaceConcat(a, [c]); NonSpaceOne(c); }
      Utils.NonSpace(a) + [c] + Utils.NonSpace(b);
    }
  }

  lemma NonSpaceOne(c: char)
    requires !IsSpace(c)
    ensures Utils.NonSpace([c]) == [c]
  {
    assert [c][1..] == [];
  }

  /**
   * The forms of the tests, around any plain text `a` and `b`: `&&` and
   * `/\\` become `&`, `!` becomes `~` and `OR` becomes `|`, and then the
   * whitespace goes (`F = A && B` is `a && b` with `a == "F = A "`).
   * Nothing requires the alias to stand apart: `F = CORD` is `a OR b`
   * with `a == "F = C"`.
   */
  lemma TestForms(a: string, b: string)
    requires Plain(a) && Plain(b)
    ensures Utils.WithoutSpaces(RewriteGroups(a + "&&" + b, EqTransformSymbols)) == Utils.NonSpace(a) + "&" + Utils.NonSpace(b)
    ensures Utils.WithoutSpaces(RewriteGroups(a + "/\\" + b, EqTransformSymbols)) == Utils.NonSpace(a) + "&" + Utils.NonSpace(b)
    ensures Utils.WithoutSpaces(RewriteGroups(a + "!" + b, EqTransformSymbols)) == Utils.NonSpace(a) + "~" + Utils.NonSpace(b)
    ensures Utils.WithoutSpaces(RewriteGroups(a + "OR" + b, EqTransformSymbols)) == Utils.NonSpace(a) + "|" + Utils.NonSpace(b)
  {
    AndAndRewritten(a, b);
    SlashRewritten(a, b);
    BangRewritten(a, b);
    OrRewritten(a, b);
    WithoutSpacesAround(a, '&', b);
    WithoutSpacesAround(a, '~', b);
    WithoutSpacesAround(a, '|', b);
    assert a + "&" + b == a + ['&'] + b && a + "~" + b == a + ['~'] + b && a + "|" + b == a + ['|'] + b;
  }

  /**
   * `transform_eq_to_generic_schema(raw_eq)`: the NOT aliases, then the AND
   * aliases, then the OR aliases, each in listed order, replaced by the
   * schema symbol, and then all whitespace removed.
   */
  method TransformEqToGenericSchema(rawEq: string) returns (r: string)
    ensures r == Utils.WithoutSpaces(RewriteGroups(rawEq, EqTransformSymbols))
    ensures forall c :: c in r ==> !IsSpace(c)
  {
    TableAliasesNonEmpty();
    var transformed := rawEq;
    var i := 0;
    while i < |EqTransformSymbols|
      invariant 0 <= i <= |EqTransformSymbols|
      invariant transformed == RewriteGroups(rawEq, EqTransformSymbols[..i])
    {
      var sym := EqTransformSymbols[i].0;
      var aliases := EqTransformSymbols[i].1;
      ghost var before := transformed;
      var j := 0;
      while j < |aliases|
        invariant 0 <= j <= |aliases|
        invariant transformed == RewriteAliases(before, aliases[..j], sym)
      {
        assert aliases[..j + 1][..j] == aliases[..j];
        if Contains(transformed, aliases[j]) {
          transformed := Replace(transformed, aliases[j], sym);
        } else {
          ReplaceAbsent(transformed, aliases[j], sym);
        }
        j := j + 1;
      }
      assert aliases[..j] == aliases;
      assert EqTransformSymbols[..i + 1][..i] == EqTransformSymbols[..i];
      i := i + 1;
    }
    assert EqTransformSymbols[..i] == EqTransformSymbols;
    r := Utils.WithoutSpaces(transformed);
    Utils.NonSpaceHasNoSpace(transformed);
  }

  /**
   * `extract_eq_symbols(eq)`: the same comprehension as `get_vars`, so each
   * symbol is one upper-case alphanumeric character.
   */
  function ExtractEqSymbols(eq: string): (symbols: seq<string>)
    ensures symbols == TtFmt.GetVars(eq)
    ensures forall k :: 0 <= k < |symbols| ==> |symbols[k]| == 1 && IsUpperAlnum(symbols[k][0])
  {
    TtFmt.GetVarsAreVariables(eq);
    TtFmt.GetVars(eq)
  }
}
