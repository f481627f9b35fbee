/**
 * Text cleanup applied to the raw form fields before they are parsed
 * (calculator.py lines 14-20). Python's `str.replace(x, "")` deletes every
 * occurrence of `x`; `str.replace(",", ".")` rewrites every comma.
 */
module Cleanup {

  /** `s.replace([c], "")`: every occurrence of `c` removed, everything else kept. */
  function Delete(s: string, c: char): (r: string)
    ensures c !in r
    ensures |r| <= |s|
    ensures c !in s ==> r == s
  {
    if s == [] then [] else (if s[0] == c then [] else [s[0]]) + Delete(s[1..], c)
  }

  /** Deleting never introduces a character. */
  lemma {:induction false} DeleteKeepsAbsent(s: string, c: char, x: char)
    requires x !in s
    ensures x !in Delete(s, c)
  {
    if s != [] {
      DeleteKeepsAbsent(s[1..], c, x);
    }
  }

  /** Deleting `c` keeps the number of occurrences of every other character. */
  lemma {:induction false} DeleteCounts(s: string, c: char, x: char)
    requires x != c
    ensures multiset(Delete(s, c))[x] == multiset(s)[x]
  {
    if s != [] {
      assert s == [s[0]] + s[1..];
      DeleteCounts(s[1..], c, x);
    }
  }

  /** `s.replace([from], [to])`: every `from` rewritten to `to`, position by position. */
  function Substitute(s: string, from: char, to: char): (r: string)
    ensures |r| == |s|
    ensures forall i :: 0 <= i < |s| ==> r[i] == if s[i] == from then to else s[i]
  {
    if s == [] then [] else [if s[0] == from then to else s[0]] + Substitute(s[1..], from, to)
  }

  /** True of the two characters the money fields drop: the space and the comma. */
  predicate IsSeparator(c: char) {
    c == ' ' || c == ','
  }

  /**
   * Cleanup of investment, revenue_year1, fixed_costs, variable_costs and
   * avg_salary: spaces deleted, then commas deleted. A decimal comma is
   * deleted too, so "12,5" reads as 125.
   */
  function CleanMoney(s: string): (r: string)
    ensures ' ' !in r && ',' !in r
  {
    DeleteKeepsAbsent(Delete(s, ' '), ',', ' ');
    Delete(Delete(s, ' '), ',')
  }

  /** Every character other than a separator occurs as often after the cleanup as before. */
  lemma CleanMoneyCounts(s: string, x: char)
    requires !IsSeparator(x)
    ensures multiset(CleanMoney(s))[x] == multiset(s)[x]
  {
    DeleteCounts(s, ' ', x);
    DeleteCounts(Delete(s, ' '), ',', x);
  }

  /** Cleanup of growth: a decimal comma becomes a period; spaces stay. */
  function CleanGrowth(s: string): (r: string)
    ensures |r| == |s|
    ensures forall i :: 0 <= i < |s| ==> r[i] == if s[i] == ',' then '.' else s[i]
  {
    Substitute(s, ',', '.')
  }

  /** Deleting distributes over concatenation: the kept characters stay in order. */
  lemma {:induction false} DeleteConcat(a: string, b: string, c: char)
    ensures Delete(a + b, c) == Delete(a, c) + Delete(b, c)
  {
    if a == [] {
      assert a + b == b;
    } else {
      assert (a + b)[0] == a[0];
      assert (a + b)[1..] == a[1..] + b;
      DeleteConcat(a[1..], b, c);
    }
  }

  /**
   * The money cleanup keeps every non-separator character in its original
   * order: it works character by character and commutes with concatenation.
   */
  lemma CleanMoneyConcat(a: string, b: string)
    ensures CleanMoney(a + b) == CleanMoney(a) + CleanMoney(b)
  {
    DeleteConcat(a, b, ' ');
    DeleteConcat(Delete(a, ' '), Delete(b, ' '), ',');
  }

  lemma CleanMoneyChar(c: char)
    ensures CleanMoney([c]) == if IsSeparator(c) then [] else [c]
  {
  }

  /** Cleaning an already clean money field changes nothing. */
  lemma CleanMoneyIdempotent(s: string)
    ensures CleanMoney(CleanMoney(s)) == CleanMoney(s)
  {
    var r := CleanMoney(s);
    assert ' ' !in r && ',' !in r;
  }

  /** Deleting commas from "12,5", one character at a time. */
  lemma CommaDeletedExample()
    ensures Delete("12,5", ',') == "125"
  {
  }

  /** The decimal-comma quirk: as a money field "12,5" reads as 125, not 12.5. */
  lemma DecimalCommaQuirk()
    ensures CleanMoney("12,5") == "125"
  {
    assert Delete("12,5", ' ') == "12,5" by {
      assert ' ' !in "12,5";
    }
    CommaDeletedExample();
  }

  /** As growth, "12,5" reads as 12.5. */
  lemma GrowthDecimalComma()
    ensures CleanGrowth("12,5") == "12.5"
  {
  }
}
