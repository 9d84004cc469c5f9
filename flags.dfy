/**
 * The string-typed boolean inputs `stable` and `check-latest`: the raw input,
 * or a default when it is empty, is upper-cased and compared with "TRUE".
 * Both flags go through the one conversion, FlagValue.
 */
module Flags {

  /** Upper-cases an ASCII lower-case letter; every other character is kept. */
  function UpperChar(c: char): char {
    if 'a' <= c <= 'z' then (c as int - 32) as char else c
  }

  /** The upper-cased string: same length, every position upper-cased. */
  function ToUpper(s: string): (r: string)
    ensures |r| == |s|
    ensures forall i :: 0 <= i < |s| ==> r[i] == UpperChar(s[i])
  {
    if s == [] then [] else [UpperChar(s[0])] + ToUpper(s[1..])
  }

  /** The sixteen spellings of "true" that differ only in letter case. */
  predicate IsTrueSpelling(s: string) {
    |s| == 4 && s[0] in "tT" && s[1] in "rR" && s[2] in "uU" && s[3] in "eE"
  }

  /** Comparing the upper-cased input with "TRUE" accepts exactly the spellings of "true". */
  lemma UpperIsTrueExactly(s: string)
    ensures ToUpper(s) == "TRUE" <==> IsTrueSpelling(s)
  {
    var u := ToUpper(s);
    if u == "TRUE" {
      assert u[0] == 'T' && u[1] == 'R' && u[2] == 'U' && u[3] == 'E';
      assert UpperChar(s[0]) == 'T' && UpperChar(s[1]) == 'R';
      assert UpperChar(s[2]) == 'U' && UpperChar(s[3]) == 'E';
    }
    if IsTrueSpelling(s) {
      assert u[0] == 'T' && u[1] == 'R' && u[2] == 'U' && u[3] == 'E';
      assert u == "TRUE";
    }
  }

  /** The shared conversion: the input, or `default` when it is empty, compared case-insensitively with "true". */
  function FlagValue(raw: string, default: string): (b: bool)
    ensures raw != "" ==> (b <==> IsTrueSpelling(raw))
    ensures raw == "" ==> (b <==> IsTrueSpelling(default))
  {
    var value := if raw == "" then default else raw;
    UpperIsTrueExactly(value);
    ToUpper(value) == "TRUE"
  }

  /** `stable` is true when empty and otherwise only for a spelling of "true" ("yes" gives false). */
  function ParseStable(raw: string): (b: bool)
    ensures b <==> raw == "" || IsTrueSpelling(raw)
  {
    FlagValue(raw, "true")
  }

  /** `check-latest` is true only for a spelling of "true"; empty gives false. */
  function ParseCheckLatest(raw: string): (b: bool)
    ensures b <==> IsTrueSpelling(raw)
  {
    FlagValue(raw, "false")
  }
}
