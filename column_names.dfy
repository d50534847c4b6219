/**
 * Column-name sanitising of uploaded tables (`ultra_clean` in app.py,
 * `clean_col` in debug_csv.py) and the lower-cased name index
 * `{c.lower(): c for c in cols}` built from the cleaned names.
 */
module ColumnNames {
  import opened Text

  /** The characters Python's `str.strip()` removes (`str.isspace`). */
  predicate IsPyWhitespace(c: char)
  {
    || ('\t' <= c <= '\r') || ('\U{1c}' <= c <= ' ') || c == '\U{85}' || c == '\U{a0}'
    || c == '\U{1680}' || ('\U{2000}' <= c <= '\U{200a}') || c == '\U{2028}' || c == '\U{2029}'
    || c == '\U{202f}' || c == '\U{205f}' || c == '\U{3000}'
  }

  predicate IsDoubleQuote(c: char) { c == '"' }

  predicate IsSingleQuote(c: char) { c == '\'' }

  /** The class `[^a-zA-Z0-9]`. */
  predicate NotAlnum(c: char) { !IsAsciiAlnum(c) }

  /**
   * `ultra_clean`: `str(c).strip().strip('"').strip("'")`, then
   * `re.sub(r'^[^a-zA-Z0-9]+|[^a-zA-Z0-9]+$', '', c)`. Without MULTILINE the
   * two alternatives match exactly the leading and the trailing run of
   * non-alphanumerics, so the substitution is a strip of that class.
   */
  function UltraClean(c: string): string
  {
    var trimmed := Strip(Strip(Strip(c, IsPyWhitespace), IsDoubleQuote), IsSingleQuote);
    Strip(trimmed, NotAlnum)
  }

  /** The quote and whitespace strips are subsumed by the final non-alphanumeric strip. */
  lemma UltraCleanIsTrim(c: string)
    ensures UltraClean(c) == Strip(c, NotAlnum)
  {
    var a := Strip(c, IsPyWhitespace);
    var b := Strip(a, IsDoubleQuote);
    StripCompose(b, IsSingleQuote, NotAlnum);
    StripCompose(a, IsDoubleQuote, NotAlnum);
    StripCompose(c, IsPyWhitespace, NotAlnum);
  }

  /**
   * The cleaned name is a contiguous substring of the input; what was cut off
   * on either side is non-alphanumeric, and the result is empty or begins and
   * ends with an ASCII letter or digit.
   */
  lemma UltraCleanShape(c: string) returns (i: nat, j: nat)
    ensures i <= j <= |c| && UltraClean(c) == c[i..j]
    ensures forall k :: 0 <= k < i ==> !IsAsciiAlnum(c[k])
    ensures forall k :: j <= k < |c| ==> !IsAsciiAlnum(c[k])
    ensures UltraClean(c) == "" || (IsAsciiAlnum(c[i]) && IsAsciiAlnum(c[j - 1]))
  {
    UltraCleanIsTrim(c);
    i, j := StripSpec(c, NotAlnum);
  }

  /** Cleaning twice is cleaning once. */
  lemma UltraCleanIdempotent(c: string)
    ensures UltraClean(UltraClean(c)) == UltraClean(c)
  {
    UltraCleanIsTrim(c);
    UltraCleanIsTrim(UltraClean(c));
    StripCompose(c, NotAlnum, NotAlnum);
  }

  /** A name already bordered by ASCII alphanumerics is left unchanged. */
  lemma UltraCleanKeepsBordered(c: string)
    requires c == "" || (IsAsciiAlnum(c[0]) && IsAsciiAlnum(c[|c| - 1]))
    ensures UltraClean(c) == c
  {
    UltraCleanIsTrim(c);
    StripUnique(c, NotAlnum, 0, |c|);
  }

  /** `k` is the last position whose name lower-cases to `key`. */
  ghost predicate LastWithLower(cols: seq<string>, key: string, k: int)
  {
    0 <= k < |cols| && Lower(cols[k]) == key && forall j :: k < j < |cols| ==> Lower(cols[j]) != key
  }

  /**
   * `{c.lower(): c for c in cols}`: one key per lower-cased name, mapped to the
   * last name with that lower-case form (later entries overwrite earlier ones).
   */
  function LowerMap(cols: seq<string>): (m: map<string, string>)
    ensures forall k :: 0 <= k < |cols| ==> Lower(cols[k]) in m
    ensures forall key :: key in m ==> exists k :: LastWithLower(cols, key, k) && m[key] == cols[k]
    decreases |cols|
  {
    if cols == [] then map[]
    else
      var n := |cols| - 1;
      var m := LowerMap(cols[..n]);
      var m' := m[Lower(cols[n]) := cols[n]];
      LowerMapStep(cols, m, m');
      m'
  }

  lemma LowerMapStep(cols: seq<string>, m: map<string, string>, m': map<string, string>)
    requires |cols| > 0 && m' == m[Lower(cols[|cols| - 1]) := cols[|cols| - 1]]
    requires forall k :: 0 <= k < |cols| - 1 ==> Lower(cols[k]) in m
    requires forall key :: key in m ==> exists k :: LastWithLower(cols[..|cols| - 1], key, k) && m[key] == cols[k]
    ensures forall k :: 0 <= k < |cols| ==> Lower(cols[k]) in m'
    ensures forall key :: key in m' ==> exists k :: LastWithLower(cols, key, k) && m'[key] == cols[k]
  {
    var n := |cols| - 1;
    forall key | key in m'
      ensures exists k :: LastWithLower(cols, key, k) && m'[key] == cols[k]
    {
      if key == Lower(cols[n]) {
        assert LastWithLower(cols, key, n);
      } else {
        var k :| LastWithLower(cols[..n], key, k) && m[key] == cols[k];
        assert LastWithLower(cols, key, k);
      }
    }
  }
}
