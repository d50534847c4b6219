/**
 * debug_csv.py: the header diagnosis run against a raw export. The column
 * names are cleaned exactly as the upload route cleans them, indexed by
 * their lower-case form, and the index is asked for `customerid`; only when
 * that key is absent does the script look for it as a substring. Reading the
 * file is an input: the raw header names, or `None` when reading raises.
 */
module DebugCsv {
  import opened Wrappers
  import opened Text
  import opened ColumnNames
  import Ingestion

  /**
   * `clean_col`: the same strips and substitution as `ultra_clean`, so the
   * result is empty or bordered by ASCII letters and digits and cleaning it
   * again changes nothing.
   */
  function CleanCol(c: string): (r: string)
    ensures r == UltraClean(c)
    ensures r == "" || (IsAsciiAlnum(r[0]) && IsAsciiAlnum(r[|r| - 1]))
    ensures UltraClean(r) == r
  {
    UltraCleanBordered(c);
    UltraCleanIdempotent(c);
    UltraClean(c)
  }

  lemma UltraCleanBordered(c: string)
    ensures UltraClean(c) == "" || (IsAsciiAlnum(UltraClean(c)[0]) && IsAsciiAlnum(UltraClean(c)[|UltraClean(c)| - 1]))
  {
    var i, j := UltraCleanShape(c);
  }

  /** `[clean_col(col) for col in df.columns]`. */
  function CleanAll(cols: seq<string>): (r: seq<string>)
    ensures |r| == |cols|
  {
    seq(|cols|, k requires 0 <= k < |cols| => CleanCol(cols[k]))
  }

  /** `any('customerid' in c.lower() for c in cleaned_cols)`. */
  predicate AnyContainsId(cols: seq<string>)
  {
    exists k :: 0 <= k < |cols| && Contains(Lower(cols[k]), "customerid")
  }

  /** Which of the script's three messages is logged about `customerid`, or that reading failed. */
  datatype Diagnosis = Found | SubstringOnly | NotFound | ReadFailed

  /** The cleaned names, the lower-case index and the verdict on `customerid`. */
  datatype Report = Report(cleaned: seq<string>, index: map<string, string>, verdict: Diagnosis)

  /** The script after reading the header, or its `except` branch. */
  function Diagnose(header: Option<seq<string>>): (r: Report)
    ensures header.None? <==> r.verdict == ReadFailed
  {
    match header
    case None => Report([], map[], ReadFailed)
    case Some(raw) =>
      var cleaned := CleanAll(raw);
      var index := LowerMap(cleaned);
      var verdict :=
        if "customerid" in index then Found
        else if AnyContainsId(cleaned) then SubstringOnly
        else NotFound;
      Report(cleaned, index, verdict)
  }

  /**
   * The index has one key per lower-cased cleaned name, and each key maps to
   * the last cleaned name with that lower-case form.
   */
  lemma DiagnoseIndex(raw: seq<string>, key: string)
    ensures var r := Diagnose(Some(raw));
      key in r.index <==> exists k :: 0 <= k < |raw| && Lower(r.cleaned[k]) == key
    ensures var r := Diagnose(Some(raw));
      key in r.index ==> exists k :: LastWithLower(r.cleaned, key, k) && r.index[key] == r.cleaned[k]
  {
    var r := Diagnose(Some(raw));
    if key in r.index {
      var k :| LastWithLower(r.cleaned, key, k) && r.index[key] == r.cleaned[k];
    }
  }

  /**
   * "Found" means some cleaned name lower-cases to exactly `customerid`, the
   * same test the upload route uses before renaming that column to
   * `customerID`; the substring search runs only when that test fails.
   */
  lemma DiagnoseVerdict(raw: seq<string>)
    ensures var r := Diagnose(Some(raw));
      r.verdict == Found <==> "customerid" in Ingestion.LowerAll(r.cleaned)
    ensures var r := Diagnose(Some(raw));
      r.verdict == SubstringOnly <==> "customerid" !in Ingestion.LowerAll(r.cleaned) && AnyContainsId(r.cleaned)
    ensures var r := Diagnose(Some(raw));
      r.verdict == NotFound <==> "customerid" !in Ingestion.LowerAll(r.cleaned) && !AnyContainsId(r.cleaned)
  {
    var r := Diagnose(Some(raw));
    DiagnoseIndex(raw, "customerid");
    if "customerid" in Ingestion.LowerAll(r.cleaned) {
      var k :| 0 <= k < |r.cleaned| && Ingestion.LowerAll(r.cleaned)[k] == "customerid";
      assert Lower(r.cleaned[k]) == "customerid";
    }
  }

  /** An exact match is also a substring match, so the substring search would have succeeded too. */
  lemma FoundImpliesSubstring(raw: seq<string>)
    requires Diagnose(Some(raw)).verdict == Found
    ensures AnyContainsId(Diagnose(Some(raw)).cleaned)
  {
    var r := Diagnose(Some(raw));
    DiagnoseIndex(raw, "customerid");
    var k :| 0 <= k < |raw| && Lower(r.cleaned[k]) == "customerid";
    ContainsSelf(Lower(r.cleaned[k]));
  }

  lemma ContainsSelf(s: string)
    ensures Contains(s, s)
  {
    assert s[..|s|] == s;
  }

  /** A name that already begins and ends with an ASCII letter or digit is not changed by `clean_col`. */
  lemma CleanColKeepsBordered(c: string)
    requires c == "" || (IsAsciiAlnum(c[0]) && IsAsciiAlnum(c[|c| - 1]))
    ensures CleanCol(c) == c
  {
    UltraCleanKeepsBordered(c);
  }
}
