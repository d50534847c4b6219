/**
 * Reading and canonicalising an uploaded table in `predict_churn` (app.py):
 * the first-success encoding loop, the case-insensitive required-column
 * check that names every missing column, and the two renames that give the
 * columns their declared casing.
 */
module Ingestion {
  import opened Wrappers
  import opened Text
  import opened Frames
  import opened ColumnNames

  /** The encodings tried, in order. */
  const Encodings: seq<string> := ["utf-8-sig", "latin-1", "cp1252"]

  /** What one `pd.read_csv` call yields: the text of the exception it raised, or a table. */
  datatype ReadOutcome = ReadFailed(error: string) | ReadOk(table: Frame)

  /** A successful read that found more than one column. */
  predicate Wide(o: ReadOutcome)
  {
    o.ReadOk? && |o.table.columns| > 1
  }

  /** The outcome of reading the upload with each encoding. */
  function Attempts(read: string -> ReadOutcome): (outs: seq<ReadOutcome>)
    ensures |outs| == |Encodings|
  {
    seq(|Encodings|, i requires 0 <= i < |Encodings| => read(Encodings[i]))
  }

  /** The position of the first wide read, if any. */
  function FirstWide(outs: seq<ReadOutcome>): (r: Option<nat>)
    ensures r.Some? ==> r.value < |outs| && Wide(outs[r.value])
    ensures r.Some? ==> forall k :: 0 <= k < r.value ==> !Wide(outs[k])
    ensures r.None? ==> forall k :: 0 <= k < |outs| ==> !Wide(outs[k])
  {
    if outs == [] then None
    else if Wide(outs[0]) then Some(0)
    else match FirstWide(outs[1..])
      case None => None
      case Some(k) => Some(k + 1)
  }

  /** The table of the last successful read, if any. */
  function LastOk(outs: seq<ReadOutcome>): (r: Option<Frame>)
    ensures r.None? <==> forall k :: 0 <= k < |outs| ==> outs[k].ReadFailed?
  {
    if outs == [] then None
    else if outs[|outs| - 1].ReadOk? then Some(outs[|outs| - 1].table)
    else
      var r := LastOk(outs[..|outs| - 1]);
      assert forall k :: 0 <= k < |outs| - 1 ==> outs[..|outs| - 1][k] == outs[k];
      r
  }

  /**
   * The table the loop keeps: the first read with more than one column or,
   * when there is none, the last read that succeeded.
   */
  function Chosen(outs: seq<ReadOutcome>): Option<Frame>
  {
    match FirstWide(outs)
    case Some(k) => Some(outs[k].table)
    case None => LastOk(outs)
  }

  /** Nothing is kept exactly when every attempt raised. */
  lemma ChosenNoneIffAllFailed(outs: seq<ReadOutcome>)
    ensures Chosen(outs).None? <==> forall k :: 0 <= k < |outs| ==> outs[k].ReadFailed?
  {
    match FirstWide(outs)
    case Some(k) =>
      assert !outs[k].ReadFailed?;
    case None =>
  }

  /**
   * The encoding loop: each attempt that does not raise replaces `df`, and
   * the first one with more than one column ends the loop.
   */
  method SelectEncoding(read: string -> ReadOutcome) returns (df: Option<Frame>)
    ensures df == Chosen(Attempts(read))
  {
    ghost var outs := Attempts(read);
    df := None;
    var i := 0;
    while i < |Encodings|
      invariant 0 <= i <= |Encodings|
      invariant forall k :: 0 <= k < i ==> !Wide(outs[k])
      invariant df == LastOk(outs[..i])
    {
      var o := read(Encodings[i]);
      assert o == outs[i];
      assert outs[..i + 1][..i] == outs[..i];
      if o.ReadOk? {
        df := Some(o.table);
        if |o.table.columns| > 1 {
          FirstWideAt(outs, i);
          return;
        }
      }
      i := i + 1;
    }
    assert outs[..i] == outs;
  }

  /** A wide read preceded only by narrow or failed reads is the one found first. */
  lemma {:induction false} FirstWideAt(outs: seq<ReadOutcome>, i: nat)
    requires i < |outs| && Wide(outs[i])
    requires forall k :: 0 <= k < i ==> !Wide(outs[k])
    ensures FirstWide(outs) == Some(i)
  {
    if i > 0 {
      FirstWideAt(outs[1..], i - 1);
    }
  }

  /** The result of the plain `pd.read_csv(contents)` fallback. */
  function FallbackResult(fallback: ReadOutcome): Result<Frame, string>
  {
    match fallback
    case ReadFailed(e) => Failure(e)
    case ReadOk(t) => Success(t)
  }

  /**
   * The table `predict_churn` goes on with: the one the loop kept, or the
   * fallback read when every encoding raised.
   */
  method ReadUpload(read: string -> ReadOutcome, fallback: ReadOutcome) returns (r: Result<Frame, string>)
    ensures (forall k :: 0 <= k < |Encodings| ==> Attempts(read)[k].ReadFailed?) ==> r == FallbackResult(fallback)
    ensures (exists k :: 0 <= k < |Encodings| && Attempts(read)[k].ReadOk?) ==> r == Success(Chosen(Attempts(read)).value)
  {
    var df := SelectEncoding(read);
    ChosenNoneIffAllFailed(Attempts(read));
    if df.None? {
      r := FallbackResult(fallback);
    } else {
      r := Success(df.value);
    }
  }

  /** The columns every upload must have, in declared order. */
  const RequiredColumns: seq<string> := [
    "gender", "SeniorCitizen", "Partner", "Dependents",
    "tenure", "PhoneService", "MultipleLines", "InternetService",
    "OnlineSecurity", "OnlineBackup", "DeviceProtection", "TechSupport",
    "StreamingTV", "StreamingMovies", "Contract", "PaperlessBilling",
    "PaymentMethod", "MonthlyCharges", "TotalCharges"
  ]

  function LowerAll(cols: seq<string>): (r: seq<string>)
    ensures |r| == |cols| && forall k :: 0 <= k < |cols| ==> r[k] == Lower(cols[k])
  {
    seq(|cols|, k requires 0 <= k < |cols| => Lower(cols[k]))
  }

  /** `a` is `b` with some elements removed, the rest kept in order. */
  ghost predicate Subsequence(a: seq<string>, b: seq<string>)
  {
    a == [] || (b != [] && ((a[0] == b[0] && Subsequence(a[1..], b[1..])) || Subsequence(a, b[1..])))
  }

  /** The required names with no case-insensitive match among `lowered`, in declared order. */
  function MissingColumns(required: seq<string>, lowered: seq<string>): (missing: seq<string>)
    ensures forall c :: c in missing <==> c in required && Lower(c) !in lowered
    ensures Subsequence(missing, required)
  {
    if required == [] then []
    else
      var rest := MissingColumns(required[1..], lowered);
      assert forall c :: c in required <==> c == required[0] || c in required[1..];
      if Lower(required[0]) in lowered then
        rest
      else
        assert ([required[0]] + rest)[1..] == rest;
        [required[0]] + rest
  }

  function MissingMessage(missing: seq<string>): string
  {
    "Columns Missing: " + Join(missing, ", ")
  }

  /** The error text names every missing column. */
  lemma MissingMessageNamesAll(missing: seq<string>, k: nat)
    requires k < |missing|
    ensures Contains(MissingMessage(missing), missing[k])
  {
    JoinContainsParts(missing, ", ", k);
    ContainsAppendLeft("Columns Missing: ", Join(missing, ", "), missing[k]);
  }

  /** `df.rename(columns=m)`: every column named by a key of `m` takes the mapped name. */
  function Rename(cols: seq<string>, m: map<string, string>): seq<string>
  {
    seq(|cols|, k requires 0 <= k < |cols| => if cols[k] in m then m[cols[k]] else cols[k])
  }

  /** `{col_map['customerid']: 'customerID'}` when some column lower-cases to `customerid`. */
  function CustomerIdMap(colMap: map<string, string>): map<string, string>
  {
    if "customerid" in colMap then map[colMap["customerid"] := "customerID"] else map[]
  }

  /** The dictionary built from `(keys[i], values[i])` pairs in order; a later pair overwrites an earlier one. */
  function MapOfPairs(keys: seq<string>, values: seq<string>): map<string, string>
    requires |keys| == |values|
  {
    if keys == [] then map[]
    else
      var n := |keys| - 1;
      MapOfPairs(keys[..n], values[..n])[keys[n] := values[n]]
  }

  lemma {:induction false} MapOfPairsSpec(keys: seq<string>, values: seq<string>)
    requires |keys| == |values|
    requires forall i, j :: 0 <= i < j < |keys| ==> keys[i] != keys[j]
    ensures forall x :: x in MapOfPairs(keys, values) <==> x in keys
    ensures forall i :: 0 <= i < |keys| ==> MapOfPairs(keys, values)[keys[i]] == values[i]
  {
    if keys != [] {
      var n := |keys| - 1;
      MapOfPairsSpec(keys[..n], values[..n]);
      assert forall x :: x in keys <==> x in keys[..n] || x == keys[n];
    }
  }

  /** The keys `col_map[req.lower()]` of the rename map, one per required name. */
  function RequiredKeys(reqs: seq<string>, colMap: map<string, string>): (keys: seq<string>)
    requires forall i :: 0 <= i < |reqs| ==> Lower(reqs[i]) in colMap
    ensures |keys| == |reqs|
  {
    seq(|reqs|, i requires 0 <= i < |reqs| => colMap[Lower(reqs[i])])
  }

  /** `{col_map[req.lower()]: req for req in reqs}`. */
  function RequiredMap(reqs: seq<string>, colMap: map<string, string>): map<string, string>
    requires forall i :: 0 <= i < |reqs| ==> Lower(reqs[i]) in colMap
  {
    MapOfPairs(RequiredKeys(reqs, colMap), reqs)
  }

  /** No element of `reqs` is missing from `found`, case-insensitively. */
  predicate NoneMissing(reqs: seq<string>, found: seq<string>)
  {
    MissingColumns(reqs, LowerAll(found)) == []
  }

  /** The column names after `rename(customerid)` and `rename(rename_map)`, once no name of `reqs` is missing. */
  function CanonicalNames(reqs: seq<string>, found: seq<string>): (names: seq<string>)
    requires NoneMissing(reqs, found)
    ensures |names| == |found|
  {
    var colMap := LowerMap(found);
    RequiredPresent(reqs, found);
    Rename(Rename(found, CustomerIdMap(colMap)), RequiredMap(reqs, colMap))
  }

  /**
   * The cleaned column names of an upload after the required-column check
   * and the two renames, or the 400 detail naming the missing columns.
   */
  function Canonicalize(found: seq<string>): Result<seq<string>, string>
  {
    var missing := MissingColumns(RequiredColumns, LowerAll(found));
    if missing != [] then Failure(MissingMessage(missing)) else Success(CanonicalNames(RequiredColumns, found))
  }

  lemma RequiredPresent(reqs: seq<string>, found: seq<string>)
    requires NoneMissing(reqs, found)
    ensures forall i :: 0 <= i < |reqs| ==> Lower(reqs[i]) in LowerMap(found)
  {
    forall i | 0 <= i < |reqs|
      ensures Lower(reqs[i]) in LowerMap(found)
    {
      assert reqs[i] in reqs;
      var k :| 0 <= k < |found| && LowerAll(found)[k] == Lower(reqs[i]);
    }
  }

  /** Length and first character of a name: enough to tell the lower-cased required names apart. */
  function Signature(s: string): int
  {
    if s == [] then 0 else |s| * 128 + s[0] as int
  }

  /** The position in `RequiredColumns` of the name with a given lower-cased signature. */
  function SignaturePosition(k: int): int
  {
    if k == 871 then 0
    else if k == 1779 then 1
    else if k == 1008 then 2
    else if k == 1380 then 3
    else if k == 884 then 4
    else if k == 1648 then 5
    else if k == 1773 then 6
    else if k == 2025 then 7
    else if k == 1903 then 8
    else if k == 1647 then 9
    else if k == 2148 then 10
    else if k == 1524 then 11
    else if k == 1523 then 12
    else if k == 2035 then 13
    else if k == 1123 then 14
    else if k == 2160 then 15
    else if k == 1776 then 16
    else if k == 1901 then 17
    else if k == 1652 then 18
    else -1
  }

  /** No two required names differ only in case, and none lower-cases to `customerid`. */
  lemma RequiredLowerDistinct()
    ensures CaseDistinct(RequiredColumns)
  {
    forall i | 0 <= i < |RequiredColumns|
      ensures SignaturePosition(Signature(Lower(RequiredColumns[i]))) == i
    {
      SignatureOfLower(RequiredColumns[i]);
    }
    assert SignaturePosition(Signature("customerid")) == -1;
  }

  /** Lower-casing keeps the length and lower-cases the first character. */
  lemma SignatureOfLower(s: string)
    ensures Signature(Lower(s)) == if s == [] then 0 else |s| * 128 + LowerChar(s[0]) as int
  {
  }

  /** Each lower-cased key of the name index maps to a name with that lower-case form. */
  lemma LowerMapValues(found: seq<string>)
    ensures forall key :: key in LowerMap(found) ==> Lower(LowerMap(found)[key]) == key
  {
    forall key | key in LowerMap(found)
      ensures Lower(LowerMap(found)[key]) == key
    {
      var k :| LastWithLower(found, key, k) && LowerMap(found)[key] == found[k];
    }
  }

  lemma RequiredMapSpec(reqs: seq<string>, colMap: map<string, string>)
    requires forall i :: 0 <= i < |reqs| ==> Lower(reqs[i]) in colMap
    requires forall key :: key in colMap ==> Lower(colMap[key]) == key
    requires forall i, j :: 0 <= i < j < |reqs| ==> Lower(reqs[i]) != Lower(reqs[j])
    ensures forall x :: x in RequiredMap(reqs, colMap) ==> exists i :: 0 <= i < |reqs| && colMap[Lower(reqs[i])] == x
    ensures forall i :: 0 <= i < |reqs| ==> colMap[Lower(reqs[i])] in RequiredMap(reqs, colMap)
    ensures forall i :: 0 <= i < |reqs| ==> RequiredMap(reqs, colMap)[colMap[Lower(reqs[i])]] == reqs[i]
  {
    var keys := RequiredKeys(reqs, colMap);
    forall i, j | 0 <= i < j < |keys|
      ensures keys[i] != keys[j]
    {
      assert Lower(keys[i]) == Lower(reqs[i]);
      assert Lower(keys[j]) == Lower(reqs[j]);
    }
    MapOfPairsSpec(keys, reqs);
    forall x | x in RequiredMap(reqs, colMap)
      ensures exists i :: 0 <= i < |reqs| && colMap[Lower(reqs[i])] == x
    {
      var i :| 0 <= i < |keys| && keys[i] == x;
    }
  }

  /** No two names of `reqs` differ only in case, and none lower-cases to `customerid`. */
  ghost predicate CaseDistinct(reqs: seq<string>)
  {
    && (forall i, j :: 0 <= i < j < |reqs| ==> Lower(reqs[i]) != Lower(reqs[j]))
    && (forall i :: 0 <= i < |reqs| ==> Lower(reqs[i]) != "customerid")
  }

  /** The first rename keeps the lower-case form of every name. */
  lemma CustomerIdRenameKeepsCase(found: seq<string>, k: nat)
    requires k < |found|
    ensures Lower(Rename(found, CustomerIdMap(LowerMap(found)))[k]) == Lower(found[k])
  {
    var colMap := LowerMap(found);
    if "customerid" in colMap && found[k] == colMap["customerid"] {
      LowerMapValues(found);
      LowerCustomerId();
    }
  }

  /** Renaming changes only letter case, and every name it changes becomes a canonical one. */
  lemma CanonicalChangesCaseOnly(reqs: seq<string>, found: seq<string>)
    requires NoneMissing(reqs, found) && CaseDistinct(reqs)
    ensures forall k :: 0 <= k < |found| ==> Lower(CanonicalNames(reqs, found)[k]) == Lower(found[k])
    ensures forall k :: 0 <= k < |found| && CanonicalNames(reqs, found)[k] != found[k] ==>
      CanonicalNames(reqs, found)[k] in reqs || CanonicalNames(reqs, found)[k] == "customerID"
  {
    forall k | 0 <= k < |found|
      ensures Lower(CanonicalNames(reqs, found)[k]) == Lower(found[k])
      ensures CanonicalNames(reqs, found)[k] != found[k] ==>
        CanonicalNames(reqs, found)[k] in reqs || CanonicalNames(reqs, found)[k] == "customerID"
    {
      CanonicalAt(reqs, found, k);
    }
  }

  /** The renames at one position: same lower case, and a changed name is a canonical one. */
  lemma CanonicalAt(reqs: seq<string>, found: seq<string>, k: nat)
    requires NoneMissing(reqs, found) && CaseDistinct(reqs) && k < |found|
    ensures Lower(CanonicalNames(reqs, found)[k]) == Lower(found[k])
    ensures CanonicalNames(reqs, found)[k] != found[k] ==>
      CanonicalNames(reqs, found)[k] in reqs || CanonicalNames(reqs, found)[k] == "customerID"
  {
    var colMap := LowerMap(found);
    RequiredPresent(reqs, found);
    LowerMapValues(found);
    RequiredMapValues(reqs, colMap);
    var idMap := CustomerIdMap(colMap);
    var reqMap := RequiredMap(reqs, colMap);
    var mid := Rename(found, idMap);
    var names := CanonicalNames(reqs, found);
    CustomerIdRenameKeepsCase(found, k);
    assert mid[k] == if found[k] in idMap then idMap[found[k]] else found[k];
    assert names[k] == if mid[k] in reqMap then reqMap[mid[k]] else mid[k];
  }

  /** Each value of `rename_map` is a required name with the same lower case as its key. */
  lemma RequiredMapValues(reqs: seq<string>, colMap: map<string, string>)
    requires forall i :: 0 <= i < |reqs| ==> Lower(reqs[i]) in colMap
    requires forall key :: key in colMap ==> Lower(colMap[key]) == key
    requires forall i, j :: 0 <= i < j < |reqs| ==> Lower(reqs[i]) != Lower(reqs[j])
    ensures forall x :: x in RequiredMap(reqs, colMap) ==>
      RequiredMap(reqs, colMap)[x] in reqs && Lower(RequiredMap(reqs, colMap)[x]) == Lower(x)
  {
    RequiredMapSpec(reqs, colMap);
    forall x | x in RequiredMap(reqs, colMap)
      ensures RequiredMap(reqs, colMap)[x] in reqs && Lower(RequiredMap(reqs, colMap)[x]) == Lower(x)
    {
      var i :| 0 <= i < |reqs| && colMap[Lower(reqs[i])] == x;
    }
  }

  /** Every required column ends up under its declared name. */
  lemma CanonicalHasRequired(reqs: seq<string>, found: seq<string>)
    requires NoneMissing(reqs, found) && CaseDistinct(reqs)
    ensures forall r :: r in reqs ==> r in CanonicalNames(reqs, found)
  {
    var colMap := LowerMap(found);
    RequiredPresent(reqs, found);
    LowerMapValues(found);
    RequiredMapSpec(reqs, colMap);
    var idMap := CustomerIdMap(colMap);
    var mid := Rename(found, idMap);
    var names := CanonicalNames(reqs, found);
    forall r | r in reqs
      ensures r in names
    {
      var i :| 0 <= i < |reqs| && reqs[i] == r;
      var key := Lower(r);
      var k :| LastWithLower(found, key, k) && colMap[key] == found[k];
      assert found[k] !in idMap by {
        assert Lower(found[k]) != "customerid";
      }
      assert mid[k] == found[k];
      assert names[k] == r;
    }
  }

  /** No key of the rename map is `customerID`. */
  lemma CustomerIdNotRenamed(reqs: seq<string>, found: seq<string>)
    requires NoneMissing(reqs, found) && CaseDistinct(reqs)
    ensures "customerID" !in RequiredMap(reqs, (RequiredPresent(reqs, found); LowerMap(found)))
  {
    var colMap := LowerMap(found);
    RequiredPresent(reqs, found);
    LowerMapValues(found);
    RequiredMapSpec(reqs, colMap);
    assert Lower("customerID") == "customerid";
    forall i | 0 <= i < |reqs|
      ensures colMap[Lower(reqs[i])] != "customerID"
    {
      assert Lower(colMap[Lower(reqs[i])]) == Lower(reqs[i]);
    }
  }

  lemma CustomerIdFromLower(reqs: seq<string>, found: seq<string>)
    requires NoneMissing(reqs, found) && CaseDistinct(reqs)
    requires "customerid" in LowerAll(found)
    ensures "customerID" in CanonicalNames(reqs, found)
  {
    var colMap := LowerMap(found);
    assert "customerid" in colMap;
    var k :| LastWithLower(found, "customerid", k) && colMap["customerid"] == found[k];
    var idMap := CustomerIdMap(colMap);
    assert idMap == map[found[k] := "customerID"];
    var mid := Rename(found, idMap);
    assert mid[k] == "customerID";
    CustomerIdNotRenamed(reqs, found);
    RequiredPresent(reqs, found);
    assert CanonicalNames(reqs, found) == Rename(mid, RequiredMap(reqs, colMap));
    assert CanonicalNames(reqs, found)[k] == "customerID";
  }

  /** `customerID` is present after renaming exactly when some cleaned name lower-cases to `customerid`. */
  lemma CanonicalCustomerId(reqs: seq<string>, found: seq<string>)
    requires NoneMissing(reqs, found) && CaseDistinct(reqs)
    ensures "customerID" in CanonicalNames(reqs, found) <==> "customerid" in LowerAll(found)
  {
    var names := CanonicalNames(reqs, found);
    if "customerid" in LowerAll(found) {
      CustomerIdFromLower(reqs, found);
    }
    if "customerID" in names {
      var k :| 0 <= k < |names| && names[k] == "customerID";
      CanonicalKeepsCaseAt(reqs, found, k);
      LowerCustomerId();
      assert LowerAll(found)[k] == "customerid";
    }
  }

  lemma LowerCustomerId()
    ensures Lower("customerID") == "customerid"
  {
  }

  lemma CanonicalKeepsCaseAt(reqs: seq<string>, found: seq<string>, k: nat)
    requires NoneMissing(reqs, found) && CaseDistinct(reqs) && k < |found|
    ensures Lower(CanonicalNames(reqs, found)[k]) == Lower(found[k])
  {
    CanonicalAt(reqs, found, k);
  }

  /**
   * A successful check of the upload's cleaned names: renaming changes only
   * letter case, every required name appears in its declared casing,
   * `customerID` appears exactly when some name lower-cases to `customerid`,
   * and every changed name is a canonical one.
   */
  lemma CanonicalizeSpec(found: seq<string>)
    requires Canonicalize(found).Success?
    ensures |Canonicalize(found).value| == |found|
    ensures forall k :: 0 <= k < |found| ==> Lower(Canonicalize(found).value[k]) == Lower(found[k])
    ensures forall r :: r in RequiredColumns ==> r in Canonicalize(found).value
    ensures "customerID" in Canonicalize(found).value <==> "customerid" in LowerAll(found)
    ensures forall k :: 0 <= k < |found| && Canonicalize(found).value[k] != found[k] ==>
      Canonicalize(found).value[k] in RequiredColumns || Canonicalize(found).value[k] == "customerID"
  {
    RequiredLowerDistinct();
    CanonicalChangesCaseOnly(RequiredColumns, found);
    CanonicalHasRequired(RequiredColumns, found);
    CanonicalCustomerId(RequiredColumns, found);
  }

  /** A failed check reports exactly the required names with no case-insensitive match, each named in the text. */
  lemma CanonicalizeFailure(found: seq<string>)
    ensures Canonicalize(found).Failure? <==> exists r :: r in RequiredColumns && Lower(r) !in LowerAll(found)
    ensures Canonicalize(found).Failure? ==>
      forall r :: r in RequiredColumns && Lower(r) !in LowerAll(found) ==> Contains(Canonicalize(found).error, r)
  {
    var missing := MissingColumns(RequiredColumns, LowerAll(found));
    if missing != [] {
      assert missing[0] in missing;
      forall r | r in RequiredColumns && Lower(r) !in LowerAll(found)
        ensures Contains(Canonicalize(found).error, r)
      {
        var k :| 0 <= k < |missing| && missing[k] == r;
        MissingMessageNamesAll(missing, k);
      }
    }
  }
}
