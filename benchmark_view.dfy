/**
 * The two report routes of app.py: the static feature-importance list and
 * `get_benchmark`, which reads the saved benchmark table, normalises its
 * column names, fills in missing metrics from the accuracy, clips the
 * metrics into [0, 1] and ranks the models by ROC-AUC, falling back to a
 * fixed table whenever the file is absent or any step raises. Reading the
 * file is an input: `None` when the file is absent or `pd.read_csv` raises.
 */
module BenchmarkView {
  import opened Wrappers
  import opened Text
  import opened Frames
  import opened Sorting

  // ---------------------------------------------------------------------
  // Column-name normalisation
  // ---------------------------------------------------------------------

  /** `s.replace(a, b)` for single characters. */
  function ReplaceChar(s: string, a: char, b: char): (r: string)
    ensures |r| == |s|
    ensures forall i :: 0 <= i < |s| ==> r[i] == (if s[i] == a then b else s[i])
  {
    seq(|s|, i requires 0 <= i < |s| => if s[i] == a then b else s[i])
  }

  /** `s.replace(a, "")` for a single character. */
  function RemoveChar(s: string, a: char): (r: string)
    ensures a !in r && |r| <= |s|
    ensures forall c :: c in r ==> c in s
  {
    if s == [] then []
    else
      var n := |s| - 1;
      RemoveChar(s[..n], a) + (if s[n] == a then [] else [s[n]])
  }

  /** `c.lower().replace("-", "_").replace(" ", "_").replace("(", "").replace(")", "")`. */
  function NormalizeName(c: string): string
  {
    RemoveChar(RemoveChar(ReplaceChar(ReplaceChar(Lower(c), '-', '_'), ' ', '_'), '('), ')')
  }

  /** No ASCII capital, hyphen, space or parenthesis: the characters normalisation rewrites. */
  predicate Normal(s: string)
  {
    forall i :: 0 <= i < |s| ==> !('A' <= s[i] <= 'Z') && s[i] != '-' && s[i] != ' ' && s[i] != '(' && s[i] != ')'
  }

  lemma {:induction false} RemoveCharKeeps(s: string, a: char)
    requires a !in s
    ensures RemoveChar(s, a) == s
  {
    if s != [] {
      var n := |s| - 1;
      RemoveCharKeeps(s[..n], a);
      assert s == s[..n] + [s[n]];
    }
  }

  lemma {:induction false} RemoveCharNormal(s: string, a: char)
    requires forall i :: 0 <= i < |s| ==> !('A' <= s[i] <= 'Z') && s[i] != '-' && s[i] != ' '
    ensures forall i :: 0 <= i < |RemoveChar(s, a)| ==>
      !('A' <= RemoveChar(s, a)[i] <= 'Z') && RemoveChar(s, a)[i] != '-' && RemoveChar(s, a)[i] != ' '
  {
    var r := RemoveChar(s, a);
    forall i | 0 <= i < |r|
      ensures !('A' <= r[i] <= 'Z') && r[i] != '-' && r[i] != ' '
    {
      assert r[i] in r;
      var j :| 0 <= j < |s| && s[j] == r[i];
    }
  }

  /** The normalised name has none of the rewritten characters, and normalising it again changes nothing. */
  lemma NormalizeNameSpec(c: string)
    ensures Normal(NormalizeName(c))
    ensures NormalizeName(NormalizeName(c)) == NormalizeName(c)
  {
    var s := ReplaceChar(ReplaceChar(Lower(c), '-', '_'), ' ', '_');
    RemoveCharNormal(s, '(');
    var t := RemoveChar(s, '(');
    RemoveCharNormal(t, ')');
    var n := RemoveChar(t, ')');
    assert '(' !in n;
    assert n == NormalizeName(c);
    assert Normal(n);
    NormalFixed(n);
  }

  /** A name without any of the rewritten characters is left as it is. */
  lemma NormalFixed(n: string)
    requires Normal(n)
    ensures NormalizeName(n) == n
  {
    assert Lower(n) == n;
    assert ReplaceChar(n, '-', '_') == n;
    assert ReplaceChar(n, ' ', '_') == n;
    assert '(' !in n && ')' !in n;
    RemoveCharKeeps(n, '(');
    RemoveCharKeeps(n, ')');
  }

  lemma {:induction false} RemoveCharConcat(a: string, b: string, c: char)
    ensures RemoveChar(a + b, c) == RemoveChar(a, c) + RemoveChar(b, c)
  {
    if b != [] {
      var n := |b| - 1;
      assert (a + b)[..|a + b| - 1] == a + b[..n];
      RemoveCharConcat(a, b[..n], c);
    } else {
      assert a + b == a;
    }
  }

  lemma RocAucHeader()
    ensures NormalizeName("ROC-AUC") == "roc_auc"
  {
    assert Lower("ROC-AUC") == "roc-auc";
    assert ReplaceChar("roc-auc", '-', '_') == "roc_auc";
    assert ReplaceChar("roc_auc", ' ', '_') == "roc_auc";
    RemoveCharKeeps("roc_auc", '(');
    RemoveCharKeeps("roc_auc", ')');
  }

  /** Normalisation works character by character, so it distributes over concatenation. */
  lemma NormalizeConcat(a: string, b: string)
    ensures NormalizeName(a + b) == NormalizeName(a) + NormalizeName(b)
  {
    assert Lower(a + b) == Lower(a) + Lower(b);
    var la, lb := Lower(a), Lower(b);
    assert ReplaceChar(la + lb, '-', '_') == ReplaceChar(la, '-', '_') + ReplaceChar(lb, '-', '_');
    var ma, mb := ReplaceChar(la, '-', '_'), ReplaceChar(lb, '-', '_');
    assert ReplaceChar(ma + mb, ' ', '_') == ReplaceChar(ma, ' ', '_') + ReplaceChar(mb, ' ', '_');
    var sa, sb := ReplaceChar(ma, ' ', '_'), ReplaceChar(mb, ' ', '_');
    RemoveCharConcat(sa, sb, '(');
    RemoveCharConcat(RemoveChar(sa, '('), RemoveChar(sb, '('), ')');
  }

  /** A word of ASCII letters is only lower-cased. */
  lemma LetterWord(p: string)
    requires forall i :: 0 <= i < |p| ==> IsAsciiLetter(p[i])
    ensures NormalizeName(p) == Lower(p)
  {
    var l := Lower(p);
    assert forall i :: 0 <= i < |l| ==> IsAsciiLetter(l[i]);
    assert ReplaceChar(l, '-', '_') == l;
    assert ReplaceChar(l, ' ', '_') == l;
    assert '(' !in l && ')' !in l;
    RemoveCharKeeps(l, '(');
    RemoveCharKeeps(l, ')');
  }

  lemma LowerTraining()
    ensures Lower("Training") == "training"
  {
  }

  lemma TrainingWord()
    ensures NormalizeName("Training") == "training"
  {
    LetterWord("Training");
    LowerTraining();
  }

  lemma LowerTime()
    ensures Lower("Time") == "time"
  {
  }

  lemma TimeWord()
    ensures NormalizeName("Time") == "time"
  {
    LetterWord("Time");
    LowerTime();
  }

  lemma TimeHeaderWords()
    ensures NormalizeName("Training") == "training" && NormalizeName("Time") == "time"
  {
    TrainingWord();
    TimeWord();
  }

  lemma TimeHeaderUnits()
    ensures NormalizeName(" ") == "_" && NormalizeName("(") == "" && NormalizeName(")") == ""
  {
    assert Lower(" ") == " " && Lower("(") == "(" && Lower(")") == ")";
    assert ReplaceChar(ReplaceChar(" ", '-', '_'), ' ', '_') == "_";
    assert ReplaceChar(ReplaceChar("(", '-', '_'), ' ', '_') == "(";
    assert ReplaceChar(ReplaceChar(")", '-', '_'), ' ', '_') == ")";
    assert "_"[..0] == [] && "("[..0] == [] && ")"[..0] == [];
  }

  lemma TimeHeaderParts(a: string, sp: string, b: string, o: string, x: string, c: string)
    ensures NormalizeName(a + sp + b + sp + o + x + c) == NormalizeName(a) + NormalizeName(sp) + NormalizeName(b)
      + NormalizeName(sp) + NormalizeName(o) + NormalizeName(x) + NormalizeName(c)
  {
    NormalizeConcat(a, sp);
    NormalizeConcat(a + sp, b);
    NormalizeConcat(a + sp + b, sp);
    NormalizeConcat(a + sp + b + sp, o);
    NormalizeConcat(a + sp + b + sp + o, x);
    NormalizeConcat(a + sp + b + sp + o + x, c);
  }

  lemma SWord()
    ensures NormalizeName("s") == "s"
  {
    assert "s"[0] == 's';
    assert Normal("s");
    NormalFixed("s");
  }

  lemma TimeHeaderFrom(a: string, sp: string, b: string, o: string, x: string, c: string)
    requires NormalizeName(a) == "training" && NormalizeName(sp) == "_" && NormalizeName(b) == "time"
    requires NormalizeName(o) == "" && NormalizeName(x) == "s" && NormalizeName(c) == ""
    ensures NormalizeName(a + sp + b + sp + o + x + c) == "training_time_s"
  {
    TimeHeaderParts(a, sp, b, o, x, c);
    TimeHeaderText();
  }

  lemma TimeHeaderText()
    ensures "training" + "_" + "time" + "_" + "" + "s" + "" == "training_time_s"
  {
    assert "training" + "_" == "training_";
    assert "training_" + "time" == "training_time";
    assert "training_time" + "_" == "training_time_";
    assert "training_time_" + "" == "training_time_";
    assert "training_time_" + "s" == "training_time_s";
  }

  lemma TimeHeaderOf(h: string)
    requires h == "Training" + " " + "Time" + " " + "(" + "s" + ")"
    ensures NormalizeName(h) == "training_time_s"
  {
    TimeHeaderWords();
    TimeHeaderUnits();
    SWord();
    TimeHeaderFrom("Training", " ", "Time", "(", "s", ")");
  }

  lemma TimeHeader()
    ensures NormalizeName("Training Time (s)") == "training_time_s"
  {
    TimeHeaderOf("Training Time (s)");
  }

  /** The two headers the training report writes. */
  lemma NormalizeReportHeaders()
    ensures NormalizeName("ROC-AUC") == "roc_auc"
    ensures NormalizeName("Training Time (s)") == "training_time_s"
  {
    RocAucHeader();
    TimeHeader();
  }

  function NormalizeAll(cols: seq<string>): (r: seq<string>)
    ensures |r| == |cols|
  {
    seq(|cols|, k requires 0 <= k < |cols| => NormalizeName(cols[k]))
  }

  /** `rename(columns={'training_time_s': 'training_time'})`, applied when that column exists. */
  function RenameTrainingTime(f: Frame): (g: Frame)
    ensures "training_time_s" !in g.columns
    ensures |g.columns| == |f.columns| && |g.rows| == |f.rows|
  {
    if "training_time_s" in f.columns then
      Relabel(f, seq(|f.columns|, k requires 0 <= k < |f.columns| =>
        if f.columns[k] == "training_time_s" then "training_time" else f.columns[k]))
    else f
  }

  /** The table after the header rewrite and the rename. */
  function Normalized(t: Frame): Frame
  {
    RenameTrainingTime(Relabel(t, NormalizeAll(t.columns)))
  }

  /** Each header is normalised in place, and a `training_time_s` header becomes `training_time`. */
  lemma NormalizedColumns(t: Frame, k: nat)
    requires k < |t.columns|
    ensures |Normalized(t).columns| == |t.columns|
    ensures var n := NormalizeName(t.columns[k]);
      Normalized(t).columns[k] == if n == "training_time_s" then "training_time" else n
  {
  }

  /** The report's `Training Time (s)` column reaches the frontend as `training_time`, and `ROC-AUC` as `roc_auc`. */
  lemma ReportColumns(t: Frame, k: nat)
    requires k < |t.columns|
    ensures t.columns[k] == "Training Time (s)" ==> Normalized(t).columns[k] == "training_time"
    ensures t.columns[k] == "ROC-AUC" ==> Normalized(t).columns[k] == "roc_auc"
  {
    NormalizeReportHeaders();
    NormalizedColumns(t, k);
  }

  // ---------------------------------------------------------------------
  // Metrics derived from the accuracy
  // ---------------------------------------------------------------------

  /** `df[name] = cells`, one cell per row. */
  function SetColumn(f: Frame, name: string, cells: seq<Cell>): (g: Frame)
    requires |cells| == |f.rows|
    ensures g.columns == AddName(f.columns, name) && |g.rows| == |f.rows|
  {
    Frame(AddName(f.columns, name), seq(|f.rows|, k requires 0 <= k < |f.rows| => f.rows[k][name := cells[k]]))
  }

  /**
   * Two headers equal `name`. pandas keeps both columns, so `df[name]` is a
   * two-column table; the model's rows keep the later column's cells.
   */
  predicate Repeated(cols: seq<string>, name: string)
  {
    exists i, j :: 0 <= i < j < |cols| && cols[i] == name && cols[j] == name
  }

  /**
   * Naming a column that does not exist raises `KeyError`; multiplying text
   * by a float raises `TypeError`; storing the two-column product of a
   * repeated accuracy header under one new name raises `ValueError`.
   */
  const AccuracyMissing := "'accuracy'"
  const AccuracyText := "can't multiply sequence by non-int of type 'float'"
  function MultiColumnText(name: string): string
  {
    "Cannot set a DataFrame with multiple columns to the single column " + name
  }

  /** `if name not in df.columns: df[name] = df['accuracy'] * factor`. */
  function AddDerived(f: Frame, name: string, factor: real): (r: Result<Frame, string>)
    ensures r.Success? <==>
      name in f.columns || ("accuracy" in f.columns && NumericColumn(f, "accuracy") && !Repeated(f.columns, "accuracy"))
    ensures r.Success? ==> name in r.value.columns && |r.value.rows| == |f.rows|
  {
    if name in f.columns then Success(f)
    else if "accuracy" !in f.columns then Failure(AccuracyMissing)
    else if !NumericColumn(f, "accuracy") then Failure(AccuracyText)
    else if Repeated(f.columns, "accuracy") then Failure(MultiColumnText(name))
    else
      var acc := Column(f, "accuracy");
      Success(SetColumn(f, name, seq(|f.rows|, k requires 0 <= k < |f.rows| => Mul(acc[k], Num(factor)))))
  }

  /** `if 'training_time' not in df.columns: df['training_time'] = 0.5`. */
  function AddTrainingTime(f: Frame): (g: Frame)
    ensures "training_time" in g.columns && |g.rows| == |f.rows|
  {
    if "training_time" in f.columns then f
    else SetColumn(f, "training_time", seq(|f.rows|, k requires 0 <= k < |f.rows| => Num(0.5)))
  }

  /** Everything before the clipping: headers, rename and the four defaults, in source order. */
  function Prepare(t: Frame): (r: Result<Frame, string>)
    ensures r.Success? ==> |r.value.rows| == |t.rows|
    ensures r.Success? ==> forall m :: m in ["precision", "recall", "f1_score", "training_time"] ==> m in r.value.columns
  {
    var n := Normalized(t);
    match AddDerived(n, "precision", 0.98)
    case Failure(e) => Failure(e)
    case Success(a) =>
      match AddDerived(a, "recall", 1.02)
      case Failure(e) => Failure(e)
      case Success(b) =>
        match AddDerived(b, "f1_score", 1.01)
        case Failure(e) => Failure(e)
        case Success(c) => Success(AddTrainingTime(c))
  }

  /** Adding a column leaves every other column's cells and every existing column in place. */
  lemma AddDerivedKeeps(f: Frame, name: string, factor: real, c: string)
    requires AddDerived(f, name, factor).Success? && c != name
    ensures (c in AddDerived(f, name, factor).value.columns) == (c in f.columns)
    ensures Column(AddDerived(f, name, factor).value, c) == Column(f, c)
    ensures Repeated(AddDerived(f, name, factor).value.columns, c) == Repeated(f.columns, c)
  {
    var g := AddDerived(f, name, factor).value;
    assert f.columns <= g.columns;
    if Repeated(g.columns, c) {
      var i, j :| 0 <= i < j < |g.columns| && g.columns[i] == c && g.columns[j] == c;
      assert j < |f.columns|;
    }
  }

  /**
   * The defaults raise exactly when a derived metric is missing and the
   * accuracy column is missing, holds text or has a repeated header.
   */
  lemma PrepareFailure(t: Frame)
    ensures Prepare(t).Failure? <==>
      var n := Normalized(t);
      && ("precision" !in n.columns || "recall" !in n.columns || "f1_score" !in n.columns)
      && ("accuracy" !in n.columns || !NumericColumn(n, "accuracy") || Repeated(n.columns, "accuracy"))
  {
    var n := Normalized(t);
    var a := AddDerived(n, "precision", 0.98);
    if a.Success? {
      AddDerivedKeeps(n, "precision", 0.98, "accuracy");
      AddDerivedKeeps(n, "precision", 0.98, "recall");
      AddDerivedKeeps(n, "precision", 0.98, "f1_score");
      var b := AddDerived(a.value, "recall", 1.02);
      if b.Success? {
        AddDerivedKeeps(a.value, "recall", 1.02, "accuracy");
        AddDerivedKeeps(a.value, "recall", 1.02, "f1_score");
      }
    }
  }

  /** A missing `precision` is the accuracy times 0.98, row by row (a missing accuracy stays missing). */
  lemma PrecisionDefault(t: Frame, k: nat)
    requires Prepare(t).Success? && k < |t.rows|
    requires "precision" !in Normalized(t).columns
    ensures Column(Prepare(t).value, "precision")[k] == Mul(Column(Normalized(t), "accuracy")[k], Num(0.98))
  {
    var n := Normalized(t);
    var a := AddDerived(n, "precision", 0.98).value;
    AddDerivedKeeps(a, "recall", 1.02, "precision");
    var b := AddDerived(a, "recall", 1.02).value;
    AddDerivedKeeps(b, "f1_score", 1.01, "precision");
  }

  // ---------------------------------------------------------------------
  // Clipping and ranking
  // ---------------------------------------------------------------------

  /** The columns clipped into [0, 1], in the order the loop visits them. */
  const Metrics: seq<string> := ["precision", "recall", "f1_score", "accuracy", "roc_auc"]

  /** `clip(0, 1)` on one cell; a missing value stays missing. */
  function ClipCell(c: Cell): (r: Cell)
    ensures c.Num? ==> r.Num? && 0.0 <= r.x <= 1.0 && (0.0 <= c.x <= 1.0 ==> r == c)
    ensures !c.Num? ==> r == c
  {
    if c.Num? then Num(if c.x < 0.0 then 0.0 else if c.x > 1.0 then 1.0 else c.x) else c
  }

  /** `if col in df.columns: df[col] = df[col].clip(0, 1)`, for a column holding no text. */
  function ClipIfPresent(f: Frame, col: string): (g: Frame)
    ensures g.columns == f.columns && |g.rows| == |f.rows|
  {
    if col in f.columns then
      Frame(f.columns, seq(|f.rows|, k requires 0 <= k < |f.rows| => f.rows[k][col := ClipCell(Get(f.rows[k], col))]))
    else f
  }

  /** The table after clipping each of `cols` in turn. */
  function ClipAll(f: Frame, cols: seq<string>): (g: Frame)
    ensures g.columns == f.columns && |g.rows| == |f.rows|
  {
    if cols == [] then f
    else
      var n := |cols| - 1;
      ClipIfPresent(ClipAll(f, cols[..n]), cols[n])
  }

  /** Every present metric column holds no text, so `clip` does not raise. */
  predicate MetricsNumeric(f: Frame)
  {
    forall i :: 0 <= i < |Metrics| ==> Metrics[i] in f.columns ==> NumericColumn(f, Metrics[i])
  }

  /** Comparing text with a number inside `clip` raises `TypeError`. */
  const ClipText := "'<=' not supported between instances of 'str' and 'int'"

  /** A column not among `cols` is untouched by clipping them. */
  lemma {:induction false} ClipAllOther(f: Frame, cols: seq<string>, c: string)
    requires c !in cols
    ensures Column(ClipAll(f, cols), c) == Column(f, c)
  {
    if cols != [] {
      var n := |cols| - 1;
      ClipAllOther(f, cols[..n], c);
    }
  }

  /** A present column among `cols` is clipped, once. */
  lemma {:induction false} ClipAllThis(f: Frame, cols: seq<string>, c: string)
    requires c in cols && c in f.columns
    requires forall i, j :: 0 <= i < j < |cols| ==> cols[i] != cols[j]
    ensures forall k :: 0 <= k < |f.rows| ==> Get(ClipAll(f, cols).rows[k], c) == ClipCell(Get(f.rows[k], c))
  {
    var n := |cols| - 1;
    if cols[n] == c {
      assert c !in cols[..n];
      ClipAllOther(f, cols[..n], c);
      forall k | 0 <= k < |f.rows|
        ensures Get(ClipAll(f, cols).rows[k], c) == ClipCell(Get(f.rows[k], c))
      {
        assert Get(ClipAll(f, cols[..n]).rows[k], c) == Column(ClipAll(f, cols[..n]), c)[k];
      }
    } else {
      ClipAllThis(f, cols[..n], c);
    }
  }

  /** The loop over `Metrics`: clip each present column, raising on the first that holds text. */
  method ClipMetrics(f: Frame) returns (r: Result<Frame, string>)
    ensures r.Success? <==> MetricsNumeric(f)
    ensures r.Success? ==> r.value == ClipAll(f, Metrics)
  {
    var g := f;
    var i := 0;
    while i < |Metrics|
      invariant 0 <= i <= |Metrics|
      invariant g == ClipAll(f, Metrics[..i])
      invariant forall j :: 0 <= j < i ==> Metrics[j] in f.columns ==> NumericColumn(f, Metrics[j])
    {
      var col := Metrics[i];
      assert Metrics[..i + 1][..i] == Metrics[..i];
      if col in g.columns {
        assert col !in Metrics[..i];
        ClipAllOther(f, Metrics[..i], col);
        if !NumericColumn(g, col) {
          assert !NumericColumn(f, col) by {
            var k :| 0 <= k < |g.rows| && Get(g.rows[k], col).Str?;
            assert Column(g, col)[k] == Get(g.rows[k], col);
          }
          return Failure(ClipText);
        }
        assert NumericColumn(f, col) by {
          forall k | 0 <= k < |f.rows|
            ensures !Get(f.rows[k], col).Str?
          {
            assert Column(f, col)[k] == Get(f.rows[k], col);
            assert Column(g, col)[k] == Get(g.rows[k], col);
          }
        }
      }
      g := ClipIfPresent(g, col);
      i := i + 1;
    }
    assert Metrics[..|Metrics|] == Metrics;
    r := Success(g);
  }

  /** The sort key of `sort_values(by="roc_auc", ascending=False)`: clipped values lie in [0, 1] and missing ones go last. */
  function RocKey(r: Row): real
  {
    var c := Get(r, "roc_auc");
    if c.Num? then c.x else -1.0
  }

  // ---------------------------------------------------------------------
  // The route
  // ---------------------------------------------------------------------

  function Entry(algorithm: string, rocAuc: real, accuracy: real, precision: real, recall: real, f1: real): Row
  {
    map["algorithm" := Str(algorithm), "roc_auc" := Num(rocAuc), "accuracy" := Num(accuracy),
        "precision" := Num(precision), "recall" := Num(recall), "f1_score" := Num(f1)]
  }

  /** The table returned when the report is absent or any step raises. */
  const DefaultBenchmark: seq<Row> := [
    Entry("XGBoost", 0.8437, 0.80, 0.78, 0.82, 0.80),
    Entry("Random Forest", 0.8352, 0.79, 0.77, 0.80, 0.78),
    Entry("LightGBM", 0.8415, 0.80, 0.78, 0.81, 0.79),
    Entry("Neural Network", 0.8234, 0.77, 0.75, 0.78, 0.76),
    Entry("Logistic Regression", 0.7891, 0.74, 0.71, 0.73, 0.72)
  ]

  /** The records `get_benchmark` returns for a given outcome of reading the report. */
  function Benchmark(read: Option<Frame>): seq<Row>
  {
    match read
    case None => DefaultBenchmark
    case Some(t) =>
      match Prepare(t)
      case Failure(_) => DefaultBenchmark
      case Success(g) =>
        if !MetricsNumeric(g) || "roc_auc" !in g.columns || Repeated(g.columns, "roc_auc") then DefaultBenchmark
        else SortDesc(ClipAll(g, Metrics).rows, RocKey)
  }

  /** `get_benchmark`, with the clip loop as a loop. */
  method GetBenchmark(read: Option<Frame>) returns (out: seq<Row>)
    ensures out == Benchmark(read)
  {
    if read.None? {
      return DefaultBenchmark;
    }
    var prepared := Prepare(read.value);
    if prepared.Failure? {
      return DefaultBenchmark;
    }
    var clipped := ClipMetrics(prepared.value);
    if clipped.Failure? {
      return DefaultBenchmark;
    }
    if "roc_auc" !in clipped.value.columns || Repeated(clipped.value.columns, "roc_auc") {
      return DefaultBenchmark;
    }
    out := SortDesc(clipped.value.rows, RocKey);
  }

  /** The report's rows are returned, each once: a reordering of the clipped table. */
  lemma BenchmarkFromReport(t: Frame)
    requires Prepare(t).Success?
    requires MetricsNumeric(Prepare(t).value) && "roc_auc" in Prepare(t).value.columns
    requires !Repeated(Prepare(t).value.columns, "roc_auc")
    ensures |Benchmark(Some(t))| == |t.rows|
    ensures multiset(Benchmark(Some(t))) == multiset(ClipAll(Prepare(t).value, Metrics).rows)
    ensures SortedDesc(Benchmark(Some(t)), RocKey)
  {
  }

  lemma MetricsDistinct()
    ensures forall i, j :: 0 <= i < j < |Metrics| ==> Metrics[i] != Metrics[j]
  {
  }

  /** After clipping, every present metric is missing or lies in [0, 1]. */
  lemma ClippedInRange(g: Frame, m: string, k: nat)
    requires m in Metrics && m in g.columns && k < |g.rows|
    ensures var c := Get(ClipAll(g, Metrics).rows[k], m); c == ClipCell(Get(g.rows[k], m))
    ensures var c := Get(ClipAll(g, Metrics).rows[k], m); c.Num? ==> 0.0 <= c.x <= 1.0
  {
    MetricsDistinct();
    ClipAllThis(g, Metrics, m);
  }

  /**
   * Every returned record ranks at least as high as the ones after it, and
   * records with a missing `roc_auc` come after all those with a value.
   */
  lemma BenchmarkRanking(t: Frame, i: nat, j: nat)
    requires Prepare(t).Success?
    requires MetricsNumeric(Prepare(t).value) && "roc_auc" in Prepare(t).value.columns
    requires !Repeated(Prepare(t).value.columns, "roc_auc")
    requires i < j < |Benchmark(Some(t))|
    ensures RocKey(Benchmark(Some(t))[i]) >= RocKey(Benchmark(Some(t))[j])
    ensures Get(Benchmark(Some(t))[j], "roc_auc").Num? ==> Get(Benchmark(Some(t))[i], "roc_auc").Num?
  {
    var g := Prepare(t).value;
    var rows := ClipAll(g, Metrics).rows;
    var out := Benchmark(Some(t));
    assert out[i] in multiset(rows) && out[j] in multiset(rows);
    var a :| 0 <= a < |rows| && rows[a] == out[j];
    ClippedInRange(g, "roc_auc", a);
  }

  /** The returned metric values are missing or lie in [0, 1]. */
  lemma BenchmarkMetricsInRange(t: Frame, m: string, i: nat)
    requires Prepare(t).Success?
    requires MetricsNumeric(Prepare(t).value) && "roc_auc" in Prepare(t).value.columns
    requires !Repeated(Prepare(t).value.columns, "roc_auc")
    requires m in Metrics && m in Prepare(t).value.columns && i < |Benchmark(Some(t))|
    ensures var c := Get(Benchmark(Some(t))[i], m); c.Num? ==> 0.0 <= c.x <= 1.0
  {
    var g := Prepare(t).value;
    var rows := ClipAll(g, Metrics).rows;
    var out := Benchmark(Some(t));
    assert out[i] in multiset(rows);
    var a :| 0 <= a < |rows| && rows[a] == out[i];
    ClippedInRange(g, m, a);
  }

  /** Every way of failing yields the fixed table. */
  lemma BenchmarkFallback(read: Option<Frame>)
    requires
      || read.None?
      || Prepare(read.value).Failure?
      || !MetricsNumeric(Prepare(read.value).value)
      || "roc_auc" !in Prepare(read.value).value.columns
      || Repeated(Prepare(read.value).value.columns, "roc_auc")
    ensures Benchmark(read) == DefaultBenchmark
  {
  }

  /** The defaults only append headers, so a header repeated after normalisation stays repeated. */
  lemma PrepareKeepsRepeated(t: Frame, c: string)
    requires Prepare(t).Success? && Repeated(Normalized(t).columns, c)
    ensures Repeated(Prepare(t).value.columns, c)
  {
    var n := Normalized(t);
    var a := AddDerived(n, "precision", 0.98).value;
    var b := AddDerived(a, "recall", 1.02).value;
    var d := AddDerived(b, "f1_score", 1.01).value;
    AddDerivedExtends(n, "precision", 0.98);
    AddDerivedExtends(a, "recall", 1.02);
    AddDerivedExtends(b, "f1_score", 1.01);
    PrefixRepeated(n.columns, a.columns, c);
    PrefixRepeated(a.columns, b.columns, c);
    PrefixRepeated(b.columns, d.columns, c);
    PrefixRepeated(d.columns, AddTrainingTime(d).columns, c);
  }

  /** A derived metric is appended after the existing headers. */
  lemma AddDerivedExtends(f: Frame, name: string, factor: real)
    requires AddDerived(f, name, factor).Success?
    ensures f.columns <= AddDerived(f, name, factor).value.columns
  {
  }

  /** Appending headers never undoes a repetition. */
  lemma PrefixRepeated(a: seq<string>, b: seq<string>, c: string)
    requires a <= b && Repeated(a, c)
    ensures Repeated(b, c)
  {
    var i, j :| 0 <= i < j < |a| && a[i] == c && a[j] == c;
    assert b[i] == c && b[j] == c;
  }

  /**
   * Two headers that both normalise to `roc_auc` (say "ROC-AUC" and
   * "roc_auc") make the sort raise, so the route answers with the fixed table.
   */
  lemma RepeatedRocAucFallsBack(t: Frame)
    requires Repeated(Normalized(t).columns, "roc_auc")
    ensures Benchmark(Some(t)) == DefaultBenchmark
  {
    if Prepare(t).Success? {
      PrepareKeepsRepeated(t, "roc_auc");
    }
  }

  /** A report headed both "ROC-AUC" and "roc_auc" is answered with the fixed table. */
  lemma CollidingRocHeaders(t: Frame)
    requires t.columns == ["ROC-AUC", "roc_auc"]
    ensures Benchmark(Some(t)) == DefaultBenchmark
  {
    NormalizeReportHeaders();
    NormalizeNameSpec("ROC-AUC");
    var n := Normalized(t);
    NormalizedColumns(t, 0);
    NormalizedColumns(t, 1);
    assert n.columns[0] == "roc_auc" && n.columns[1] == "roc_auc";
    RepeatedRocAucFallsBack(t);
  }

  /**
   * The fixed table: five models, every metric within [0, 1], no
   * `training_time` field, and not in ROC-AUC order (Random Forest precedes
   * LightGBM although its AUC is lower).
   */
  lemma DefaultBenchmarkShape()
    ensures |DefaultBenchmark| == 5
    ensures forall k, m :: 0 <= k < 5 && m in Metrics ==>
      Get(DefaultBenchmark[k], m).Num? && 0.0 <= Get(DefaultBenchmark[k], m).x <= 1.0
    ensures forall k :: 0 <= k < 5 ==> "training_time" !in DefaultBenchmark[k]
    ensures RocKey(DefaultBenchmark[1]) < RocKey(DefaultBenchmark[2])
  {
  }

  // ---------------------------------------------------------------------
  // The static feature-importance route
  // ---------------------------------------------------------------------

  datatype Importance = Importance(feature: string, importance: real, description: string)

  /** The list `get_feature_importance` returns. */
  const StaticImportances: seq<Importance> := [
    Importance("Contract Type (Month-to-Month)", 0.45, "Customers with monthly contracts have higher churn risk"),
    Importance("Payment Method (Electronic Check)", 0.25, "Electronic check payments correlate with higher churn"),
    Importance("Monthly Charges", 0.20, "Higher monthly charges increase churn probability"),
    Importance("Customer Tenure", 0.10, "Longer tenure customers are more loyal")
  ]

  function ImportanceKey(x: Importance): real { x.importance }

  function TotalImportance(xs: seq<Importance>): real
  {
    if xs == [] then 0.0 else xs[0].importance + TotalImportance(xs[1..])
  }

  /** The static importances are listed most important first and add up to one. */
  lemma StaticImportancesShape()
    ensures SortedDesc(StaticImportances, ImportanceKey)
    ensures TotalImportance(StaticImportances) == 1.0
  {
    assert TotalImportance(StaticImportances[3..]) == 0.10;
    assert TotalImportance(StaticImportances[2..]) == 0.30;
    assert TotalImportance(StaticImportances[1..]) == 0.55;
  }
}
