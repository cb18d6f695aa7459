/** The cleanup the script runs on the two converted tables (main.py lines
    99-155), as the sequence of in-place DataFrame updates it is, and the
    row-by-row description of what that sequence produces. */
module Pipeline {
  import opened Wrappers
  import opened Frames
  import opened Rules
  import opened Extraction

  /** The order of the columns written to observations.csv. */
  const OutputColumns: seq<string> :=
    ["Geography", "Year", "Age", "Sex", "Migration Flow", "Value", "Measure Type", "Unit", "CI", "Revision"]

  /** The columns the category loop leaves alone. */
  const NonCategorical: seq<string> := ["Value", "Year", "CI"]

  // ---------------------------------------------------------------------
  // What the cleanup produces, row by row
  // ---------------------------------------------------------------------

  /** An observation that survives the dropna step: neither NaN nor empty. */
  predicate HasValue(o: Observation) {
    o.obs != Missing && o.obs != Text("")
  }

  /** The observations whose rows survive, in table order. */
  function Survivors(xs: seq<Observation>): (s: seq<Observation>)
    ensures |s| <= |xs|
    ensures forall k :: 0 <= k < |s| ==> HasValue(s[k])
  {
    if xs == [] then []
    else Survivors(xs[..|xs| - 1]) + (if HasValue(xs[|xs| - 1]) then [xs[|xs| - 1]] else [])
  }

  /** An observation survives exactly when it has a value. */
  lemma {:induction false} SurvivorsMembers(xs: seq<Observation>)
    ensures forall o :: o in Survivors(xs) <==> o in xs && HasValue(o)
  {
    if xs != [] {
      var init := xs[..|xs| - 1];
      SurvivorsMembers(init);
      assert xs == init + [xs[|xs| - 1]];
    }
  }

  predicate CiCoercible(s: seq<Observation>) {
    forall k :: 0 <= k < |s| ==> CoerceCi(Text(s[k].ci)).Ok?
  }

  function TextSet(xs: seq<string>): set<Cell> {
    set x | x in xs :: Text(x)
  }

  function Geographies(s: seq<Observation>): seq<string> {
    seq(|s|, k requires 0 <= k < |s| => s[k].geography)
  }

  function AgeLabels(s: seq<Observation>): seq<string> {
    seq(|s|, k requires 0 <= k < |s| => AgeLabel(s[k].age))
  }

  function Sexes(s: seq<Observation>): seq<string> {
    seq(|s|, k requires 0 <= k < |s| => s[k].sex)
  }

  function Flows(s: seq<Observation>): seq<string> {
    seq(|s|, k requires 0 <= k < |s| => s[k].flow)
  }

  /** No category rename meets two labels that it would merge. */
  predicate RenamesSucceed(s: seq<Observation>, pathify: string -> string) {
    && InjectiveOn(Renamer(GeographyCodes), TextSet(Geographies(s)))
    && InjectiveOn(Renamer(AgeCodes), TextSet(AgeLabels(s)))
    && InjectiveOn(Renamer(SexCodes), TextSet(Sexes(s)))
    && InjectiveOn(Mapper(pathify), TextSet(Flows(s)))
  }

  /** The output row of a surviving observation whose CI coerced to `ci`
      (a row is a map, so the order of the entries here is immaterial). */
  function OutputRow(o: Observation, ci: Cell, pathify: string -> string): Row {
    map["Value" := o.obs,
        "Year" := Text(o.year),
        "Geography" := Text(Recode(GeographyCodes, o.geography)),
        "Age" := Text(AgeCode(o.age)),
        "Sex" := Text(Recode(SexCodes, o.sex)),
        "Migration Flow" := Text(pathify(o.flow)),
        "Measure Type" := Text(MeasureType),
        "Unit" := Text(Unit),
        "CI" := ci,
        "Revision" := RevisionLabel(Text(o.ci))]
  }

  /** Every output row has exactly the ten output columns and the constant
      Measure Type and Unit of both segments. */
  lemma OutputRowShape(o: Observation, ci: Cell, pathify: string -> string)
    ensures OutputRow(o, ci, pathify).Keys == Labels(OutputColumns)
    ensures OutputRow(o, ci, pathify)["Measure Type"] == Text("Count")
    ensures OutputRow(o, ci, pathify)["Unit"] == Text("People (thousands)")
  {
  }

  /** The Revision of an output row is read from its raw CI, whatever the
      table said before: the census revision exactly for a colon. */
  lemma OutputRowRevision(o: Observation, ci: Cell, pathify: string -> string)
    ensures OutputRow(o, ci, pathify)["Revision"] == Text("2011 Census Revision") <==> o.ci == ":"
    ensures OutputRow(o, ci, pathify)["Revision"] == Text("Original Estimate") <==> o.ci != ":"
  {
  }

  /** The observation is the row's Value, and each label is replaced by its
      code when the table has one and kept otherwise. */
  lemma OutputRowLabels(o: Observation, ci: Cell, pathify: string -> string)
    ensures OutputRow(o, ci, pathify)["Value"] == o.obs
    ensures OutputRow(o, ci, pathify)["Geography"] ==
      Text(if o.geography in GeographyCodes then GeographyCodes[o.geography] else o.geography)
    ensures OutputRow(o, ci, pathify)["Sex"] == Text(if o.sex in SexCodes then SexCodes[o.sex] else o.sex)
  {
  }

  // ---------------------------------------------------------------------
  // The script
  // ---------------------------------------------------------------------

  /** Lines 128-130: every column except Value, Year and CI is converted to
      the categorical dtype, one column at a time in column order. */
  method CategorizeColumns(f: Frame) returns (g: Frame)
    ensures g.columns == f.columns && g.rows == f.rows
    ensures forall c :: c in g.categorical <==> c in f.categorical || (c in f.columns && c !in NonCategorical)
  {
    g := f;
    var k := 0;
    while k < |g.columns|
      invariant 0 <= k <= |f.columns|
      invariant g.columns == f.columns && g.rows == f.rows
      invariant forall c :: c in g.categorical <==> c in f.categorical || (c in f.columns[..k] && c !in NonCategorical)
    {
      var col := g.columns[k];
      if col !in NonCategorical {
        g := g.(categorical := g.categorical + {col});
      }
      assert f.columns[..k + 1] == f.columns[..k] + [col];
      k := k + 1;
    }
    assert f.columns[..k] == f.columns;
  }

  /** Lines 99-106: the two tables stacked, revised estimates first, and
      every row's Revision recomputed from its CI; the constant Revision of
      the original estimates is overwritten. */
  method Combine(revised: seq<Observation>, original: seq<Observation>) returns (result: Result<Frame, Error>)
    ensures result.Ok? <==> |revised + original| > 0
    ensures result.Err? ==> result.error == ColumnCountMismatch("Revision")
    ensures result.Ok? ==> WellFormed(result.value) && RelabelledFrame(result.value, revised + original)
  {
    // Line 99: outer concatenation, revised estimates first.
    var tidy := Concat(Segment(revised, None), Segment(original, Some(OriginalEstimate)));
    ConcatStage(revised, original);

    // Lines 103-106: the Revision column recomputed row by row from the CI.
    RelabelStage(tidy, revised + original);
    var revision := ApplyRows(tidy, RevisionOf).value;
    result := AssignApplied(tidy, "Revision", revision);
  }

  /** Lines 99-155 of the script on the two converted tables. `pathify` is
      the slug function applied to the Migration Flow categories. The result
      is the table written to observations.csv, or the exception raised. */
  method Run(revised: seq<Observation>, original: seq<Observation>, pathify: string -> string)
    returns (result: Result<Frame, Error>)
    ensures var s := Survivors(revised + original);
      result.Ok? <==> |revised + original| > 0 && CiCoercible(s) && RenamesSucceed(s, pathify)
    ensures result.Err? ==>
      result.error == ColumnCountMismatch("Revision") || result.error.IntValueError? ||
      result.error.NonUniqueCategories?
    ensures |revised + original| == 0 ==> result == Err(ColumnCountMismatch("Revision"))
    ensures |revised + original| > 0 && !CiCoercible(Survivors(revised + original)) ==>
      result.Err? && result.error.IntValueError?
    ensures result.Ok? ==>
      var s := Survivors(revised + original);
      && CiCoercible(s)
      && result.value.columns == OutputColumns
      && |result.value.rows| == |s|
      && forall k :: 0 <= k < |s| ==>
           result.value.rows[k] == OutputRow(s[k], CoerceCi(Text(s[k].ci)).value, pathify)
  {
    ghost var all := revised + original;
    ghost var s := Survivors(all);

    var combined := Combine(revised, original);
    if combined.Err? {
      return Err(combined.error);
    }
    var tidy := combined.value;

    // Line 118: empty observations become NaN.
    ReplaceStage(tidy, all);
    tidy := ReplaceValue(tidy, "OBS", Text(""), Missing).value;

    // Line 119: rows without an observation are dropped.
    DropStage(tidy, all);
    tidy := DropMissing(tidy, "OBS").value;

    // Lines 120-121: a data-marker column, if any, is dropped.
    RenameStage(tidy, s);
    if "DATAMARKER" in tidy.columns {
      match DropColumn(tidy, "DATAMARKER")
      case Ok(t) => tidy := t;
      case Err(e) => return Err(e);
    }

    // Line 122: the observation column is relabelled Value.
    tidy := RenameColumn(tidy, "OBS", "Value");

    // Lines 124-125: every CI is coerced.
    CiStage(tidy, s, pathify);
    var coerced := MapColumn(tidy, "CI", CoerceCi);
    if coerced.Err? {
      return Err(coerced.error);
    }
    tidy := coerced.value;

    // Lines 128-130: the category loop.
    var categorized := CategorizeColumns(tidy);
    CategorizeStage(tidy, categorized, s, pathify);
    tidy := categorized;

    result := Encode(tidy, s, pathify);
  }

  /** Lines 135-155: the four categorical columns renamed to their codes,
      then the columns put in output order. Starts from the table the
      category loop leaves: CI coerced, the four columns categorical. */
  method Encode(categorized: Frame, ghost s: seq<Observation>, pathify: string -> string)
    returns (result: Result<Frame, Error>)
    requires RecodedFrame(categorized, s, pathify, 0) && Recodable(categorized)
    ensures result.Ok? <==> RenamesSucceed(s, pathify)
    ensures result.Err? ==> result.error.NonUniqueCategories?
    ensures result.Ok? ==>
      && result.value.columns == OutputColumns
      && |result.value.rows| == |s|
      && forall k :: 0 <= k < |s| ==>
           result.value.rows[k] == OutputRow(s[k], CoerceCi(Text(s[k].ci)).value, pathify)
  {
    var tidy := categorized;

    // Lines 135-138: Geography names to GSS codes.
    RecodeStage(tidy, s, pathify, 0, 1, "Geography", Renamer(GeographyCodes));
    var renamed := RenameCategories(tidy, "Geography", Renamer(GeographyCodes));
    if renamed.Err? {
      return Err(renamed.error);
    }
    tidy := renamed.value;

    // Lines 139-146: Age bands to their codes.
    RecodeStage(tidy, s, pathify, 1, 2, "Age", Renamer(AgeCodes));
    renamed := RenameCategories(tidy, "Age", Renamer(AgeCodes));
    if renamed.Err? {
      return Err(renamed.error);
    }
    tidy := renamed.value;

    // Lines 147-151: Sex to its one-letter code.
    RecodeStage(tidy, s, pathify, 2, 3, "Sex", Renamer(SexCodes));
    renamed := RenameCategories(tidy, "Sex", Renamer(SexCodes));
    if renamed.Err? {
      return Err(renamed.error);
    }
    tidy := renamed.value;

    // Line 152: Migration Flow categories slugged.
    RecodeStage(tidy, s, pathify, 3, 4, "Migration Flow", Mapper(pathify));
    renamed := RenameCategories(tidy, "Migration Flow", Mapper(pathify));
    if renamed.Err? {
      return Err(renamed.error);
    }
    tidy := renamed.value;

    // Lines 154-155: the output columns, in output order.
    SelectStage(tidy, s, pathify);
    tidy := Select(tidy, OutputColumns).value;
    result := Ok(tidy);
  }

  // ---------------------------------------------------------------------
  // The rows between the steps
  // ---------------------------------------------------------------------

  /** A row with the ten cells every intermediate table has; the
      observation sits under `obsKey` ("OBS", later "Value"). */
  function Staged(obsKey: string, obs: Cell, year: string, geo: string, age: string, sex: string,
                  flow: string, ci: Cell, rev: Cell): Row
  {
    map[obsKey := obs, "Year" := Text(year), "Geography" := Text(geo), "Age" := Text(age),
        "Sex" := Text(sex), "Migration Flow" := Text(flow), "Measure Type" := Text(MeasureType),
        "Unit" := Text(Unit), "CI" := ci, "Revision" := rev]
  }

  const ConcatColumns: seq<string> := DimensionColumns + ["Revision"]

  const RenamedColumns: seq<string> :=
    ["Value", "Year", "Geography", "Age", "Sex", "Migration Flow", "Measure Type", "Unit", "CI", "Revision"]

  /** A row of the concatenated table, with Revision `rev`. */
  function Joined(o: Observation, rev: Cell): Row {
    Staged("OBS", o.obs, o.year, o.geography, AgeLabel(o.age), o.sex, o.flow, Text(o.ci), rev)
  }

  /** A row once its Revision is computed from its CI. */
  function Relabelled(o: Observation): Row {
    Joined(o, RevisionLabel(Text(o.ci)))
  }

  function Blanked(c: Cell): Cell {
    if c == Text("") then Missing else c
  }

  /** A row after the '' to NaN replacement. */
  function Replaced(o: Observation): Row {
    Staged("OBS", Blanked(o.obs), o.year, o.geography, AgeLabel(o.age), o.sex, o.flow,
           Text(o.ci), RevisionLabel(Text(o.ci)))
  }

  /** A row after OBS is renamed to Value. */
  function Renamed(o: Observation): Row {
    Staged("Value", o.obs, o.year, o.geography, AgeLabel(o.age), o.sex, o.flow,
           Text(o.ci), RevisionLabel(Text(o.ci)))
  }

  /** A row with CI coerced to `ci`, after the first `n` category renames
      (Geography, Age, Sex, Migration Flow in that order). */
  function Recoded(o: Observation, ci: Cell, pathify: string -> string, n: nat): Row {
    Staged("Value", o.obs, o.year,
           if n >= 1 then Recode(GeographyCodes, o.geography) else o.geography,
           if n >= 2 then AgeCode(o.age) else AgeLabel(o.age),
           if n >= 3 then Recode(SexCodes, o.sex) else o.sex,
           if n >= 4 then pathify(o.flow) else o.flow,
           ci, RevisionLabel(Text(o.ci)))
  }

  /** The column renamed by rename step `n`, its renamer, and its labels before the step. */
  function StepColumn(n: nat): string {
    if n == 0 then "Geography" else if n == 1 then "Age" else if n == 2 then "Sex" else "Migration Flow"
  }

  function StepRenamer(n: nat, pathify: string -> string): Cell -> Cell {
    if n == 0 then Renamer(GeographyCodes)
    else if n == 1 then Renamer(AgeCodes)
    else if n == 2 then Renamer(SexCodes)
    else Mapper(pathify)
  }

  function StepLabel(o: Observation, n: nat): string {
    if n == 0 then o.geography else if n == 1 then AgeLabel(o.age) else if n == 2 then o.sex else o.flow
  }

  function StepLabels(s: seq<Observation>, n: nat): seq<string> {
    if n == 0 then Geographies(s) else if n == 1 then AgeLabels(s) else if n == 2 then Sexes(s) else Flows(s)
  }

  lemma PadRevised(o: Observation)
    ensures Pad(SegmentRow(o, None), ConcatColumns) == Joined(o, Missing)
  {
    SegmentRowKeys(o, None);
    PadNewColumn(SegmentRow(o, None), DimensionColumns, "Revision");
  }

  lemma PadOriginal(o: Observation)
    ensures Pad(SegmentRow(o, Some(OriginalEstimate)), ConcatColumns) == Joined(o, Text(OriginalEstimate))
  {
    SegmentRowKeys(o, Some(OriginalEstimate));
    PadOwnColumns(SegmentRow(o, Some(OriginalEstimate)), ConcatColumns);
  }

  lemma RelabelRow(o: Observation, rev: Cell)
    ensures RevisionOf(Joined(o, rev)) == Ok(RevisionLabel(Text(o.ci)))
    ensures Joined(o, rev)["Revision" := RevisionLabel(Text(o.ci))] == Relabelled(o)
  {
  }

  lemma RelabelledObs(o: Observation)
    ensures Get(Relabelled(o), "OBS") == o.obs
  {
  }

  lemma ReplaceRow(o: Observation)
    ensures Replaced(o) == if o.obs == Text("") then Relabelled(o)["OBS" := Missing] else Relabelled(o)
  {
    if o.obs != Text("") {
      assert Blanked(o.obs) == o.obs;
    }
  }

  lemma ReplacedObs(o: Observation)
    ensures Get(Replaced(o), "OBS") == Missing <==> !HasValue(o)
  {
  }

  lemma ReplacedKept(o: Observation)
    requires HasValue(o)
    ensures Replaced(o) == Relabelled(o)
  {
    assert Blanked(o.obs) == o.obs;
  }

  lemma RenameRow(o: Observation)
    ensures (Relabelled(o) - {"OBS"})["Value" := Get(Relabelled(o), "OBS")] == Renamed(o)
  {
  }

  lemma CiRow(o: Observation, ci: Cell, pathify: string -> string)
    ensures Get(Renamed(o), "CI") == Text(o.ci)
    ensures Renamed(o)["CI" := ci] == Recoded(o, ci, pathify, 0)
  {
  }

  lemma RecodedGeography(o: Observation, ci: Cell, pathify: string -> string)
    ensures Get(Recoded(o, ci, pathify, 0), "Geography") == Text(o.geography)
    ensures Recoded(o, ci, pathify, 0)["Geography" := Renamer(GeographyCodes)(Text(o.geography))] ==
      Recoded(o, ci, pathify, 1)
  {
  }

  lemma RecodedAge(o: Observation, ci: Cell, pathify: string -> string)
    ensures Get(Recoded(o, ci, pathify, 1), "Age") == Text(AgeLabel(o.age))
    ensures Recoded(o, ci, pathify, 1)["Age" := Renamer(AgeCodes)(Text(AgeLabel(o.age)))] ==
      Recoded(o, ci, pathify, 2)
  {
  }

  lemma RecodedSex(o: Observation, ci: Cell, pathify: string -> string)
    ensures Get(Recoded(o, ci, pathify, 2), "Sex") == Text(o.sex)
    ensures Recoded(o, ci, pathify, 2)["Sex" := Renamer(SexCodes)(Text(o.sex))] == Recoded(o, ci, pathify, 3)
  {
  }

  lemma RecodedFlow(o: Observation, ci: Cell, pathify: string -> string)
    ensures Get(Recoded(o, ci, pathify, 3), "Migration Flow") == Text(o.flow)
    ensures Recoded(o, ci, pathify, 3)["Migration Flow" := Mapper(pathify)(Text(o.flow))] ==
      Recoded(o, ci, pathify, 4)
  {
  }

  /** Rename step `n` turns a row's label into its code and changes nothing else. */
  lemma RecodedRow(o: Observation, ci: Cell, pathify: string -> string, n: nat)
    requires n < 4
    ensures Get(Recoded(o, ci, pathify, n), StepColumn(n)) == Text(StepLabel(o, n))
    ensures Recoded(o, ci, pathify, n)[StepColumn(n) := StepRenamer(n, pathify)(Text(StepLabel(o, n)))] ==
      Recoded(o, ci, pathify, n + 1)
  {
    if n == 0 {
      RecodedGeography(o, ci, pathify);
    } else if n == 1 {
      RecodedAge(o, ci, pathify);
    } else if n == 2 {
      RecodedSex(o, ci, pathify);
    } else {
      RecodedFlow(o, ci, pathify);
    }
  }

  lemma OutputRowOf(o: Observation, ci: Cell, pathify: string -> string)
    ensures Pad(Recoded(o, ci, pathify, 4), OutputColumns) == OutputRow(o, ci, pathify)
  {
    assert Recoded(o, ci, pathify, 4) == OutputRow(o, ci, pathify);
    assert OutputRow(o, ci, pathify).Keys == Labels(OutputColumns);
    PadOwnColumns(OutputRow(o, ci, pathify), OutputColumns);
  }

  // ---------------------------------------------------------------------
  // The table between the steps
  // ---------------------------------------------------------------------

  ghost predicate JoinedFrame(t: Frame, all: seq<Observation>) {
    && t.columns == ConcatColumns && t.categorical == {} && |t.rows| == |all|
    && forall i :: 0 <= i < |all| ==> t.rows[i] == Joined(all[i], Get(t.rows[i], "Revision"))
  }

  ghost predicate RelabelledFrame(t: Frame, all: seq<Observation>) {
    && t.columns == ConcatColumns && t.categorical == {} && |t.rows| == |all|
    && forall i :: 0 <= i < |all| ==> t.rows[i] == Relabelled(all[i])
  }

  ghost predicate ReplacedFrame(t: Frame, all: seq<Observation>) {
    && t.columns == ConcatColumns && t.categorical == {} && |t.rows| == |all|
    && forall i :: 0 <= i < |all| ==> t.rows[i] == Replaced(all[i])
  }

  ghost predicate RenamedFrame(t: Frame, s: seq<Observation>) {
    && t.columns == RenamedColumns && t.categorical == {} && |t.rows| == |s|
    && forall k :: 0 <= k < |s| ==> t.rows[k] == Renamed(s[k])
  }

  /** The table after the CI coercion and the first `n` category renames. */
  ghost predicate RecodedFrame(t: Frame, s: seq<Observation>, pathify: string -> string, n: nat) {
    && CiCoercible(s)
    && t.columns == RenamedColumns && |t.rows| == |s|
    && forall k :: 0 <= k < |s| ==> t.rows[k] == Recoded(s[k], CoerceCi(Text(s[k].ci)).value, pathify, n)
  }

  /** The four renamed columns are categorical. */
  ghost predicate Recodable(t: Frame) {
    "Geography" in t.categorical && "Age" in t.categorical && "Sex" in t.categorical &&
    "Migration Flow" in t.categorical
  }

  // ---------------------------------------------------------------------
  // One lemma per step
  // ---------------------------------------------------------------------

  lemma {:induction false} ExtraSkips(p: seq<string>, e: seq<string>, a: seq<string>)
    requires forall x :: x in p ==> x in a
    ensures Extra(p + e, a) == Extra(e, a)
  {
    if p != [] {
      assert (p + e)[0] == p[0] && p[0] in a;
      assert (p + e)[1..] == p[1..] + e;
      assert Extra(p + e, a) == Extra(p[1..] + e, a);
      ExtraSkips(p[1..], e, a);
    } else {
      assert p + e == e;
    }
  }

  lemma ConcatStage(revised: seq<Observation>, original: seq<Observation>)
    ensures JoinedFrame(Concat(Segment(revised, None), Segment(original, Some(OriginalEstimate))),
                        revised + original)
  {
    var a := Segment(revised, None);
    var b := Segment(original, Some(OriginalEstimate));
    var t := Concat(a, b);
    var all := revised + original;
    ExtraSkips(DimensionColumns, ["Revision"], DimensionColumns);
    assert Extra(["Revision"], DimensionColumns) == ["Revision"];
    assert t.columns == ConcatColumns;
    forall i | 0 <= i < |all| ensures t.rows[i] == Joined(all[i], Get(t.rows[i], "Revision")) {
      if i < |revised| {
        PadRevised(revised[i]);
      } else {
        PadOriginal(original[i - |revised|]);
      }
    }
  }

  /** The Revision apply never raises. On a table with rows it yields each
      row's Revision from its CI; on the table with no rows the empty probe
      row has no CI, so pandas hands back the ten-column table and the
      assignment raises ValueError. */
  lemma RelabelStage(t: Frame, all: seq<Observation>)
    requires JoinedFrame(t, all)
    ensures ApplyRows(t, RevisionOf).Ok?
    ensures var r := AssignApplied(t, "Revision", ApplyRows(t, RevisionOf).value);
      && (r.Ok? <==> |all| > 0)
      && (r.Ok? ==> RelabelledFrame(r.value, all))
  {
    forall i | 0 <= i < |all| ensures RevisionOf(t.rows[i]) == Ok(RevisionLabel(Text(all[i].ci))) {
      RelabelRow(all[i], Get(t.rows[i], "Revision"));
    }
    assert RevisionOf(map[]).Err?;
    var a := ApplyRows(t, RevisionOf).value;
    if |all| > 0 {
      var vals := a.cells;
      var u := AssignColumn(t, "Revision", vals);
      forall i | 0 <= i < |all| ensures u.rows[i] == Relabelled(all[i]) {
        RelabelRow(all[i], Get(t.rows[i], "Revision"));
        assert u.rows[i] == t.rows[i]["Revision" := vals[i]];
      }
    } else {
      assert |t.columns| == 10;
    }
  }

  lemma ReplaceStage(t: Frame, all: seq<Observation>)
    requires RelabelledFrame(t, all)
    ensures ReplaceValue(t, "OBS", Text(""), Missing).Ok?
    ensures ReplacedFrame(ReplaceValue(t, "OBS", Text(""), Missing).value, all)
  {
    var u := ReplaceValue(t, "OBS", Text(""), Missing).value;
    forall i | 0 <= i < |all| ensures u.rows[i] == Replaced(all[i]) {
      RelabelledObs(all[i]);
      ReplaceRow(all[i]);
      assert u.rows[i] == if all[i].obs == Text("") then t.rows[i]["OBS" := Missing] else t.rows[i];
    }
  }

  lemma {:induction false} KeepReplaced(rows: seq<Row>, all: seq<Observation>)
    requires |rows| == |all|
    requires forall i :: 0 <= i < |all| ==> rows[i] == Replaced(all[i])
    ensures |KeepRows(rows, "OBS")| == |Survivors(all)|
    ensures forall k :: 0 <= k < |Survivors(all)| ==> KeepRows(rows, "OBS")[k] == Relabelled(Survivors(all)[k])
  {
    if all != [] {
      var n := |all| - 1;
      KeepReplaced(rows[..n], all[..n]);
      var kept := KeepRows(rows[..n], "OBS");
      var surv := Survivors(all[..n]);
      assert Survivors(all) == surv + (if HasValue(all[n]) then [all[n]] else []);
      ReplacedObs(all[n]);
      if HasValue(all[n]) {
        ReplacedKept(all[n]);
        assert KeepRows(rows, "OBS") == kept + [rows[n]];
      } else {
        assert KeepRows(rows, "OBS") == kept;
      }
    }
  }

  lemma DropStage(t: Frame, all: seq<Observation>)
    requires ReplacedFrame(t, all)
    ensures DropMissing(t, "OBS").Ok?
    ensures RelabelledFrame(DropMissing(t, "OBS").value, Survivors(all))
  {
    KeepReplaced(t.rows, all);
  }

  /** The extracted tables never have a DATAMARKER column. */
  lemma NoDataMarker()
    ensures "DATAMARKER" !in ConcatColumns
  {
  }

  lemma RenamedColumnsOf(t: Frame)
    requires t.columns == ConcatColumns
    ensures "Value" !in t.columns
    ensures RenameColumn(t, "OBS", "Value").columns == RenamedColumns
  {
    var u := RenameColumn(t, "OBS", "Value");
    assert |u.columns| == |RenamedColumns|;
    forall j | 0 <= j < |RenamedColumns| ensures u.columns[j] == RenamedColumns[j] {
      assert u.columns[j] == if ConcatColumns[j] == "OBS" then "Value" else ConcatColumns[j];
    }
  }

  lemma RenameStage(t: Frame, s: seq<Observation>)
    requires RelabelledFrame(t, s)
    ensures "DATAMARKER" !in t.columns && "Value" !in t.columns
    ensures RenamedFrame(RenameColumn(t, "OBS", "Value"), s)
  {
    RenamedColumnsOf(t);
    NoDataMarker();
    assert t.columns[0] == "OBS";
    var u := RenameColumn(t, "OBS", "Value");
    forall k | 0 <= k < |s| ensures u.rows[k] == Renamed(s[k]) {
      RenameRow(s[k]);
      assert u.rows[k] == (t.rows[k] - {"OBS"})["Value" := Get(t.rows[k], "OBS")];
    }
  }

  lemma CiCells(t: Frame, s: seq<Observation>, pathify: string -> string)
    requires RenamedFrame(t, s)
    ensures "CI" in t.columns
    ensures forall k :: 0 <= k < |s| ==> Get(t.rows[k], "CI") == Text(s[k].ci)
  {
    assert t.columns[8] == "CI";
    forall k | 0 <= k < |s| ensures Get(t.rows[k], "CI") == Text(s[k].ci) {
      CiRow(s[k], Text(s[k].ci), pathify);
    }
  }

  lemma CiStage(t: Frame, s: seq<Observation>, pathify: string -> string)
    requires RenamedFrame(t, s)
    ensures MapColumn(t, "CI", CoerceCi).Ok? <==> CiCoercible(s)
    ensures MapColumn(t, "CI", CoerceCi).Err? ==> MapColumn(t, "CI", CoerceCi).error.IntValueError?
    ensures MapColumn(t, "CI", CoerceCi).Ok? ==>
      && MapColumn(t, "CI", CoerceCi).value.categorical == {}
      && RecodedFrame(MapColumn(t, "CI", CoerceCi).value, s, pathify, 0)
  {
    CiCells(t, s, pathify);
    var r := MapColumn(t, "CI", CoerceCi);
    if r.Ok? {
      var vals := MapAll(Column(t, "CI"), CoerceCi).value;
      assert r.value == AssignColumn(t, "CI", vals);
      forall k | 0 <= k < |s| ensures r.value.rows[k] == Recoded(s[k], CoerceCi(Text(s[k].ci)).value, pathify, 0) {
        CiRow(s[k], CoerceCi(Text(s[k].ci)).value, pathify);
        assert r.value.rows[k] == t.rows[k]["CI" := vals[k]];
      }
    }
  }

  lemma CategorizeStage(t: Frame, u: Frame, s: seq<Observation>, pathify: string -> string)
    requires RecodedFrame(t, s, pathify, 0)
    requires u.columns == t.columns && u.rows == t.rows
    requires forall c :: c in u.categorical <==> c in t.categorical || (c in t.columns && c !in NonCategorical)
    ensures RecodedFrame(u, s, pathify, 0) && Recodable(u)
  {
    assert RenamedColumns[2] == "Geography" && RenamedColumns[3] == "Age";
    assert RenamedColumns[4] == "Sex" && RenamedColumns[5] == "Migration Flow";
  }

  /** A column whose every cell is a string has those strings as its categories. */
  lemma CategoriesOfTexts(t: Frame, col: string, labels: seq<string>)
    requires |t.rows| == |labels|
    requires forall k :: 0 <= k < |labels| ==> Get(t.rows[k], col) == Text(labels[k])
    ensures Categories(t, col) == TextSet(labels)
  {
    forall x | x in TextSet(labels) ensures x in Categories(t, col) {
      var k :| 0 <= k < |labels| && x == Text(labels[k]);
      assert Get(t.rows[k], col) == x;
    }
  }

  lemma StepCells(t: Frame, s: seq<Observation>, pathify: string -> string, n: nat)
    requires n < 4 && RecodedFrame(t, s, pathify, n)
    ensures forall k :: 0 <= k < |s| ==> Get(t.rows[k], StepColumn(n)) == Text(StepLabels(s, n)[k])
  {
    forall k | 0 <= k < |s| ensures Get(t.rows[k], StepColumn(n)) == Text(StepLabels(s, n)[k]) {
      assert StepLabels(s, n)[k] == StepLabel(s[k], n);
      RecodedRow(s[k], CoerceCi(Text(s[k].ci)).value, pathify, n);
    }
  }

  lemma StepRows(t: Frame, s: seq<Observation>, pathify: string -> string, n: nat)
    requires n < 4 && RecodedFrame(t, s, pathify, n) && Recodable(t)
    requires RenameCategories(t, StepColumn(n), StepRenamer(n, pathify)).Ok?
    ensures RecodedFrame(RenameCategories(t, StepColumn(n), StepRenamer(n, pathify)).value, s, pathify, n + 1)
  {
    var col := StepColumn(n);
    var g := StepRenamer(n, pathify);
    var u := RenameCategories(t, col, g).value;
    forall k | 0 <= k < |s| ensures u.rows[k] == Recoded(s[k], CoerceCi(Text(s[k].ci)).value, pathify, n + 1) {
      RecodedRow(s[k], CoerceCi(Text(s[k].ci)).value, pathify, n);
      assert u.rows[k] == t.rows[k][col := g(t.rows[k][col])];
    }
  }

  lemma RecodeStage(t: Frame, s: seq<Observation>, pathify: string -> string, n: nat, next: nat,
                    col: string, g: Cell -> Cell)
    requires n < 4 && next == n + 1 && RecodedFrame(t, s, pathify, n) && Recodable(t)
    requires col == StepColumn(n) && g == StepRenamer(n, pathify)
    ensures var r := RenameCategories(t, col, g);
      && (r.Ok? <==> InjectiveOn(g, TextSet(StepLabels(s, n))))
      && (r.Err? ==> r.error == NonUniqueCategories(col))
      && (r.Ok? ==> RecodedFrame(r.value, s, pathify, next) && Recodable(r.value))
  {
    StepCells(t, s, pathify, n);
    CategoriesOfTexts(t, StepColumn(n), StepLabels(s, n));
    if RenameCategories(t, StepColumn(n), StepRenamer(n, pathify)).Ok? {
      StepRows(t, s, pathify, n);
    }
  }

  lemma OutputColumnsDistinct()
    ensures Distinct(OutputColumns)
  {
  }

  lemma SelectStage(t: Frame, s: seq<Observation>, pathify: string -> string)
    requires RecodedFrame(t, s, pathify, 4)
    ensures Distinct(OutputColumns)
    ensures Select(t, OutputColumns).Ok?
    ensures var u := Select(t, OutputColumns).value;
      && u.columns == OutputColumns && |u.rows| == |s|
      && forall k :: 0 <= k < |s| ==> u.rows[k] == OutputRow(s[k], CoerceCi(Text(s[k].ci)).value, pathify)
  {
    OutputColumnsDistinct();
    var u := Select(t, OutputColumns).value;
    forall k | 0 <= k < |s| ensures u.rows[k] == OutputRow(s[k], CoerceCi(Text(s[k].ci)).value, pathify) {
      OutputRowOf(s[k], CoerceCi(Text(s[k].ci)).value, pathify);
    }
  }
}
