/** The two tables the spreadsheet conversion produces, taken as input.
    How databaker finds each observation's header cells is not modelled: an
    `Observation` holds the values its dimension lookups resolved to. What is
    modelled is the dimension list of each ConversionSegment: the constant
    dimensions, the Age value overrides, and the constant Revision that only
    the original-estimates segment carries. */
module Extraction {
  import opened Wrappers
  import opened Frames
  import opened Rules

  /** One observation cell with the raw values of its dimensions: the
      observation itself (possibly empty or NaN), the Year, Geography, Age,
      Sex and Migration Flow headers, and the CI cell to its right, all as
      the sheet's text. */
  datatype Observation = Observation(
    obs: Cell, year: string, geography: string, age: string, sex: string, flow: string, ci: string)

  const MeasureType := "Count"
  const Unit := "People (thousands)"

  /** The columns of a converted segment, observation first. */
  const DimensionColumns: seq<string> :=
    ["OBS", "Year", "Geography", "Age", "Sex", "Migration Flow", "Measure Type", "Unit", "CI"]

  function SegmentColumns(revision: Option<string>): seq<string> {
    match revision
    case None => DimensionColumns
    case Some(_) => DimensionColumns + ["Revision"]
  }

  /** The Age value after the dimension's value overrides. */
  function AgeLabel(raw: string): string {
    Recode(AgeOverrides, raw)
  }

  function SegmentRow(o: Observation, revision: Option<string>): Row {
    var r := map["OBS" := o.obs, "Year" := Text(o.year), "Geography" := Text(o.geography),
                 "Age" := Text(AgeLabel(o.age)), "Sex" := Text(o.sex), "Migration Flow" := Text(o.flow),
                 "Measure Type" := Text(MeasureType), "Unit" := Text(Unit), "CI" := Text(o.ci)];
    match revision
    case None => r
    case Some(v) => r["Revision" := Text(v)]
  }

  /** `ConversionSegment(cells, dimensions).topandas()`: one row per
      observation, with every constant dimension filled in on every row. */
  function Segment(obs: seq<Observation>, revision: Option<string>): (f: Frame)
    ensures WellFormed(f)
    ensures f.columns == SegmentColumns(revision) && f.categorical == {}
    ensures |f.rows| == |obs|
    ensures forall i :: 0 <= i < |obs| ==>
      && Get(f.rows[i], "Measure Type") == Text(MeasureType)
      && Get(f.rows[i], "Unit") == Text(Unit)
      && Get(f.rows[i], "Age") == Text(AgeLabel(obs[i].age))
      && Get(f.rows[i], "Revision") == (if revision.Some? then Text(revision.value) else Missing)
  {
    var f := Frame(SegmentColumns(revision), {}, seq(|obs|, i requires 0 <= i < |obs| => SegmentRow(obs[i], revision)));
    SegmentColumnsDistinct(revision);
    forall i | 0 <= i < |obs| ensures SegmentRowShape(f.rows[i], obs[i], revision) {
      SegmentRowKeys(obs[i], revision);
    }
    f
  }

  lemma SegmentColumnsDistinct(revision: Option<string>)
    ensures Distinct(SegmentColumns(revision))
  {
  }

  predicate SegmentRowShape(r: Row, o: Observation, revision: Option<string>) {
    && r.Keys == Labels(SegmentColumns(revision))
    && Get(r, "Measure Type") == Text(MeasureType)
    && Get(r, "Unit") == Text(Unit)
    && Get(r, "Age") == Text(AgeLabel(o.age))
    && Get(r, "Revision") == (if revision.Some? then Text(revision.value) else Missing)
  }

  lemma SegmentRowKeys(o: Observation, revision: Option<string>)
    ensures SegmentRowShape(SegmentRow(o, revision), o, revision)
  {
  }
}
