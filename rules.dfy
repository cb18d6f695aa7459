/** The per-value rules of the cleanup script: the Revision relabelling,
    the CI coercion, the Age value overrides and the code tables the
    categorical columns are renamed through. */
module Rules {
  import opened Wrappers
  import opened Frames
  import PyInt

  const CensusRevision := "2011 Census Revision"
  const OriginalEstimate := "Original Estimate"

  // ---------------------------------------------------------------------
  // Revision: the census revision exactly when the CI is a colon
  // ---------------------------------------------------------------------

  function RevisionLabel(ci: Cell): Cell {
    if ci == Text(":") then Text(CensusRevision) else Text(OriginalEstimate)
  }

  /** The row function applied along the rows; reading a row
      without a CI cell raises KeyError. */
  function RevisionOf(row: Row): (r: Result<Cell, Error>)
    ensures r.Err? <==> "CI" !in row
    ensures r.Ok? ==> (r.value == Text(CensusRevision) <==> row["CI"] == Text(":"))
    ensures r.Ok? ==> (r.value == Text(OriginalEstimate) <==> row["CI"] != Text(":"))
  {
    if "CI" in row then Ok(RevisionLabel(row["CI"])) else Err(KeyError("CI"))
  }

  // ---------------------------------------------------------------------
  // CI: a colon, an integral float text, or anything else
  // ---------------------------------------------------------------------

  predicate EndsWith(s: string, suffix: string) {
    |suffix| <= |s| && s[|s| - |suffix|..] == suffix
  }

  /** The function mapped over the CI column. A NaN or a number has no
      `endswith`, so Python raises AttributeError for it; int() raises
      ValueError for a prefix that is not an integer literal. */
  function CoerceCi(x: Cell): (r: Result<Cell, Error>)
    ensures x == Text(":") ==> r == Ok(Text(""))
    ensures x.Text? && x.s != ":" && EndsWith(x.s, ".0") ==>
      match PyInt.Parse(x.s[..|x.s| - 2])
      case Some(n) => r == Ok(Int(n))
      case None => r == Err(IntValueError(x.s[..|x.s| - 2]))
    ensures x.Text? && x.s != ":" && !EndsWith(x.s, ".0") ==> r == Ok(Text("ERR"))
    ensures !x.Text? ==> r == Err(AttributeError("endswith"))
  {
    if x == Text(":") then Ok(Text(""))
    else if !x.Text? then Err(AttributeError("endswith"))
    else if EndsWith(x.s, ".0") then
      var prefix := x.s[..|x.s| - 2];
      match PyInt.Parse(prefix)
      case Some(n) => Ok(Int(n))
      case None => Err(IntValueError(prefix))
    else Ok(Text("ERR"))
  }

  /** The text `str(n) + '.0'`, which is what Python prints for an integral
      float below 10^16, coerces back to n. */
  lemma CoerceCiRoundTrip(n: int)
    ensures CoerceCi(Text(PyInt.Str(n) + ".0")) == Ok(Int(n))
  {
    var s := PyInt.Str(n) + ".0";
    assert s[..|s| - 2] == PyInt.Str(n);
    assert EndsWith(s, ".0");
    PyInt.ParseStr(n);
  }

  /** A coerced CI is never a placeholder colon and never NaN: it is the empty
      string, an integer, or the 'ERR' marker. */
  lemma CoercedCiShape(x: Cell)
    requires CoerceCi(x).Ok?
    ensures CoerceCi(x) == Ok(Text("")) <==> x == Text(":")
    ensures CoerceCi(x).value.Int? || CoerceCi(x).value == Text("") || CoerceCi(x).value == Text("ERR")
  {
  }

  /** ".0" alone is refused, since int('') raises ValueError. */
  lemma BarePointZeroFails()
    ensures CoerceCi(Text(".0")) == Err(IntValueError(""))
  {
    PyInt.NeedsADigit("");
  }

  // ---------------------------------------------------------------------
  // Label overrides and code tables
  // ---------------------------------------------------------------------

  /** The Age header texts rewritten during extraction (footnote digits dropped). */
  const AgeOverrides: map<string, string> :=
    map["45-59/642" := "45-59/64", "60/65 and over3" := "60/65 and over", "All Ages" := "All ages"]

  const GeographyCodes: map<string, string> :=
    map["United Kingdom" := "K02000001", "England and Wales" := "K04000001"]

  const AgeCodes: map<string, string> :=
    map["15-24" := "agr/15-24", "25-44" := "agr/25-44", "45-59/64" := "agr/45-59-or-64",
        "60/65 and over" := "agr/60-or-65-and-over", "All ages" := "all", "Under 15" := "agr/under-15"]

  const SexCodes: map<string, string> :=
    map["Females" := "F", "Males" := "M", "Persons" := "T"]

  /** A label looked up in a table, passing through when the table lacks it. */
  function Recode(m: map<string, string>, name: string): string {
    if name in m then m[name] else name
  }

  /** The category renamer of `rename_categories(m)`: strings are looked up,
      other values pass through. */
  function RecodeCell(m: map<string, string>, x: Cell): Cell {
    if x.Text? then Text(Recode(m, x.s)) else x
  }

  function Renamer(m: map<string, string>): Cell -> Cell {
    (x: Cell) => RecodeCell(m, x)
  }

  /** The category renamer of `categories.map(pathify)`. */
  function Mapper(g: string -> string): Cell -> Cell {
    (x: Cell) => if x.Text? then Text(g(x.s)) else x
  }

  /** The Age label that ends in the table: override first, code second. */
  function AgeCode(raw: string): string {
    Recode(AgeCodes, Recode(AgeOverrides, raw))
  }

  /** Each overridden raw Age header ends as the code of its corrected label;
      the raw text never survives. */
  lemma AgeOverridesFeedRecode()
    ensures AgeCode("45-59/642") == "agr/45-59-or-64"
    ensures AgeCode("60/65 and over3") == "agr/60-or-65-and-over"
    ensures AgeCode("All Ages") == "all"
    ensures forall raw :: raw in AgeOverrides ==> AgeCode(raw) != raw && AgeCode(raw) in AgeCodes.Values
  {
  }

  /** A table whose codes are distinct and are not themselves labels of the table. */
  predicate CodeTable(m: map<string, string>) {
    && (forall a, b :: a in m && b in m && m[a] == m[b] ==> a == b)
    && (forall a :: a in m ==> m[a] !in m)
  }

  lemma GeographyCodeTable()
    ensures CodeTable(GeographyCodes)
  {
    assert forall a :: a in GeographyCodes ==> GeographyCodes[a] !in GeographyCodes;
    assert forall a, b :: a in GeographyCodes && b in GeographyCodes && GeographyCodes[a] == GeographyCodes[b] ==> a == b;
  }

  lemma AgeCodeTable()
    ensures CodeTable(AgeCodes)
  {
    assert forall a :: a in AgeCodes ==> AgeCodes[a] !in AgeCodes;
    assert forall a, b :: a in AgeCodes && b in AgeCodes && AgeCodes[a] == AgeCodes[b] ==> a == b;
  }

  lemma SexCodeTable()
    ensures CodeTable(SexCodes)
  {
    assert forall a :: a in SexCodes ==> SexCodes[a] !in SexCodes;
    assert forall a, b :: a in SexCodes && b in SexCodes && SexCodes[a] == SexCodes[b] ==> a == b;
  }

  /** Renaming the categories through a code table fails exactly when some
      label and its own code are both among the categories. */
  lemma {:induction false} RenameCollision(m: map<string, string>, cats: set<Cell>)
    requires CodeTable(m)
    ensures InjectiveOn(Renamer(m), cats) <==>
      forall k :: k in m && Text(k) in cats ==> Text(m[k]) !in cats
  {
    var g := Renamer(m);
    if InjectiveOn(g, cats) {
      forall k | k in m && Text(k) in cats ensures Text(m[k]) !in cats {
        assert g(Text(k)) == Text(m[k]);
      }
    } else {
      var a, b :| a in cats && b in cats && g(a) == g(b) && a != b;
      assert a.Text? && b.Text?;
      if a.s in m && b.s in m {
        assert false;
      } else if a.s in m {
        assert Text(m[a.s]) == b;
      } else {
        assert Text(m[b.s]) == a;
      }
    }
  }

  /** Geography is renamed without error unless a name and its GSS code are both present. */
  lemma GeographyRenameFails(cats: set<Cell>)
    ensures !InjectiveOn(Renamer(GeographyCodes), cats) <==>
      (Text("United Kingdom") in cats && Text("K02000001") in cats) ||
      (Text("England and Wales") in cats && Text("K04000001") in cats)
  {
    GeographyCodeTable();
    RenameCollision(GeographyCodes, cats);
  }

  /** A label absent from a table is left exactly as it was. */
  lemma UnmappedUnchanged(m: map<string, string>, x: Cell)
    requires !x.Text? || x.s !in m
    ensures Renamer(m)(x) == x
  {
  }
}
