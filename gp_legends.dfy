/**
 * Threshold legends: the `thresholdLegends` setter as written and as evidently
 * intended, and the annotation `create` applies to a threshold graph point.
 */
module ThresholdLegends {
  import opened Wrappers
  import opened PyValues

  // ---------------------------------------------------------------------
  // thresholdLegends
  // ---------------------------------------------------------------------

  /** One legend entry with its `legend` and `color` keys filled in (absent ones become None). */
  function NormalizeLegendEntry(m: map<string, Value>): (r: map<string, Value>)
    ensures "legend" in r && "color" in r
  {
    m["legend" := DictGet(m, "legend")]["color" := DictGet(m, "color")]
  }

  /** Normalising adds only the two keys, as None when absent, and keeps every value there was. */
  lemma NormalizeLegendEntryKeeps(m: map<string, Value>)
    ensures var r := NormalizeLegendEntry(m);
            && r.Keys == m.Keys + {"legend", "color"}
            && (forall k :: k in m ==> r[k] == m[k])
            && ("legend" !in m ==> r["legend"] == NoneVal)
            && ("color" !in m ==> r["color"] == NoneVal)
  {
  }

  predicate IsLegendEntry(v: Value) {
    v.DictVal? && "legend" in v.entries && "color" in v.entries
  }

  predicate LegendsNormalized(m: map<string, Value>) {
    forall k :: k in m ==> IsLegendEntry(m[k])
  }

  /** The mapping the setter stores, by the input's shape; None for a shape it rejects. */
  function LegendsShape(value: Value): (r: Option<map<string, Value>>)
    ensures r.Some? <==> value.NoneVal? || value.DictVal? || value.StrVal?
    ensures value.NoneVal? ==> r == Some(map[])
    ensures value.DictVal? ==> r == Some(value.entries)
    ensures value.StrVal? ==> r == Some(map[value.s := NoneVal])
  {
    match value
    case NoneVal => Some(map[])
    case DictVal(m) => Some(m)
    case StrVal(s) => Some(map[s := NoneVal])
    case _ => None
  }

  function LegendsShapeMessage(value: Value): string {
    "thresholdLegends must be specified as a dict or string (got " + Render(value) + ")"
  }

  /**
   * The normalising loop of the setter as written, over the stored mapping:
   * every entry must be a dict, which gains `legend` and `color` keys; any
   * other entry makes the item assignment raise TypeError.
   */
  function NormalizeEntries(m: map<string, Value>): (r: Result<map<string, Value>, Error>)
    ensures r.Success? <==> forall k :: k in m ==> m[k].DictVal?
    ensures r.Failure? ==> r.error == TypeError
    ensures r.Success? ==> LegendsNormalized(r.value) && r.value.Keys == m.Keys
    ensures r.Success? ==> forall k :: k in m ==> r.value[k] == DictVal(NormalizeLegendEntry(m[k].entries))
  {
    if forall k :: k in m ==> m[k].DictVal? then
      Success(map k | k in m :: DictVal(NormalizeLegendEntry(m[k].entries)))
    else Failure(TypeError)
  }

  /** Normalising already normalised legends gives them back. */
  lemma NormalizeEntriesFixed(m: map<string, Value>)
    requires LegendsNormalized(m)
    ensures NormalizeEntries(m) == Success(m)
  {
    forall k | k in m
      ensures DictVal(NormalizeLegendEntry(m[k].entries)) == m[k]
    {
      NormalizedEntryFixed(m[k].entries);
    }
    assert (map k | k in m :: DictVal(NormalizeLegendEntry(m[k].entries))) == m;
  }

  /** An entry that already has both keys is its own normal form. */
  lemma NormalizedEntryFixed(e: map<string, Value>)
    requires "legend" in e && "color" in e
    ensures NormalizeLegendEntry(e) == e
  {
  }

  /**
   * The `thresholdLegends` setter as written: a rejected shape raises
   * ValueError; otherwise the stored mapping's entries are normalised, and
   * the None the string shorthand stores makes that raise TypeError.
   */
  function LegendsAsWritten(value: Value): (r: Result<map<string, Value>, Error>)
    ensures LegendsShape(value).None? ==> r == Failure(ValueError(LegendsShapeMessage(value)))
    ensures LegendsShape(value).Some? ==> r == NormalizeEntries(LegendsShape(value).value)
    ensures r.Success? ==> LegendsNormalized(r.value)
  {
    match LegendsShape(value)
    case None => Failure(ValueError(LegendsShapeMessage(value)))
    case Some(m) => NormalizeEntries(m)
  }

  /** Each entry keeps what it held; a missing `legend` or `color` becomes None. */
  lemma LegendsKeepEntries(value: Value)
    requires LegendsAsWritten(value).Success?
    ensures var m := LegendsShape(value).value;
            var r := LegendsAsWritten(value).value;
            && r.Keys == m.Keys
            && (forall k, f :: k in m && m[k].DictVal? && f in m[k].entries ==>
                  f in r[k].entries && r[k].entries[f] == m[k].entries[f])
            && (forall k :: k in m && m[k].DictVal? && "legend" !in m[k].entries ==> r[k].entries["legend"] == NoneVal)
            && (forall k :: k in m && m[k].DictVal? && "color" !in m[k].entries ==> r[k].entries["color"] == NoneVal)
  {
  }

  /** Setting the normalised legends again gives them back unchanged. */
  lemma LegendsIdempotent(value: Value)
    requires LegendsAsWritten(value).Success?
    ensures LegendsAsWritten(DictVal(LegendsAsWritten(value).value)) == LegendsAsWritten(value)
  {
    var m := LegendsAsWritten(value).value;
    assert LegendsShape(DictVal(m)) == Some(m);
    NormalizeEntriesFixed(m);
  }

  /** An entry the intended setter gives every non-dict value. */
  const DefaultLegendEntry: Value := DictVal(map["legend" := NoneVal, "color" := NoneVal])

  /** The intended per-entry step: a dict gains `legend` and `color`, anything else becomes the default entry. */
  function NormalizeLegendValue(v: Value): (r: Value)
    ensures IsLegendEntry(r)
  {
    if v.DictVal? then DictVal(NormalizeLegendEntry(v.entries)) else DefaultLegendEntry
  }

  /** A legend entry is its own normal form. */
  lemma NormalizeLegendValueFixed(v: Value)
    requires IsLegendEntry(v)
    ensures NormalizeLegendValue(v) == v
  {
    NormalizedEntryFixed(v.entries);
  }

  /** The intended loop over the stored mapping: every entry normalised, none rejected. */
  function NormalizeAllEntries(m: map<string, Value>): (r: map<string, Value>)
    ensures LegendsNormalized(r) && r.Keys == m.Keys
    ensures forall k :: k in m ==> r[k] == NormalizeLegendValue(m[k])
  {
    map k | k in m :: NormalizeLegendValue(m[k])
  }

  /** Normalising normalised legends gives them back. */
  lemma NormalizeAllEntriesFixed(m: map<string, Value>)
    requires LegendsNormalized(m)
    ensures NormalizeAllEntries(m) == m
  {
    forall k | k in m
      ensures NormalizeLegendValue(m[k]) == m[k]
    {
      NormalizeLegendValueFixed(m[k]);
    }
  }

  /**
   * The setter as evidently intended: a non-dict entry (the string shorthand
   * in particular) becomes `{'legend': None, 'color': None}`.
   */
  function LegendsIntended(value: Value): (r: Result<map<string, Value>, Error>)
    ensures r.Failure? <==> LegendsShape(value).None?
    ensures r.Failure? ==> r.error == ValueError(LegendsShapeMessage(value))
    ensures r.Success? ==> LegendsNormalized(r.value) && r.value.Keys == LegendsShape(value).value.Keys
  {
    match LegendsShape(value)
    case None => Failure(ValueError(LegendsShapeMessage(value)))
    case Some(m) => Success(NormalizeAllEntries(m))
  }

  /** Setting the stored legends again gives them back unchanged. */
  lemma LegendsIntendedIdempotent(value: Value)
    requires LegendsIntended(value).Success?
    ensures LegendsIntended(DictVal(LegendsIntended(value).value)) == LegendsIntended(value)
  {
    var m := LegendsIntended(value).value;
    assert LegendsShape(DictVal(m)) == Some(m);
    NormalizeAllEntriesFixed(m);
  }

  /** The string shorthand: raises as written, gives one default entry as intended. */
  lemma StringShorthandFails(s: string)
    ensures LegendsAsWritten(StrVal(s)) == Failure(TypeError)
    ensures LegendsIntended(StrVal(s)) == Success(map[s := DefaultLegendEntry])
  {
    var m := LegendsShape(StrVal(s)).value;
    assert m[s] == NoneVal;
    assert NormalizeAllEntries(m) == map[s := DefaultLegendEntry];
  }

  /** Wherever the setter as written succeeds, the intended one gives the same legends. */
  lemma LegendsIntendedAgrees(value: Value)
    requires LegendsAsWritten(value).Success?
    ensures LegendsIntended(value) == LegendsAsWritten(value)
  {
    var m := LegendsShape(value).value;
    assert forall k :: k in m ==> m[k].DictVal?;
    assert NormalizeAllEntries(m) == NormalizeEntries(m).value;
  }

  /** `{"X": {"legend": "L"}}` becomes `{"X": {"legend": "L", "color": None}}`. */
  lemma LegendsFillColor(id: string, legend: string)
    ensures LegendsAsWritten(DictVal(map[id := DictVal(map["legend" := StrVal(legend)])]))
            == Success(map[id := DictVal(map["legend" := StrVal(legend), "color" := NoneVal])])
  {
    var e := map["legend" := StrVal(legend)];
    var m := map[id := DictVal(e)];
    assert LegendsShape(DictVal(m)) == Some(m);
    assert NormalizeLegendEntry(e) == map["legend" := StrVal(legend), "color" := NoneVal];
    assert (map k | k in m :: DictVal(NormalizeLegendEntry(m[k].entries)))
        == map[id := DictVal(map["legend" := StrVal(legend), "color" := NoneVal])];
  }

  // ---------------------------------------------------------------------
  // create(): threshold annotation
  // ---------------------------------------------------------------------

  /**
   * One threshold graph point of the `includeThresholds` loop: with a legend
   * entry for its id, a truthy legend is set as is and a truthy colour as its
   * `str()`; nothing else changes.
   */
  function AnnotateThreshold(attrs: map<string, Value>, entry: Value): (r: map<string, Value>)
    requires entry.NoneVal? || entry.DictVal?
    ensures r.Keys == attrs.Keys + (if "legend" in r then {"legend"} else {}) + (if "color" in r then {"color"} else {})
    ensures forall k :: k in attrs && k != "legend" && k != "color" ==> r[k] == attrs[k]
    ensures !Truthy(entry) ==> r == attrs
    ensures entry.DictVal? && Truthy(DictGet(entry.entries, "legend")) ==>
              "legend" in r && r["legend"] == DictGet(entry.entries, "legend")
    ensures entry.DictVal? && Truthy(DictGet(entry.entries, "color")) ==>
              "color" in r && r["color"] == StrVal(Render(DictGet(entry.entries, "color")))
    ensures (entry.NoneVal? || !Truthy(DictGet(entry.entries, "legend"))) ==>
              ("legend" in r <==> "legend" in attrs) && ("legend" in attrs ==> r["legend"] == attrs["legend"])
    ensures (entry.NoneVal? || !Truthy(DictGet(entry.entries, "color"))) ==>
              ("color" in r <==> "color" in attrs) && ("color" in attrs ==> r["color"] == attrs["color"])
  {
    if !Truthy(entry) then attrs
    else
      var legend := DictGet(entry.entries, "legend");
      var color := DictGet(entry.entries, "color");
      var a := if Truthy(legend) then attrs["legend" := legend] else attrs;
      if Truthy(color) then a["color" := StrVal(Render(color))] else a
  }

  /** Annotating twice with the same entry is annotating once. */
  lemma AnnotateThresholdIdempotent(attrs: map<string, Value>, entry: Value)
    requires entry.NoneVal? || entry.DictVal?
    ensures AnnotateThreshold(AnnotateThreshold(attrs, entry), entry) == AnnotateThreshold(attrs, entry)
  {
  }
}
