/**
 * GraphPointSpec: normalises one graph-point declaration (dpName shorthand,
 * colour by palette index, lineType and cFunc checks, threshold legends) and
 * creates the graph point on a graph, overlaying its extra params and
 * annotating the graph's existing threshold graph points.
 */
module GraphPointSpecs {
  import opened Wrappers
  import opened PyValues
  import opened GraphHost
  import opened GraphPointNames
  import opened GraphPointColor
  import opened ExtraParams
  import opened ThresholdLegends

  /**
   * What the host platform contributes: `GraphPoint.colors`, the values of
   * `ComplexGraphPoint.lineTypeOptions`, and the outcome of `str(Color(color))`
   * for the colour this spec is given (the Color class may raise).
   */
  datatype Host = Host(palette: seq<string>, lineTypes: seq<string>, madeColor: Result<string, Error>)

  // ---------------------------------------------------------------------
  // The normalised declaration (`__init__`)
  // ---------------------------------------------------------------------

  /** The fields of a constructed GraphPointSpec. */
  datatype SpecState = SpecState(
    name: string,
    typeName: string,
    color: Option<string>,
    includeThresholds: bool,
    thresholdLegends: map<string, Value>,
    dpName: Option<string>,
    colorindex: Value,
    extraParams: Entries)

  /** The colour after `__init__`: a truthy colorindex overrides the given colour. */
  function ResolvedColor(given: Option<string>, colorindex: Value, palette: seq<string>): (r: Result<Option<string>, Error>)
    ensures !Truthy(colorindex) ==> r == Success(given)
    ensures Truthy(colorindex) ==> r.Success? == PaletteColor(colorindex, palette).Success?
    ensures Truthy(colorindex) && r.Success? ==> r.value == Some(PaletteColor(colorindex, palette).value)
    ensures Truthy(colorindex) && r.Failure? ==> r.error == PaletteColor(colorindex, palette).error
  {
    if Truthy(colorindex) then
      match PaletteColor(colorindex, palette)
      case Success(c) => Success(Some(c))
      case Failure(e) => Failure(e)
    else Success(given)
  }

  /** The extra params after `__init__`: none given is an empty mapping, given ones are validated. */
  function InitialExtraParams(extraParams: Option<Entries>, lineTypes: seq<string>): (r: Result<Entries, Error>)
    ensures extraParams.None? ==> r == Success([])
    ensures extraParams.Some? ==> r == ValidatedExtraParams(extraParams.value, lineTypes)
  {
    if extraParams.None? then Success([]) else ValidatedExtraParams(extraParams.value, lineTypes)
  }

  /** The keyword arguments of `GraphPointSpec(...)` that the model keeps. */
  datatype Declaration = Declaration(
    name: string,
    typeName: string,
    dpName: Option<string>,
    colorindex: Value,
    color: Value,
    includeThresholds: bool,
    thresholdLegends: Value,
    /** An OrderedDict: its keys are distinct, and repeated keys are outside the model. */
    extraParams: Option<Entries>)

  /**
   * `GraphPointSpec.__init__`, step by step in the source's order: the given
   * colour, the threshold legends, then the dpName shorthand, the colour
   * index and the extra params. The first step that raises decides the error.
   */
  function InitSpec(d: Declaration, host: Host): (r: Result<SpecState, Error>)
    ensures r.Success? ==> LegendsNormalized(r.value.thresholdLegends)
    ensures r.Success? ==>
              r.value.name == d.name && r.value.typeName == d.typeName &&
              r.value.includeThresholds == d.includeThresholds && r.value.colorindex == d.colorindex
  {
    var given :- GivenColor(d.color, host.madeColor);
    var legends :- LegendsIntended(d.thresholdLegends);
    InitSpecRest(FirstHalf(d, given, legends), d, host)
  }

  /** The state once the colour and the legends are set. */
  function FirstHalf(d: Declaration, given: Option<string>, legends: map<string, Value>): SpecState {
    SpecState(d.name, d.typeName, given, d.includeThresholds, legends, None, NoneVal, [])
  }

  /** The second half of `__init__`: dpName, colour index and extra params, over the state the first half left. */
  function InitSpecRest(s: SpecState, d: Declaration, host: Host): (r: Result<SpecState, Error>)
    ensures r.Success? ==> r.value.thresholdLegends == s.thresholdLegends && r.value.colorindex == d.colorindex
    ensures r.Success? ==> r.value.name == s.name && r.value.typeName == s.typeName
    ensures r.Success? ==> r.value.includeThresholds == s.includeThresholds
  {
    var resolved :- ResolvedColor(s.color, d.colorindex, host.palette);
    var ps :- InitialExtraParams(d.extraParams, host.lineTypes);
    Success(s.(color := resolved, dpName := ExpandDpName(d.dpName), colorindex := d.colorindex, extraParams := ps))
  }

  /** The rest of `__init__` raises the colour index's error, else the extra params' error, else succeeds. */
  lemma InitSpecRestSteps(s: SpecState, d: Declaration, host: Host)
    ensures var resolved := ResolvedColor(s.color, d.colorindex, host.palette);
            var ps := InitialExtraParams(d.extraParams, host.lineTypes);
            && (resolved.Failure? ==> InitSpecRest(s, d, host) == Failure(resolved.error))
            && (resolved.Success? && ps.Failure? ==> InitSpecRest(s, d, host) == Failure(ps.error))
            && (resolved.Success? && ps.Success? ==>
                  InitSpecRest(s, d, host) ==
                  Success(s.(color := resolved.value, dpName := ExpandDpName(d.dpName), colorindex := d.colorindex,
                             extraParams := ps.value)))
  {
  }

  /** When the colour and the legends are accepted, the rest of `__init__` decides. */
  lemma InitSpecUnfold(d: Declaration, host: Host)
    requires GivenColor(d.color, host.madeColor).Success? && LegendsIntended(d.thresholdLegends).Success?
    ensures InitSpec(d, host) ==
            InitSpecRest(FirstHalf(d, GivenColor(d.color, host.madeColor).value, LegendsIntended(d.thresholdLegends).value), d, host)
  {
  }

  /**
   * The stored legends are what the (corrected) setter makes of the declared
   * ones; a legends error is the constructor's error once the colour is accepted.
   */
  lemma InitSpecLegends(d: Declaration, host: Host)
    ensures var legends := LegendsIntended(d.thresholdLegends);
            && (InitSpec(d, host).Success? ==>
                  legends.Success? && InitSpec(d, host).value.thresholdLegends == legends.value)
            && (GivenColor(d.color, host.madeColor).Success? && legends.Failure? ==>
                  InitSpec(d, host) == Failure(legends.error))
  {
  }

  /** The stored dpName is the expanded shorthand. */
  lemma InitSpecDpName(d: Declaration, host: Host)
    requires InitSpec(d, host).Success?
    ensures var s := InitSpec(d, host).value;
            && (d.dpName.Some? && d.dpName.value != "" && '_' !in d.dpName.value ==>
                  s.dpName == Some(d.dpName.value + "_" + d.dpName.value))
            && (d.dpName.None? || d.dpName.value == "" || '_' in d.dpName.value ==> s.dpName == d.dpName)
  {
    InitSpecUnfold(d, host);
  }

  /**
   * Colour: a truthy colorindex picks `palette[int(ci) % len(palette)]`
   * without its leading '#', whatever colour was given; a falsy one keeps the
   * given colour; a non-numeric one raises "graphpoint colorindex must be numeric.".
   */
  lemma InitSpecColor(d: Declaration, host: Host)
    ensures var r := InitSpec(d, host);
            && (r.Success? && Truthy(d.colorindex) ==>
                  PythonInt(d.colorindex).Some? && host.palette != [] &&
                  r.value.color == Some(LStrip(host.palette[PyMod(PythonInt(d.colorindex).value, |host.palette|)], '#')))
            && (r.Success? && !Truthy(d.colorindex) ==> r.value.color == GivenColor(d.color, host.madeColor).value)
            && (r.Success? && !Truthy(d.colorindex) && d.color == NoneVal ==> r.value.color.None?)
            && (Truthy(d.colorindex) && PythonInt(d.colorindex).None?
                && GivenColor(d.color, host.madeColor).Success? && LegendsIntended(d.thresholdLegends).Success? ==>
                  r == Failure(ValueError(ColorIndexMessage)))
  {
    PaletteColorCases(d.colorindex, host.palette);
    if GivenColor(d.color, host.madeColor).Success? && LegendsIntended(d.thresholdLegends).Success? {
      InitSpecUnfold(d, host);
    }
  }

  /** Absent extra params become an empty mapping and are not validated; given ones are validated. */
  lemma InitSpecExtraParams(d: Declaration, host: Host)
    ensures var r := InitSpec(d, host);
            && (r.Success? && d.extraParams.None? ==> r.value.extraParams == [])
            && (r.Success? && d.extraParams.Some? ==>
                  ValidatedExtraParams(d.extraParams.value, host.lineTypes) == Success(r.value.extraParams))
            && (d.extraParams.Some? && ValidatedExtraParams(d.extraParams.value, host.lineTypes).Failure?
                && GivenColor(d.color, host.madeColor).Success? && LegendsIntended(d.thresholdLegends).Success?
                && (Truthy(d.colorindex) ==> PaletteColor(d.colorindex, host.palette).Success?) ==>
                  r == Failure(ValidatedExtraParams(d.extraParams.value, host.lineTypes).error))
  {
    if GivenColor(d.color, host.madeColor).Success? && LegendsIntended(d.thresholdLegends).Success? {
      InitSpecUnfold(d, host);
    }
  }

  /** The attributes `create` sets before the extra params: dpName, sequence, color. */
  function BaseAttrs(dpName: Option<string>, sequence: Value, color: Option<string>): (r: map<string, Value>)
    ensures r.Keys <= {"dpName", "sequence", "color"}
    ensures ("dpName" in r <==> dpName.Some? && dpName.value != "")
    ensures "dpName" in r ==> r["dpName"] == StrVal(dpName.value)
    ensures ("sequence" in r <==> Truthy(sequence)) && ("sequence" in r ==> r["sequence"] == sequence)
    ensures ("color" in r <==> color.Some?) && ("color" in r ==> r["color"] == StrVal(color.value))
  {
    var a := if dpName.Some? && dpName.value != "" then map["dpName" := StrVal(dpName.value)] else map[];
    var b := if Truthy(sequence) then a["sequence" := sequence] else a;
    if color.Some? then b["color" := StrVal(color.value)] else b
  }


  // ---------------------------------------------------------------------
  // The spec object
  // ---------------------------------------------------------------------

  class GraphPointSpec {
    var name: string
    var typeName: string
    var color: Option<string>
    var includeThresholds: bool
    var thresholdLegends: map<string, Value>
    var dpName: Option<string>
    var colorindex: Value
    var extraParams: Entries

    function State(): SpecState
      reads this
    {
      SpecState(name, typeName, color, includeThresholds, thresholdLegends, dpName, colorindex, extraParams)
    }

    /** Every legend entry carries `legend` and `color`. */
    predicate Valid()
      reads this
    {
      LegendsNormalized(thresholdLegends)
    }

    /** The object before `__init__` has assigned anything but its plain fields. */
    constructor Blank(name: string, typeName: string, includeThresholds: bool)
      ensures State() == SpecState(name, typeName, None, includeThresholds, map[], None, NoneVal, [])
    {
      this.name := name;
      this.typeName := typeName;
      this.includeThresholds := includeThresholds;
      color := None;
      thresholdLegends := map[];
      dpName := None;
      colorindex := NoneVal;
      extraParams := [];
    }

    /** `GraphPointSpec(...)`: the new spec, or the error its constructor raises. */
    static method New(d: Declaration, host: Host) returns (r: Result<GraphPointSpec, Error>)
      ensures r.Success? ==> fresh(r.value) && r.value.Valid()
      ensures r.Success? ==> InitSpec(d, host) == Success(r.value.State())
      ensures r.Failure? ==> InitSpec(d, host) == Failure(r.error)
    {
      var s := new GraphPointSpec.Blank(d.name, d.typeName, d.includeThresholds);
      var e := s.SetGivenColor(d.color, host.madeColor);
      if e.Some? {
        return Failure(e.value);
      }
      ghost var given := s.color;
      e := s.SetThresholdLegends(d.thresholdLegends);
      if e.Some? {
        return Failure(e.value);
      }
      InitSpecUnfold(d, host);
      assert s.State() == FirstHalf(d, given, s.thresholdLegends);
      e := s.FinishInit(d, host);
      if e.Some? {
        return Failure(e.value);
      }
      return Success(s);
    }

    /** `self.color = color; if color: self.color = Color(color)`. */
    method SetGivenColor(color: Value, made: Result<string, Error>) returns (err: Option<Error>)
      modifies this`color
      ensures var r := GivenColor(color, made);
              && (err.None? <==> r.Success?)
              && (r.Success? ==> this.color == r.value)
              && (r.Failure? ==> err == Some(r.error))
    {
      if color == NoneVal {
        this.color := None;
      } else if Truthy(color) {
        if made.Failure? {
          return Some(made.error);
        }
        this.color := Some(made.value);
      } else {
        this.color := Some(Render(color));
      }
      return None;
    }

    /** `self.colorindex = colorindex`, and a truthy index replaces the colour by the palette's. */
    method SetColorIndex(colorindex: Value, palette: seq<string>) returns (err: Option<Error>)
      modifies this`colorindex, this`color
      ensures var r := ResolvedColor(old(color), colorindex, palette);
              && (err.None? <==> r.Success?)
              && (r.Success? ==> this.colorindex == colorindex && color == r.value)
              && (r.Failure? ==> err == Some(r.error))
    {
      this.colorindex := colorindex;
      if Truthy(colorindex) {
        var p := PaletteColor(colorindex, palette);
        if p.Failure? {
          return Some(p.error);
        }
        color := Some(p.value);
      }
      return None;
    }

    /** The rest of `__init__` once the colour and legends are set: dpName, colour index, extra params. */
    method FinishInit(d: Declaration, host: Host) returns (err: Option<Error>)
      modifies this`dpName, this`colorindex, this`color, this`extraParams
      ensures var r := InitSpecRest(old(State()), d, host);
              && (err.None? <==> r.Success?)
              && (r.Success? ==> State() == r.value)
              && (r.Failure? ==> err == Some(r.error))
    {
      ghost var s0 := State();
      ghost var resolved := ResolvedColor(s0.color, d.colorindex, host.palette);
      ghost var ps := InitialExtraParams(d.extraParams, host.lineTypes);
      InitSpecRestSteps(s0, d, host);
      dpName := ExpandDpName(d.dpName);
      err := SetColorIndex(d.colorindex, host.palette);
      if err.Some? {
        return;
      }
      err := SetInitialExtraParams(d.extraParams, host.lineTypes);
      if err.Some? {
        return;
      }
      assert State() == s0.(color := resolved.value, dpName := ExpandDpName(d.dpName), colorindex := d.colorindex,
                            extraParams := ps.value);
    }

    /** `extra_params` is an empty OrderedDict when None is given; any given mapping, empty or not, is validated. */
    method SetInitialExtraParams(given: Option<Entries>, lineTypes: seq<string>) returns (err: Option<Error>)
      modifies this`extraParams
      ensures var r := InitialExtraParams(given, lineTypes);
              && (err.None? <==> r.Success?)
              && (r.Success? ==> extraParams == r.value)
              && (r.Failure? ==> err == Some(r.error))
    {
      if given.None? {
        extraParams := [];
        err := None;
      } else {
        extraParams := given.value;
        err := ValidateExtraParams(lineTypes);
      }
    }

    /**
     * The `thresholdLegends` setter, as evidently intended. A rejected shape
     * raises before anything is stored; otherwise the mapping is stored and
     * its entries normalised.
     */
    method SetThresholdLegends(value: Value) returns (err: Option<Error>)
      modifies this`thresholdLegends
      ensures var r := LegendsIntended(value);
              && (err.None? <==> r.Success?)
              && (r.Success? ==> thresholdLegends == r.value)
              && (r.Failure? ==> err == Some(r.error) && thresholdLegends == old(thresholdLegends))
      ensures err.None? ==> Valid()
    {
      var shape := LegendsShape(value);
      if shape.None? {
        return Some(ValueError(LegendsShapeMessage(value)));
      }
      thresholdLegends := shape.value;
      NormalizeLegends();
      return None;
    }

    /**
     * The setter's loop over the stored legends, in no particular order: each
     * dict entry gains `legend` and `color`, and any other entry becomes
     * `{'legend': None, 'color': None}`.
     */
    method NormalizeLegends()
      modifies this`thresholdLegends
      ensures thresholdLegends == NormalizeAllEntries(old(thresholdLegends))
      ensures Valid()
    {
      var m := thresholdLegends;
      var done := m;
      var todo := m.Keys;
      while todo != {}
        invariant todo <= m.Keys
        invariant done.Keys == m.Keys
        invariant forall k :: k in m && k !in todo ==> done[k] == NormalizeLegendValue(m[k])
        invariant forall k :: k in todo ==> done[k] == m[k]
        decreases todo
      {
        var k :| k in todo;
        done := done[k := NormalizeLegendValue(m[k])];
        todo := todo - {k};
      }
      thresholdLegends := done;
      assert done == NormalizeAllEntries(m);
    }

    /** `validate_extra_params`: rewrites lineType and cFunc in place, or raises before changing anything. */
    method ValidateExtraParams(lineTypes: seq<string>) returns (err: Option<Error>)
      modifies this`extraParams
      ensures var r := ValidatedExtraParams(old(extraParams), lineTypes);
              && (err.None? <==> r.Success?)
              && (r.Success? ==> extraParams == r.value)
              && (r.Failure? ==> err == Some(r.error) && extraParams == old(extraParams))
    {
      var lineType := Get(extraParams, "lineType");
      if Truthy(lineType) {
        if !lineType.StrVal? {
          return Some(AttributeError);
        }
        var upper := AsciiUpper(lineType.s);
        if upper in lineTypes {
          extraParams := Put(extraParams, "lineType", StrVal(upper));
        } else {
          return Some(ValueError(LineTypeMessage(lineType.s, lineTypes)));
        }
      }
      var cFunc := Get(extraParams, "cFunc");
      if cFunc != NoneVal && cFunc !in ConsolidationFunctions {
        extraParams := Put(extraParams, "cFunc", StrVal("AVERAGE"));
      }
      return None;
    }

    /** The attributes `create` sets on a new graph point before the extra params. */
    method SetBaseAttrs(gp: GraphPoint, sequence: Value)
      requires gp.attrs == map[]
      modifies gp
      ensures gp.attrs == BaseAttrs(dpName, sequence, color)
    {
      if dpName.Some? && dpName.value != "" {
        gp.SetAttr("dpName", StrVal(dpName.value));
      }
      if Truthy(sequence) {
        gp.SetAttr("sequence", sequence);
      }
      if color.Some? {
        gp.SetAttr("color", StrVal(color.value));
      }
    }

    /**
     * The extra-params loop of `create`: sets each pair on the new graph point
     * in order, and stops at the first key the graph point does not declare.
     */
    method SetExtraParams(gp: GraphPoint, t: GraphPointType) returns (err: Option<Error>)
      modifies gp
      ensures (gp.attrs, err) == ApplyExtraParams(old(gp.attrs), gp.declared, extraParams, t)
    {
      ghost var goal := ApplyExtraParams(gp.attrs, gp.declared, extraParams, t);
      var i := 0;
      while i < |extraParams|
        invariant 0 <= i <= |extraParams|
        invariant ApplyExtraParams(gp.attrs, gp.declared, extraParams[i..], t) == goal
      {
        var (key, value) := extraParams[i];
        assert extraParams[i..][1..] == extraParams[i + 1..];
        if key !in gp.declared {
          return Some(ValueError(InvalidPropertyMessage(key, t)));
        }
        gp.SetAttr(key, value);
        i := i + 1;
      }
      return None;
    }

    /**
     * The `includeThresholds` loop of `create`: each threshold graph point
     * with a legend entry gets its legend and colour. A graph point listed
     * twice is annotated twice, to the same effect.
     */
    method AnnotateThresholds(gps: seq<GraphPoint>)
      requires Valid()
      modifies gps
      ensures forall g :: g in gps ==> g.attrs == AnnotateThreshold(old(g.attrs), DictGet(thresholdLegends, g.id))
    {
      var j := 0;
      while j < |gps|
        invariant 0 <= j <= |gps|
        invariant forall g :: g in gps ==>
                    g.attrs == if g in gps[..j] then AnnotateThreshold(old(g.attrs), DictGet(thresholdLegends, g.id))
                               else old(g.attrs)
      {
        var g := gps[j];
        var entry := DictGet(thresholdLegends, g.id);
        ghost var before := g.attrs;
        if Truthy(entry) {
          var legend := DictGet(entry.entries, "legend");
          var color := DictGet(entry.entries, "color");
          if Truthy(legend) {
            g.SetAttr("legend", legend);
          }
          if Truthy(color) {
            g.SetAttr("color", StrVal(Render(color)));
          }
        }
        assert g.attrs == AnnotateThreshold(before, entry);
        AnnotateThresholdIdempotent(old(g.attrs), entry);
        assert gps[..j + 1] == gps[..j] + [g];
        j := j + 1;
      }
    }

    /**
     * `create(graph_spec, graph, sequence)`: creates the graph point, sets
     * dpName, sequence and color, overlays the extra params (failing fast on
     * an undeclared key, which leaves the new graph point in the graph), and
     * with `includeThresholds` annotates the graph's threshold graph points
     * for dpName that have a legend entry.
     */
    method Create(graph: Graph, sequence: Value) returns (gp: GraphPoint, err: Option<Error>)
      requires Valid()
      modifies graph, graph.ThresholdsFor(dpName)
      ensures fresh(gp) && graph.points == old(graph.points) + [gp]
      ensures gp.id == name && gp.kind == KindOf(GraphPointTypeFor(typeName))
      ensures gp.declared == graph.propertyIds(gp.kind)
      ensures (gp.attrs, err) ==
              ApplyExtraParams(BaseAttrs(dpName, sequence, color), gp.declared, extraParams, GraphPointTypeFor(typeName))
      ensures forall g :: g in graph.ThresholdsFor(dpName) ==>
                g.attrs == if err.None? && includeThresholds
                           then AnnotateThreshold(old(g.attrs), DictGet(thresholdLegends, g.id))
                           else old(g.attrs)
    {
      var t := GraphPointTypeFor(typeName);
      gp := graph.CreateGraphPoint(t, name);
      SetBaseAttrs(gp, sequence);
      err := SetExtraParams(gp, t);
      if err.None? && includeThresholds {
        var gps := graph.AddThresholdsForDataPoint(dpName);
        AnnotateThresholds(gps);
      }
    }
  }
}
