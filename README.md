# ZenPackLib graph-point specs and class-spec parameters, in Dafny

This project models two pieces of ZenPackLib, the library that turns a
ZenPack's YAML declarations into Zenoss model objects.

- **`GraphPointSpec`** normalises one graph-point declaration:
  - It resolves the type name to a ZenModel graph-point class. An unknown name
    falls back to the *name string* `'DataPointGraphPoint'`.
  - It expands the `dpName` shorthand: `x` becomes `x_x`.
  - It picks the colour from the host palette when `colorindex` is set. This
    is Python's `%`, and `lstrip('#')` is applied to the entry.
  - It checks `lineType` and `cFunc` in the extra params.
  - It normalises `thresholdLegends`.
  - `create` makes the graph point on a graph, sets `dpName`, `sequence` and
    `color`, and overlays the extra params. It refuses the first key that the
    graph-point class does not declare. With `includeThresholds`, it copies
    legend text and colour onto the graph's threshold graph points for the
    datapoint.
- **`ClassSpecParams`** normalises one class declaration. `base` becomes a
  tuple and `monitoring_templates` becomes a list. It then builds the property,
  relationship and impact-trigger children with three `specs_from_param`
  calls. Each call leaves defaults in place for a later inheritance pass.

How the model is laid out:

- **Python values.** `PyValues` models None, bool, int, str, tuple/list/set and
  dict. It also models truthiness, `str()`/`repr()`, Python 2.7 `int()` of a
  string, `upper()`, `lstrip()`, `join()`, and the ordered mapping
  (`OrderedDict`) used for the extra params.
- **Host.** `GraphHost` reduces the host's graph objects to the surface the spec
  touches. A graph point is an id, a class, its declared property ids and its
  attribute values. A graph creates graph points and hands back its threshold
  graph points.
- **Pure logic and imperative steps.** The pure parts are functions with
  lemmas: names, colour, extra-params validation and overlay, and legends.
  The steps that assign fields one by one are methods of a `GraphPointSpec`
  class: `__init__`, the `thresholdLegends` setter, `validate_extra_params`
  and `create`. Each method is proved equal to a specification function.
  `InitSpec` is the specification of `__init__`.
- **`ClassSpecParams`** is a class. Its fields are set by the constructor, and
  its children come from a `specsFromParam` function parameter.
- **Parameters.** Collaborators whose source is not modelled become
  parameters:
  - the palette `GraphPoint.colors`;
  - the allowed line types `ComplexGraphPoint.lineTypeOptions`;
  - the outcome of `str(Color(color))`;
  - `specs_from_param`.
- **Python `%`.** `PyMod` is Python's `%` for a positive divisor. It is
  defined by repeated subtraction (`NatMod`). `PyModIsEuclidean` proves that
  it equals Dafny's Euclidean `%` for every positive divisor.

## Model

Every source cell below is under `ZenPacks/zenoss/ZenPackLib/lib/`.

| member | source | states |
|---|---|---|
| `PyValues.DictGet` | ZenPacks/zenoss/ZenPackLib/lib/spec/GraphPointSpec.py:163 | `d.get(key)` is the stored value for a present key and None for an absent one |
| `PyValues.FalsyValues` | ZenPacks/zenoss/ZenPackLib/lib/spec/GraphPointSpec.py:68 | `if v:` fails exactly for None, False, 0, the empty string and an empty tuple, list, set or dict |
| `PyValues.AsciiUpper` | ZenPacks/zenoss/ZenPackLib/lib/spec/GraphPointSpec.py:106 | `upper()` keeps the length and upper-cases each character on its own |
| `PyValues.AsciiUpperIdempotent` | ZenPacks/zenoss/ZenPackLib/lib/spec/GraphPointSpec.py:106-107 | upper-casing an already upper-cased lineType changes nothing |
| `PyValues.LStrip` | ZenPacks/zenoss/ZenPackLib/lib/spec/GraphPointSpec.py:91 | `lstrip('#')` gives a suffix that does not start with '#', and everything dropped was '#' |
| `PyValues.TrimStart` | ZenPacks/zenoss/ZenPackLib/lib/spec/GraphPointSpec.py:87 | the whitespace `int()` skips: a suffix that does not start with whitespace |
| `PyValues.TrimEnd` | ZenPacks/zenoss/ZenPackLib/lib/spec/GraphPointSpec.py:87 | trailing whitespace `int()` skips: a prefix that does not end with whitespace |
| `PyValues.ParseIntLiteral` | ZenPacks/zenoss/ZenPackLib/lib/spec/GraphPointSpec.py:87-89 | `int(s)` of a blank string raises (None) |
| `PyValues.ParseIntLiteralSpec` | ZenPacks/zenoss/ZenPackLib/lib/spec/GraphPointSpec.py:87-89 | `int(s)` gives `v` exactly when `s` is whitespace, an optional sign, whitespace, at least one decimal digit and whitespace, and the digits denote `v` (negated after '-') |
| `PyValues.ParseIntLiteralAccepts` | ZenPacks/zenoss/ZenPackLib/lib/spec/GraphPointSpec.py:87-89 | every literal of that grammar is read as the number it denotes |
| `PyValues.ParseIntLiteralIsLiteral` | ZenPacks/zenoss/ZenPackLib/lib/spec/GraphPointSpec.py:87-89 | every string `int()` reads is a literal of that grammar denoting the result |
| `PyValues.ParseIntLiteralCharacters` | ZenPacks/zenoss/ZenPackLib/lib/spec/GraphPointSpec.py:87-89 | a string `int()` reads holds only whitespace, digits and signs |
| `PyValues.ParseIntLiteralRejects` | ZenPacks/zenoss/ZenPackLib/lib/spec/GraphPointSpec.py:87-89 | any other character, as in "red", "1a" or "0x10", makes `int()` raise |
| `PyValues.ParseIntLiteralNeedsDigit` | ZenPacks/zenoss/ZenPackLib/lib/spec/GraphPointSpec.py:87-89 | a string with no decimal digit, "+" and "-" included, makes `int()` raise |
| `PyValues.IntToStringIsLiteral` | ZenPacks/zenoss/ZenPackLib/lib/spec/GraphPointSpec.py:87 | the decimal string of `i` is a literal of that grammar denoting `i` |
| `PyValues.PythonInt` | ZenPacks/zenoss/ZenPackLib/lib/spec/GraphPointSpec.py:87-89 | `int(v)`: an int is itself, a bool is 0 or 1, and None, containers and dicts raise |
| `PyValues.IntToStringRoundTrip` | ZenPacks/zenoss/ZenPackLib/lib/spec/GraphPointSpec.py:87 | `int(str(i)) == i` for every integer, negative ones included |
| `PyValues.PythonIntOfString` | ZenPacks/zenoss/ZenPackLib/lib/spec/GraphPointSpec.py:87 | `int()` of the decimal string of `i` is `i` |
| `PyValues.GetFinds` | ZenPacks/zenoss/ZenPackLib/lib/spec/GraphPointSpec.py:102 | `extra_params.get(k)` is the value of an entry holding `k`, and None when none holds it |
| `PyValues.Put` | ZenPacks/zenoss/ZenPackLib/lib/spec/GraphPointSpec.py:107 | `d[k] = v` on a present key replaces that value in place and keeps the keys and their order |
| `PyValues.GetAfterPut` | ZenPacks/zenoss/ZenPackLib/lib/spec/GraphPointSpec.py:107 | after `d[k] = v`, `d.get(k)` is `v` and every other key reads as before |
| `PyValues.GetPutOther` | ZenPacks/zenoss/ZenPackLib/lib/spec/GraphPointSpec.py:116 | storing the cFunc leaves every other key's value as it was |
| `PyValues.Keys` | ZenPacks/zenoss/ZenPackLib/lib/spec/GraphPointSpec.py:154 | the keys of the ordered mapping, one per entry, in order |
| `GraphPointNames.GraphPointTypeFor` | ZenPacks/zenoss/ZenPackLib/lib/spec/GraphPointSpec.py:140 | a registered type name gives the class registered under it; any other name gives the string `'DataPointGraphPoint'`, which the host treats as the data-point class |
| `GraphPointNames.GraphPointTypeForKindName` | ZenPacks/zenoss/ZenPackLib/lib/spec/GraphPointSpec.py:18-20 | each of the three classes is found again under its own name |
| `GraphPointNames.KindOfTypeFor` | ZenPacks/zenoss/ZenPackLib/lib/spec/GraphPointSpec.py:140-141 | the graph point created is of the class registered under the type name, and of the data-point class for any other name |
| `GraphPointNames.ExpandDpName` | ZenPacks/zenoss/ZenPackLib/lib/spec/GraphPointSpec.py:76-79 | a non-empty dpName without '_' becomes `dpName_dpName`; an empty one, one with '_', or None is kept |
| `GraphPointNames.SplitFirst` | ZenPacks/zenoss/ZenPackLib/lib/spec/GraphPointSpec.py:78 | splitting at the first '_' fails exactly when there is none; otherwise the parts join back to the name |
| `GraphPointNames.SplitFirstOfJoin` | ZenPacks/zenoss/ZenPackLib/lib/spec/GraphPointSpec.py:78-79 | a name with no '_', joined by '_' to anything, splits back into the two parts |
| `GraphPointNames.ExpandedDpNameSplits` | ZenPacks/zenoss/ZenPackLib/lib/spec/GraphPointSpec.py:75-79 | the expanded shorthand names datasource `x` and datapoint `x` |
| `GraphPointNames.ExpandDpNameIdempotent` | ZenPacks/zenoss/ZenPackLib/lib/spec/GraphPointSpec.py:76-79 | expanding an expanded dpName changes nothing |
| `GraphPointColor.PyMod` | ZenPacks/zenoss/ZenPackLib/lib/spec/GraphPointSpec.py:87 | `i % len(colors)` always lies in `[0, len(colors))` |
| `GraphPointColor.NatMod` | ZenPacks/zenoss/ZenPackLib/lib/spec/GraphPointSpec.py:87 | the remainder of a natural number lies below the divisor |
| `GraphPointColor.NatModIsEuclidean` | ZenPacks/zenoss/ZenPackLib/lib/spec/GraphPointSpec.py:87 | repeated subtraction gives Dafny's `%` |
| `GraphPointColor.PyModIsEuclidean` | ZenPacks/zenoss/ZenPackLib/lib/spec/GraphPointSpec.py:87 | `PyMod` is the `%` of the source for every integer, negative ones included, and every positive palette length |
| `GraphPointColor.ModUnique` | ZenPacks/zenoss/ZenPackLib/lib/spec/GraphPointSpec.py:87 | `a % n` is the unique `r` in `[0, n)` with `a == q*n + r`, which is how Python defines it for a positive `n` |
| `GraphPointColor.PyModWraps` | ZenPacks/zenoss/ZenPackLib/lib/spec/GraphPointSpec.py:87 | indices one palette length apart share a slot; in-range indices are their own slot; -1 is the last slot |
| `GraphPointColor.PaletteColorCases` | ZenPacks/zenoss/ZenPackLib/lib/spec/GraphPointSpec.py:85-91 | a non-numeric index raises "graphpoint colorindex must be numeric."; an empty palette raises ZeroDivisionError; otherwise the colour is the entry at the index's slot without leading '#' |
| `GraphPointColor.PaletteColorTotal` | ZenPacks/zenoss/ZenPackLib/lib/spec/GraphPointSpec.py:87-91 | every number, however large or negative, selects some palette entry |
| `GraphPointColor.PaletteColorAt` | ZenPacks/zenoss/ZenPackLib/lib/spec/GraphPointSpec.py:87-91 | a number selects the entry at `PyMod(i, len)` with '#' stripped |
| `GraphPointColor.PaletteColorSameSlot` | ZenPacks/zenoss/ZenPackLib/lib/spec/GraphPointSpec.py:87-91 | indices on the same slot select the same colour |
| `GraphPointColor.PaletteColorPeriodic` | ZenPacks/zenoss/ZenPackLib/lib/spec/GraphPointSpec.py:87-91 | `i` and `i + len(colors)` select the same colour |
| `GraphPointColor.PaletteColorSameInt` | ZenPacks/zenoss/ZenPackLib/lib/spec/GraphPointSpec.py:86-91 | indices that `int()` maps to the same number select the same colour |
| `GraphPointColor.PaletteColorOfString` | ZenPacks/zenoss/ZenPackLib/lib/spec/GraphPointSpec.py:86-87 | a colorindex given as the decimal string of a number selects what the number selects |
| `GraphPointColor.GivenColor` | ZenPacks/zenoss/ZenPackLib/lib/spec/GraphPointSpec.py:67-70 | None stays None; a falsy colour is kept as its `str()`; a truthy one is what `Color(color)` renders, or its error |
| `ExtraParams.ValidatedExtraParams` | ZenPacks/zenoss/ZenPackLib/lib/spec/GraphPointSpec.py:99-116 | validation keeps every key and its position, and changes no entry except lineType and cFunc |
| `ExtraParams.CheckedLineType` | ZenPacks/zenoss/ZenPackLib/lib/spec/GraphPointSpec.py:102-110 | the lineType step keeps every key in place, and raises only for a truthy lineType |
| `ExtraParams.CheckedCFunc` | ZenPacks/zenoss/ZenPackLib/lib/spec/GraphPointSpec.py:113-116 | the cFunc step keeps every key in place and changes no other entry |
| `ExtraParams.ValidateLineType` | ZenPacks/zenoss/ZenPackLib/lib/spec/GraphPointSpec.py:102-110 | it succeeds exactly when lineType is falsy or is a string whose upper-case form is allowed; that form is then stored; a disallowed string raises the message listing the valid lineTypes; a non-string raises AttributeError |
| `ExtraParams.ValidateCFunc` | ZenPacks/zenoss/ZenPackLib/lib/spec/GraphPointSpec.py:113-116 | a cFunc among AVERAGE, MIN, MAX, LAST is kept; any other present value becomes AVERAGE; an absent one stays absent |
| `ExtraParams.PutUnchanged` | ZenPacks/zenoss/ZenPackLib/lib/spec/GraphPointSpec.py:107 | re-storing the value a key already holds changes nothing |
| `ExtraParams.ValidateIdempotent` | ZenPacks/zenoss/ZenPackLib/lib/spec/GraphPointSpec.py:99-116 | validating validated extra params gives them back unchanged |
| `ExtraParams.Overlay` | ZenPacks/zenoss/ZenPackLib/lib/spec/GraphPointSpec.py:154-156 | `setattr` of each pair in order: the attributes are the old ones plus the params' keys |
| `ExtraParams.OverlayKeeps` | ZenPacks/zenoss/ZenPackLib/lib/spec/GraphPointSpec.py:154-156 | an attribute the params do not mention keeps its value |
| `ExtraParams.OverlayLastWins` | ZenPacks/zenoss/ZenPackLib/lib/spec/GraphPointSpec.py:154-156 | the last pair for a key decides that attribute |
| `ExtraParams.OverlayDistinct` | ZenPacks/zenoss/ZenPackLib/lib/spec/GraphPointSpec.py:154-156 | with distinct keys, every key gets its own value |
| `ExtraParams.OverlayOverrides` | ZenPacks/zenoss/ZenPackLib/lib/spec/GraphPointSpec.py:154-156 | the starting values of the keys the params mention do not matter |
| `ExtraParams.OverlayIdempotent` | ZenPacks/zenoss/ZenPackLib/lib/spec/GraphPointSpec.py:154-156 | overlaying the same params twice is overlaying them once |
| `ExtraParams.FirstUndeclared` | ZenPacks/zenoss/ZenPackLib/lib/spec/GraphPointSpec.py:155-158 | the index of the first param the graph point does not declare: every earlier one is declared |
| `ExtraParams.ApplyExtraParams` | ZenPacks/zenoss/ZenPackLib/lib/spec/GraphPointSpec.py:153-158 | the loop raises exactly when some param is not a declared property, and then a ValueError |
| `ExtraParams.OverlayPrefixStep` | ZenPacks/zenoss/ZenPackLib/lib/spec/GraphPointSpec.py:154-156 | overlaying a prefix is overlaying its head, then the rest of it |
| `ExtraParams.ApplyExtraParamsStops` | ZenPacks/zenoss/ZenPackLib/lib/spec/GraphPointSpec.py:153-158 | the loop applies exactly the params before the first undeclared key, in order, and raises "… is not a valid property for graphoint of type …" for that key, or nothing when all are declared |
| `ExtraParams.ApplyExtraParamsAllDeclared` | ZenPacks/zenoss/ZenPackLib/lib/spec/GraphPointSpec.py:153-158 | with every key declared nothing is raised, and running the loop again changes nothing |
| `ThresholdLegends.NormalizeLegendEntry` | ZenPacks/zenoss/ZenPackLib/lib/spec/GraphPointSpec.py:136-137 | a normalised entry has both `legend` and `color` |
| `ThresholdLegends.LegendsShape` | ZenPacks/zenoss/ZenPackLib/lib/spec/GraphPointSpec.py:124-132 | None is stored as `{}`, a dict as given, a string `s` as `{s: None}`; any other value is rejected |
| `ThresholdLegends.NormalizeLegendEntryKeeps` | ZenPacks/zenoss/ZenPackLib/lib/spec/GraphPointSpec.py:135-137 | normalising adds only those two keys, as None when absent, and keeps every value there was |
| `ThresholdLegends.NormalizeEntries` | ZenPacks/zenoss/ZenPackLib/lib/spec/GraphPointSpec.py:133-137 | the setter's loop succeeds exactly when every entry is a dict, and otherwise raises TypeError; on success it keeps the ids and normalises each entry |
| `ThresholdLegends.NormalizeEntriesFixed` | ZenPacks/zenoss/ZenPackLib/lib/spec/GraphPointSpec.py:133-137 | normalised legends are their own normal form |
| `ThresholdLegends.NormalizedEntryFixed` | ZenPacks/zenoss/ZenPackLib/lib/spec/GraphPointSpec.py:136-137 | an entry that already has both keys is unchanged |
| `ThresholdLegends.LegendsAsWritten` | ZenPacks/zenoss/ZenPackLib/lib/spec/GraphPointSpec.py:122-137 | None stores `{}`; a dict is stored and normalised; a string stores `{s: None}`, which the loop then fails on; any other value raises "thresholdLegends must be specified as a dict or string (got …)"; a success is always normalised |
| `ThresholdLegends.LegendsKeepEntries` | ZenPacks/zenoss/ZenPackLib/lib/spec/GraphPointSpec.py:126-137 | the setter keeps the ids and every field of every entry, and fills a missing legend or color with None |
| `ThresholdLegends.LegendsIdempotent` | ZenPacks/zenoss/ZenPackLib/lib/spec/GraphPointSpec.py:122-137 | setting the stored legends again gives them back unchanged |
| `ThresholdLegends.NormalizeLegendValue` | ZenPacks/zenoss/ZenPackLib/lib/spec/GraphPointSpec.py:134-137 | the intended per-entry step always gives an entry with `legend` and `color` |
| `ThresholdLegends.NormalizeLegendValueFixed` | ZenPacks/zenoss/ZenPackLib/lib/spec/GraphPointSpec.py:134-137 | an entry that has both keys is left as it is |
| `ThresholdLegends.NormalizeAllEntries` | ZenPacks/zenoss/ZenPackLib/lib/spec/GraphPointSpec.py:133-137 | the corrected loop keeps the ids and normalises every entry, rejecting none |
| `ThresholdLegends.NormalizeAllEntriesFixed` | ZenPacks/zenoss/ZenPackLib/lib/spec/GraphPointSpec.py:133-137 | normalised legends are their own normal form under the corrected loop |
| `ThresholdLegends.LegendsIntended` | ZenPacks/zenoss/ZenPackLib/lib/spec/GraphPointSpec.py:122-137 | the corrected setter raises "thresholdLegends must be specified as a dict or string (got …)" exactly for a shape other than None, dict or string; otherwise it keeps the ids and every entry is normalised |
| `ThresholdLegends.LegendsIntendedIdempotent` | ZenPacks/zenoss/ZenPackLib/lib/spec/GraphPointSpec.py:122-137 | setting the stored legends again gives them back unchanged |
| `ThresholdLegends.StringShorthandFails` | ZenPacks/zenoss/ZenPackLib/lib/spec/GraphPointSpec.py:128-137 | the string shorthand raises TypeError as written and gives `{s: {legend: None, color: None}}` as intended |
| `ThresholdLegends.LegendsIntendedAgrees` | ZenPacks/zenoss/ZenPackLib/lib/spec/GraphPointSpec.py:122-137 | wherever the setter as written succeeds, the corrected one gives the same legends |
| `ThresholdLegends.LegendsFillColor` | ZenPacks/zenoss/ZenPackLib/lib/spec/GraphPointSpec.py:133-137 | `{X: {legend: L}}` becomes `{X: {legend: L, color: None}}` |
| `ThresholdLegends.AnnotateThreshold` | ZenPacks/zenoss/ZenPackLib/lib/spec/GraphPointSpec.py:163-171 | with no entry nothing changes; a truthy legend is set as is; a truthy colour is set as its `str()`; a falsy legend or colour leaves that attribute; no other attribute changes |
| `ThresholdLegends.AnnotateThresholdIdempotent` | ZenPacks/zenoss/ZenPackLib/lib/spec/GraphPointSpec.py:163-171 | annotating twice with the same entry is annotating once |
| `GraphPointSpecs.ResolvedColor` | ZenPacks/zenoss/ZenPackLib/lib/spec/GraphPointSpec.py:84-91 | a falsy colorindex keeps the given colour; a truthy one replaces it by the palette colour or raises that lookup's error |
| `GraphPointSpecs.InitialExtraParams` | ZenPacks/zenoss/ZenPackLib/lib/spec/GraphPointSpec.py:93-97 | absent extra params become an empty mapping without validation; given ones are validated |
| `GraphPointSpecs.InitSpec` | ZenPacks/zenoss/ZenPackLib/lib/spec/GraphPointSpec.py:59-97 | a constructed spec keeps name, type, includeThresholds and colorindex as given, and its legends (set by the corrected setter) are normalised |
| `GraphPointSpecs.InitSpecRest` | ZenPacks/zenoss/ZenPackLib/lib/spec/GraphPointSpec.py:75-97 | the second half of `__init__` changes neither name, type, includeThresholds nor the legends |
| `GraphPointSpecs.InitSpecUnfold` | ZenPacks/zenoss/ZenPackLib/lib/spec/GraphPointSpec.py:67-97 | once colour and legends are accepted, the rest of `__init__` decides the outcome |
| `GraphPointSpecs.InitSpecLegends` | ZenPacks/zenoss/ZenPackLib/lib/spec/GraphPointSpec.py:73 | the stored legends are what the setter makes of the declared ones; once the colour is accepted, a legends error is the constructor's error |
| `GraphPointSpecs.InitSpecDpName` | ZenPacks/zenoss/ZenPackLib/lib/spec/GraphPointSpec.py:76-79 | the stored dpName is the shorthand's expansion, or the given one when it is empty or has '_' |
| `GraphPointSpecs.InitSpecColor` | ZenPacks/zenoss/ZenPackLib/lib/spec/GraphPointSpec.py:67-91 | a truthy colorindex overrides any given colour with `palette[int(ci) % len(palette)]` without '#'; a falsy one keeps the given colour, so no colour stays None; a non-numeric truthy one raises "graphpoint colorindex must be numeric." |
| `GraphPointSpecs.InitSpecExtraParams` | ZenPacks/zenoss/ZenPackLib/lib/spec/GraphPointSpec.py:93-97 | absent extra params are stored empty; given ones are stored validated; a validation error is the constructor's error |
| `GraphPointSpecs.BaseAttrs` | ZenPacks/zenoss/ZenPackLib/lib/spec/GraphPointSpec.py:144-151 | dpName is set when truthy, sequence when truthy, color when not None (as its `str()`), and nothing else |
| `GraphHost.Graph.CreateGraphPoint` | ZenPacks/zenoss/ZenPackLib/lib/spec/GraphPointSpec.py:141 | the host adds one new graph point, with the spec's name, of the class the type selects, declaring that class's properties and with no attribute set |
| `GraphHost.Graph.AddThresholdsForDataPoint` | ZenPacks/zenoss/ZenPackLib/lib/spec/GraphPointSpec.py:161 | the host hands back the threshold graph points it holds for the dpName, and none for an absent or unknown one |
| `GraphPointSpecs.GraphPointSpec.Blank` | ZenPacks/zenoss/ZenPackLib/lib/spec/GraphPointSpec.py:63-65 | the object before the steps of `__init__`: only name, type and includeThresholds are set |
| `GraphPointSpecs.GraphPointSpec.New` | ZenPacks/zenoss/ZenPackLib/lib/spec/GraphPointSpec.py:26-97 | the constructor's step-by-step assignments give exactly `InitSpec`'s state, or raise its error; a new spec's legends are normalised |
| `GraphPointSpecs.GraphPointSpec.SetGivenColor` | ZenPacks/zenoss/ZenPackLib/lib/spec/GraphPointSpec.py:67-70 | the colour field becomes `GivenColor`'s value, or its error is raised |
| `GraphPointSpecs.GraphPointSpec.SetColorIndex` | ZenPacks/zenoss/ZenPackLib/lib/spec/GraphPointSpec.py:84-91 | colorindex is stored and the colour becomes `ResolvedColor` of the previous colour, or its error is raised |
| `GraphPointSpecs.GraphPointSpec.FinishInit` | ZenPacks/zenoss/ZenPackLib/lib/spec/GraphPointSpec.py:75-97 | the dpName, colour-index and extra-params steps give `InitSpecRest` of the previous state |
| `GraphPointSpecs.GraphPointSpec.SetInitialExtraParams` | ZenPacks/zenoss/ZenPackLib/lib/spec/GraphPointSpec.py:93-97 | the extra-params field becomes `InitialExtraParams` of the given params, or the validation error is raised |
| `GraphPointSpecs.GraphPointSpec.SetThresholdLegends` | ZenPacks/zenoss/ZenPackLib/lib/spec/GraphPointSpec.py:122-137 | the setter (corrected, see Findings) stores `LegendsIntended(value)`, or raises its error and stores nothing; success leaves the legends normalised |
| `GraphPointSpecs.GraphPointSpec.NormalizeLegends` | ZenPacks/zenoss/ZenPackLib/lib/spec/GraphPointSpec.py:133-137 | the loop over the entries, in any order, gives `NormalizeAllEntries` of the stored legends and leaves them normalised |
| `GraphPointSpecs.GraphPointSpec.ValidateExtraParams` | ZenPacks/zenoss/ZenPackLib/lib/spec/GraphPointSpec.py:99-116 | the in-place rewrites give `ValidatedExtraParams`; on an error nothing is changed |
| `GraphPointSpecs.GraphPointSpec.SetBaseAttrs` | ZenPacks/zenoss/ZenPackLib/lib/spec/GraphPointSpec.py:144-151 | the new graph point's attributes become `BaseAttrs` |
| `GraphPointSpecs.GraphPointSpec.SetExtraParams` | ZenPacks/zenoss/ZenPackLib/lib/spec/GraphPointSpec.py:153-158 | the `setattr` loop gives `ApplyExtraParams`: the declared prefix applied, then the error for the first undeclared key |
| `GraphPointSpecs.GraphPointSpec.AnnotateThresholds` | ZenPacks/zenoss/ZenPackLib/lib/spec/GraphPointSpec.py:161-171 | every threshold graph point handed back gets `AnnotateThreshold` with its own legend entry |
| `GraphPointSpecs.GraphPointSpec.Create` | ZenPacks/zenoss/ZenPackLib/lib/spec/GraphPointSpec.py:139-171 | one new graph point of the looked-up class is added to the graph under the spec's name; its attributes are the base attributes overlaid with the extra params, or the error for the first undeclared key; the graph's threshold graph points for dpName are annotated only when no error was raised and includeThresholds is set, and are left unchanged otherwise |
| `ClassSpecParamsModel.CoerceBase` | ZenPacks/zenoss/ZenPackLib/lib/params/ClassSpecParams.py:21-24 | a tuple, list or set becomes a tuple of the same items; anything else, None included, becomes the one-element tuple `(base,)` |
| `ClassSpecParamsModel.CoerceBaseMembers` | ZenPacks/zenoss/ZenPackLib/lib/params/ClassSpecParams.py:21-24 | the tuple holds exactly the declared bases, or just the one declared value |
| `ClassSpecParamsModel.CoerceBaseIdempotent` | ZenPacks/zenoss/ZenPackLib/lib/params/ClassSpecParams.py:21-24 | feeding the coerced base back in yields it unchanged |
| `ClassSpecParamsModel.CoerceBaseOfTuple` | ZenPacks/zenoss/ZenPackLib/lib/params/ClassSpecParams.py:21-22 | a tuple is its own coercion |
| `ClassSpecParamsModel.CoerceTemplates` | ZenPacks/zenoss/ZenPackLib/lib/params/ClassSpecParams.py:26-31 | the result is always a list: empty for None, the same items for a tuple, list or set, `[x]` for anything else |
| `ClassSpecParamsModel.CoerceTemplatesMembers` | ZenPacks/zenoss/ZenPackLib/lib/params/ClassSpecParams.py:26-31 | the list holds exactly the declared templates; None declares none |
| `ClassSpecParamsModel.CoerceTemplatesIdempotent` | ZenPacks/zenoss/ZenPackLib/lib/params/ClassSpecParams.py:26-31 | feeding the coerced list back in yields it unchanged |
| `ClassSpecParamsModel.ChildCalls` | ZenPacks/zenoss/ZenPackLib/lib/params/ClassSpecParams.py:33-40 | three calls, for properties, relationships and impact triggers in that order |
| `ClassSpecParamsModel.ChildCallsShape` | ZenPacks/zenoss/ZenPackLib/lib/params/ClassSpecParams.py:33-40 | each call has its own child type and its own field name, passes that field's declared value, and sets `leave_defaults=True` |
| `ClassSpecParamsModel.CallAll` | ZenPacks/zenoss/ZenPackLib/lib/params/ClassSpecParams.py:33-40 | making the calls in order gives one result per call |
| `ClassSpecParamsModel.CallAllOutcome` | ZenPacks/zenoss/ZenPackLib/lib/params/ClassSpecParams.py:33-40 | on success each child map is its own call's result; on failure the error is that of a call whose predecessors all succeeded |
| `ClassSpecParamsModel.CallAllHead` | ZenPacks/zenoss/ZenPackLib/lib/params/ClassSpecParams.py:33-40 | a raising first call ends the construction; otherwise the later calls decide |
| `ClassSpecParamsModel.CallAllSucceeds` | ZenPacks/zenoss/ZenPackLib/lib/params/ClassSpecParams.py:33-40 | when every call succeeds, so does the construction |
| `ClassSpecParamsModel.ClassSpecParams.Coerced` | ZenPacks/zenoss/ZenPackLib/lib/params/ClassSpecParams.py:19-31 | name is stored as given, base and monitoring templates are coerced, before any child is built |
| `ClassSpecParamsModel.ClassSpecParams.New` | ZenPacks/zenoss/ZenPackLib/lib/params/ClassSpecParams.py:17-40 | the constructor succeeds exactly when all three calls do; it then stores the name, the coerced base and templates, and the three child maps in call order; otherwise it raises the first call's error |

## Left out

- Logging has no effect on behaviour and is not modelled. This covers `LOG`, `speclog`, `zplog`, `Color.LOG` and the debug message of the string shorthand.
- `template_spec`, `graph_spec` and `_source_location` are stored or passed along but never affect what is modelled.
- Host internals are not modelled. The `Color` class is represented only by the outcome of `str(Color(color))` (`Host.madeColor`). `GraphPoint.colors` and `ComplexGraphPoint.lineTypeOptions` are parameters. The host's `createGraphPoint` is assumed to treat the fallback string `'DataPointGraphPoint'` as the data-point class, which is its registered name.
- `specs_from_param`, `SpecParams.__init__(**kwargs)` and the DEFAULTS inheritance pass are not modelled. `SpecParams.py` is not part of this model. The model keeps only the call each child kind receives, and that call's result or error.
- `GraphPointSpecs.InitSpec`: `name` is a string, `dpName` is a string or None, and the keys of `thresholdLegends` and `extra_params` are strings. A spec built with `name=None` or a non-string dpName is not modelled.
- `PyValues.ParseIntLiteral`: only decimal digits with optional sign and whitespace are accepted. Python 2's unicode digits are not modelled. Floats are not modelled anywhere (no float `Value`), so neither is `int(2.5)`.
- `PyValues.AsciiUpper`: only ASCII letters are upper-cased, as for a byte string in the C locale. Unicode strings are not modelled.
- `PyValues.Render` is the model of `str()` and `format()` at GraphPointSpec.py:132, :151 and :171. Its `repr()` of a string inside a container does not escape quotes or control characters, and a non-empty dict is rendered as `{...}`, because its order is unspecified. These approximations reach the `(got …)` error message at :132, the colour of a falsy value at :151, and the colour that :171 sets on a threshold graph point when a legend entry's colour is a list, tuple, set or non-empty dict.
- `GraphPointSpecs.Declaration`: `extra_params` is an ordered mapping with distinct keys. A key sequence that repeats a key, which no OrderedDict can hold, is outside the model.
- The `thresholdLegends` setter stores and then mutates the caller's own dict, and the dicts inside it. `__init__` likewise stores the caller's `extra_params` mapping, and `validate_extra_params` rewrites its `lineType` and `cFunc` entries in place (GraphPointSpec.py:96, :107, :116). The model stores copies, so changes seen through the caller's references (aliasing) are not modelled.
- Python iterates the legends dict in hash order. `GraphPointSpecs.GraphPointSpec.NormalizeLegends` visits the ids in an unspecified order, and its result does not depend on that order.
- Iteration order of a Python set given as `base` or `monitoring_templates` is not modelled. The model keeps the order in which the set's items are listed.
- Persistence and transactions of the created ZenModel objects are not modelled.
- The test modules are not modelled. They need Zope test layers, YAML loading and live ZenModel classes.

## Findings

| source | as written | input that shows it | evidently intended | confidence | as-written member | corrected member |
|---|---|---|---|---|---|---|
| ZenPacks/zenoss/ZenPackLib/lib/spec/GraphPointSpec.py:128-137 | the string shorthand stores `{value: None}`; the loop then replaces the local `data` with a default dict but still assigns into `self._thresholdLegends[id]`, which is None, so Python raises TypeError. Any non-dict entry of a dict fails the same way | `thresholdLegends="X"` | `{"X": {"legend": None, "color": None}}`, as the documented shorthand describes | not executed | `ThresholdLegends.StringShorthandFails` | `ThresholdLegends.LegendsIntended` |

`LegendsAsWritten` is the setter as written. `LegendsIntended` is the corrected
setter, and the rest of the model uses it: `InitSpec`,
`GraphPointSpec.SetThresholdLegends` and `GraphPointSpec.NormalizeLegends`.
`LegendsIntendedAgrees` proves that the corrected setter gives the same result
as the code wherever the code succeeds. So the correction changes only the
inputs on which the code raises TypeError.
