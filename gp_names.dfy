/**
 * How a graph-point declaration names things: the graph-point class a type
 * name selects, and the dpName shorthand.
 */
module GraphPointNames {
  import opened Wrappers
  import opened PyValues
  import opened GraphHost

  // ---------------------------------------------------------------------
  // GRAPHPOINT_TYPES
  // ---------------------------------------------------------------------

  const KnownTypeNames: set<string> := {"DataPointGraphPoint", "CommentGraphPoint", "ThresholdGraphPoint"}

  /**
   * `GRAPHPOINT_TYPES.get(type_, 'DataPointGraphPoint')`: the registered
   * class, or the data-point class's name when the type is not registered.
   */
  function GraphPointTypeFor(typeName: string): (t: GraphPointType)
    ensures t.ZenClass? <==> typeName in KnownTypeNames
    ensures t.ZenClass? ==> KindName(t.kind) == typeName
    ensures t.ClassName? ==> t.name == "DataPointGraphPoint" && KindOf(t) == DataPoint
  {
    if typeName == "DataPointGraphPoint" then ZenClass(DataPoint)
    else if typeName == "CommentGraphPoint" then ZenClass(Comment)
    else if typeName == "ThresholdGraphPoint" then ZenClass(Threshold)
    else ClassName("DataPointGraphPoint")
  }

  /** Every variant is found again under its own class name. */
  lemma GraphPointTypeForKindName(k: GraphPointKind)
    ensures GraphPointTypeFor(KindName(k)) == ZenClass(k)
  {
  }

  /**
   * The class the host instantiates is the one registered under the type
   * name, and the data-point class for any other name.
   */
  lemma KindOfTypeFor(typeName: string)
    ensures var k := KindOf(GraphPointTypeFor(typeName));
            && (typeName in KnownTypeNames ==> KindName(k) == typeName)
            && (typeName !in KnownTypeNames ==> k == DataPoint)
  {
  }

  // ---------------------------------------------------------------------
  // dpName shorthand
  // ---------------------------------------------------------------------

  /** A datapoint named like its datasource may be written once: "x" stands for "x_x". */
  function ExpandDpName(dpName: Option<string>): (r: Option<string>)
    ensures dpName.None? ==> r.None?
    ensures dpName.Some? && (dpName.value == "" || '_' in dpName.value) ==> r == dpName
    ensures dpName.Some? && dpName.value != "" && '_' !in dpName.value ==>
              r == Some(dpName.value + "_" + dpName.value)
  {
    match dpName
    case None => None
    case Some(s) => if s != "" && '_' !in s then Some(s + "_" + s) else dpName
  }

  /** Splits at the first `sep`: the datasource part and the datapoint part of a dpName. */
  function SplitFirst(s: string, sep: char): (r: Option<(string, string)>)
    ensures r.None? <==> sep !in s
    ensures r.Some? ==> sep !in r.value.0 && s == r.value.0 + [sep] + r.value.1
  {
    if s == [] then None
    else if s[0] == sep then Some(([], s[1..]))
    else match SplitFirst(s[1..], sep)
      case None => None
      case Some((a, b)) => Some(([s[0]] + a, b))
  }

  lemma {:induction false} SplitFirstOfJoin(a: string, sep: char, b: string)
    requires sep !in a
    ensures SplitFirst(a + [sep] + b, sep) == Some((a, b))
  {
    var s := a + [sep] + b;
    if a == [] {
      assert s[0] == sep && s[1..] == b;
    } else {
      assert s[0] == a[0] && a[0] != sep;
      assert s[1..] == a[1..] + [sep] + b;
      assert sep !in a[1..] by {
        assert forall k :: 0 <= k < |a[1..]| ==> a[1..][k] == a[k + 1];
      }
      SplitFirstOfJoin(a[1..], sep, b);
      assert [a[0]] + a[1..] == a;
    }
  }

  /** The expanded shorthand names the datasource "x" and its datapoint "x". */
  lemma ExpandedDpNameSplits(s: string)
    requires s != "" && '_' !in s
    ensures ExpandDpName(Some(s)).Some?
    ensures SplitFirst(ExpandDpName(Some(s)).value, '_') == Some((s, s))
  {
    SplitFirstOfJoin(s, '_', s);
  }

  /** Expanding an already expanded name changes nothing. */
  lemma ExpandDpNameIdempotent(dpName: Option<string>)
    ensures ExpandDpName(ExpandDpName(dpName)) == ExpandDpName(dpName)
  {
    if dpName.Some? && dpName.value != "" && '_' !in dpName.value {
      var s := dpName.value;
      assert (s + "_" + s)[|s|] == '_';
    }
  }
}
