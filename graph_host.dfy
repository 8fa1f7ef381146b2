/**
 * The host platform's graph objects, reduced to the surface the graph-point
 * spec uses: a graph point is an id, a variant, the ids of its declared
 * properties (`_properties`) and the attribute values set on it; a graph
 * creates graph points and hands back the threshold graph points that belong
 * to a datapoint.
 */
module GraphHost {
  import opened Wrappers
  import opened PyValues

  /** The three graph-point classes of `GRAPHPOINT_TYPES`. */
  datatype GraphPointKind = DataPoint | Comment | Threshold

  /**
   * What the spec passes to `createGraphPoint`: a ZenModel class, or, for an
   * unknown type name, the bare class name string.
   */
  datatype GraphPointType = ZenClass(kind: GraphPointKind) | ClassName(name: string)

  /** The class name under which each variant is registered. */
  function KindName(k: GraphPointKind): string {
    match k
    case DataPoint => "DataPointGraphPoint"
    case Comment => "CommentGraphPoint"
    case Threshold => "ThresholdGraphPoint"
  }

  /** The variant the host instantiates for a type: a bare name counts as the data-point class. */
  function KindOf(t: GraphPointType): GraphPointKind {
    match t
    case ZenClass(k) => k
    case ClassName(_) => DataPoint
  }

  /** `"%s" % t`: a class prints as its qualified name, a string as itself. */
  function Display(t: GraphPointType): string {
    match t
    case ZenClass(k) => "<class 'Products.ZenModel." + KindName(k) + "." + KindName(k) + "'>"
    case ClassName(n) => n
  }

  class GraphPoint {
    const id: string
    const kind: GraphPointKind
    /** The ids listed in the instance's `_properties`. */
    const declared: set<string>
    /** Attribute values set on the instance. */
    var attrs: map<string, Value>

    constructor(id: string, kind: GraphPointKind, declared: set<string>)
      ensures this.id == id && this.kind == kind && this.declared == declared
      ensures attrs == map[]
    {
      this.id := id;
      this.kind := kind;
      this.declared := declared;
      attrs := map[];
    }

    /** `setattr(gp, name, v)`. */
    method SetAttr(name: string, v: Value)
      modifies this
      ensures attrs == old(attrs)[name := v]
    {
      attrs := attrs[name := v];
    }
  }

  class Graph {
    /** The declared property ids of each graph-point class. */
    const propertyIds: GraphPointKind -> set<string>
    /** The threshold graph points the graph holds for each datapoint name. */
    const thresholdPoints: map<string, seq<GraphPoint>>
    /** The graph points created on this graph, in order. */
    var points: seq<GraphPoint>

    constructor(propertyIds: GraphPointKind -> set<string>, thresholdPoints: map<string, seq<GraphPoint>>)
      ensures this.propertyIds == propertyIds && this.thresholdPoints == thresholdPoints
      ensures points == []
    {
      this.propertyIds := propertyIds;
      this.thresholdPoints := thresholdPoints;
      points := [];
    }

    /** The threshold graph points for a datapoint name; none for an absent name. */
    function ThresholdsFor(dpName: Option<string>): seq<GraphPoint> {
      if dpName.Some? && dpName.value in thresholdPoints then thresholdPoints[dpName.value] else []
    }

    /** `graph.createGraphPoint(t, id)`: a new, empty graph point of the variant `t` names. */
    method CreateGraphPoint(t: GraphPointType, id: string) returns (gp: GraphPoint)
      modifies this
      ensures fresh(gp)
      ensures gp.id == id && gp.kind == KindOf(t) && gp.declared == propertyIds(KindOf(t))
      ensures gp.attrs == map[]
      ensures points == old(points) + [gp]
    {
      gp := new GraphPoint(id, KindOf(t), propertyIds(KindOf(t)));
      points := points + [gp];
    }

    /** `graph.addThresholdsForDataPoint(dpName)`: the graph's threshold graph points for it. */
    method AddThresholdsForDataPoint(dpName: Option<string>) returns (gps: seq<GraphPoint>)
      ensures gps == ThresholdsFor(dpName)
    {
      gps := ThresholdsFor(dpName);
    }
  }
}
