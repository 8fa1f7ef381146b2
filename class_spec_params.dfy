/**
 * `ClassSpecParams.__init__`: the parameters of a class declaration in a
 * ZenPack's YAML. `base` is coerced to a tuple, `monitoring_templates` to a
 * list, and the property, relationship and impact-trigger children are built
 * by `specs_from_param`, one call per kind, each leaving defaults in place.
 */
module ClassSpecParamsModel {
  import opened Wrappers
  import opened PyValues

  // ---------------------------------------------------------------------
  // Shape coercions
  // ---------------------------------------------------------------------

  /** `isinstance(v, (tuple, list, set))`. */
  predicate IsSequence(v: Value) {
    v.SeqVal?
  }

  /** `tuple(base)` for a tuple, list or set; `(base,)` for anything else, None included. */
  function CoerceBase(base: Value): (r: Value)
    ensures r.SeqVal? && r.kind == Tuple
    ensures IsSequence(base) ==> r.items == base.items
    ensures !IsSequence(base) ==> r.items == [base]
  {
    if IsSequence(base) then SeqVal(Tuple, base.items) else SeqVal(Tuple, [base])
  }

  /** `[]` for None, `list(mt)` for a tuple, list or set, `[mt]` for anything else. */
  function CoerceTemplates(mt: Value): (r: Value)
    ensures r.SeqVal? && r.kind == List
    ensures mt == NoneVal ==> r.items == []
    ensures IsSequence(mt) ==> r.items == mt.items
    ensures mt != NoneVal && !IsSequence(mt) ==> r.items == [mt]
  {
    var given := if mt == NoneVal then SeqVal(List, []) else mt;
    if IsSequence(given) then SeqVal(List, given.items) else SeqVal(List, [given])
  }

  /** The coerced base holds exactly the declared bases, or the single declared value. */
  lemma CoerceBaseMembers(base: Value, x: Value)
    ensures x in CoerceBase(base).items <==> (if IsSequence(base) then x in base.items else x == base)
  {
  }

  /** Feeding the coerced base back in yields it unchanged. */
  lemma CoerceBaseIdempotent(base: Value)
    ensures CoerceBase(CoerceBase(base)) == CoerceBase(base)
  {
  }

  /** A tuple is its own coercion. */
  lemma CoerceBaseOfTuple(items: seq<Value>)
    ensures CoerceBase(SeqVal(Tuple, items)) == SeqVal(Tuple, items)
  {
  }

  /** Feeding the coerced template list back in yields it unchanged. */
  lemma CoerceTemplatesIdempotent(mt: Value)
    ensures CoerceTemplates(CoerceTemplates(mt)) == CoerceTemplates(mt)
  {
  }

  /** The coerced templates are the declared ones, in order; None declares none. */
  lemma CoerceTemplatesMembers(mt: Value, x: Value)
    ensures x in CoerceTemplates(mt).items <==>
            (if mt == NoneVal then false else if IsSequence(mt) then x in mt.items else x == mt)
  {
  }

  // ---------------------------------------------------------------------
  // Child specs
  // ---------------------------------------------------------------------

  /** The child spec-params classes a class declaration builds. */
  datatype ChildType = ClassPropertySpecParams | ClassRelationshipSpecParams | ImpactTriggerSpecParams

  /** One `specs_from_param(childType, field, raw, leave_defaults=...)` call. */
  datatype SpecsCall = SpecsCall(childType: ChildType, field: string, raw: Value, leaveDefaults: bool)

  /** The keyword arguments of `ClassSpecParams(...)` that the model keeps. */
  datatype ClassDeclaration = ClassDeclaration(
    name: string,
    base: Value,
    properties: Value,
    relationships: Value,
    impactTriggers: Value,
    monitoringTemplates: Value)

  /** The field of the declaration that each child kind is read from. */
  function FieldName(c: ChildType): string {
    match c
    case ClassPropertySpecParams => "properties"
    case ClassRelationshipSpecParams => "relationships"
    case ImpactTriggerSpecParams => "impact_triggers"
  }

  /** The declared value of a child kind's field. */
  function Declared(d: ClassDeclaration, c: ChildType): Value {
    match c
    case ClassPropertySpecParams => d.properties
    case ClassRelationshipSpecParams => d.relationships
    case ImpactTriggerSpecParams => d.impactTriggers
  }

  /** The call that builds one kind of child from a declaration: defaults are left in place. */
  function ChildCall(d: ClassDeclaration, c: ChildType): SpecsCall {
    SpecsCall(c, FieldName(c), Declared(d, c), true)
  }

  /** The three calls of the constructor, in the order it makes them. */
  function ChildCalls(d: ClassDeclaration): (r: seq<SpecsCall>)
    ensures |r| == 3
    ensures r[0].childType == ClassPropertySpecParams
    ensures r[1].childType == ClassRelationshipSpecParams
    ensures r[2].childType == ImpactTriggerSpecParams
  {
    [ChildCall(d, ClassPropertySpecParams), ChildCall(d, ClassRelationshipSpecParams), ChildCall(d, ImpactTriggerSpecParams)]
  }

  /**
   * Each call is for its own kind and its own field, passes that field's
   * declared value, and leaves defaults for a later inheritance pass.
   */
  lemma ChildCallsShape(d: ClassDeclaration)
    ensures var calls := ChildCalls(d);
            && (forall i :: 0 <= i < |calls| ==> calls[i].leaveDefaults)
            && (forall i :: 0 <= i < |calls| ==> calls[i].raw == Declared(d, calls[i].childType))
            && (forall i :: 0 <= i < |calls| ==> calls[i].field == FieldName(calls[i].childType))
            && (forall i, j :: 0 <= i < j < |calls| ==> calls[i].childType != calls[j].childType && calls[i].field != calls[j].field)
  {
    var calls := ChildCalls(d);
    assert forall i :: 0 <= i < |calls| ==> calls[i] == ChildCall(d, calls[i].childType);
  }

  /**
   * The calls made one after another: the results in order, or the error of
   * the first call that raises, after which no further call is made.
   */
  function CallAll<S>(calls: seq<SpecsCall>, specsFromParam: SpecsCall -> Result<map<string, S>, Error>)
    : (r: Result<seq<map<string, S>>, Error>)
    ensures r.Success? ==> |r.value| == |calls|
  {
    if calls == [] then Success([])
    else match specsFromParam(calls[0])
      case Failure(e) => Failure(e)
      case Success(m) =>
        var rest :- CallAll(calls[1..], specsFromParam);
        Success([m] + rest)
  }

  /**
   * All calls succeed exactly when the results are each call's own result;
   * otherwise the error is that of a call all of whose predecessors succeeded.
   */
  lemma {:induction false} CallAllOutcome<S>(calls: seq<SpecsCall>, specsFromParam: SpecsCall -> Result<map<string, S>, Error>)
    ensures var r := CallAll(calls, specsFromParam);
            && (r.Success? ==> forall i :: 0 <= i < |calls| ==> specsFromParam(calls[i]) == Success(r.value[i]))
            && (r.Failure? ==>
                  exists i :: 0 <= i < |calls| && specsFromParam(calls[i]) == Failure(r.error) &&
                              forall k :: 0 <= k < i ==> specsFromParam(calls[k]).Success?)
  {
    if calls != [] && specsFromParam(calls[0]).Success? {
      CallAllOutcome(calls[1..], specsFromParam);
      var r := CallAll(calls, specsFromParam);
      var rest := CallAll(calls[1..], specsFromParam);
      if r.Success? {
        assert r.value == [specsFromParam(calls[0]).value] + rest.value;
        assert forall i :: 1 <= i < |calls| ==> calls[i] == calls[1..][i - 1];
      } else {
        var i :| 0 <= i < |calls[1..]| && specsFromParam(calls[1..][i]) == Failure(rest.error) &&
                 forall k :: 0 <= k < i ==> specsFromParam(calls[1..][k]).Success?;
        assert forall k :: 1 <= k < i + 1 ==> calls[k] == calls[1..][k - 1];
        assert specsFromParam(calls[i + 1]) == Failure(r.error);
      }
    }
  }

  /** The first call decides whether the later ones are made. */
  lemma CallAllHead<S>(calls: seq<SpecsCall>, specsFromParam: SpecsCall -> Result<map<string, S>, Error>)
    requires calls != []
    ensures specsFromParam(calls[0]).Failure? ==> CallAll(calls, specsFromParam) == Failure(specsFromParam(calls[0]).error)
    ensures specsFromParam(calls[0]).Success? ==>
              CallAll(calls, specsFromParam) ==
              (var rest := CallAll(calls[1..], specsFromParam);
               if rest.Success? then Success([specsFromParam(calls[0]).value] + rest.value) else Failure(rest.error))
  {
  }

  /** When every call succeeds, so does the whole construction. */
  lemma {:induction false} CallAllSucceeds<S>(calls: seq<SpecsCall>, specsFromParam: SpecsCall -> Result<map<string, S>, Error>)
    requires forall i :: 0 <= i < |calls| ==> specsFromParam(calls[i]).Success?
    ensures CallAll(calls, specsFromParam).Success?
  {
    if calls != [] {
      assert forall i :: 0 <= i < |calls[1..]| ==> calls[1..][i] == calls[i + 1];
      CallAllSucceeds(calls[1..], specsFromParam);
    }
  }

  // ---------------------------------------------------------------------
  // The params object
  // ---------------------------------------------------------------------

  class ClassSpecParams<S> {
    var name: string
    var base: Value
    var monitoringTemplates: Value
    var properties: map<string, S>
    var relationships: map<string, S>
    var impactTriggers: map<string, S>

    /** `base` is a tuple and `monitoring_templates` a list, whatever shape they were declared in. */
    predicate Valid()
      reads this
    {
      && base.SeqVal? && base.kind == Tuple
      && monitoringTemplates.SeqVal? && monitoringTemplates.kind == List
    }

    /** The coerced fields the constructor sets before it builds any child. */
    constructor Coerced(d: ClassDeclaration)
      ensures Valid()
      ensures name == d.name
      ensures base == CoerceBase(d.base) && monitoringTemplates == CoerceTemplates(d.monitoringTemplates)
      ensures properties == map[] && relationships == map[] && impactTriggers == map[]
    {
      name := d.name;
      base := CoerceBase(d.base);
      monitoringTemplates := CoerceTemplates(d.monitoringTemplates);
      properties := map[];
      relationships := map[];
      impactTriggers := map[];
    }

    /**
     * `ClassSpecParams(zenpack_spec, name, base, properties, relationships,
     * impact_triggers, monitoring_templates)`. `specsFromParam` stands for the
     * inherited `specs_from_param`; an error it raises ends the construction.
     */
    static method New(d: ClassDeclaration, specsFromParam: SpecsCall -> Result<map<string, S>, Error>)
      returns (r: Result<ClassSpecParams<S>, Error>)
      ensures r.Success? <==> CallAll(ChildCalls(d), specsFromParam).Success?
      ensures r.Failure? ==> r.error == CallAll(ChildCalls(d), specsFromParam).error
      ensures r.Success? ==> fresh(r.value) && r.value.Valid()
      ensures r.Success? ==>
                && r.value.name == d.name
                && r.value.base == CoerceBase(d.base)
                && r.value.monitoringTemplates == CoerceTemplates(d.monitoringTemplates)
                && [r.value.properties, r.value.relationships, r.value.impactTriggers] ==
                   CallAll(ChildCalls(d), specsFromParam).value
    {
      var c := new ClassSpecParams.Coerced(d);
      var calls := ChildCalls(d);
      CallAllHead(calls, specsFromParam);
      CallAllHead(calls[1..], specsFromParam);
      CallAllHead(calls[2..], specsFromParam);
      assert calls[1..][1..] == calls[2..] && calls[2..][1..] == [];
      var p := specsFromParam(calls[0]);
      if p.Failure? {
        return Failure(p.error);
      }
      c.properties := p.value;
      var q := specsFromParam(calls[1]);
      if q.Failure? {
        return Failure(q.error);
      }
      c.relationships := q.value;
      var t := specsFromParam(calls[2]);
      if t.Failure? {
        return Failure(t.error);
      }
      c.impactTriggers := t.value;
      r := Success(c);
    }
  }
}
