/**
 * A graph point's extra params: the lineType and cFunc checks made when the
 * spec is declared, and the overlay of the params onto the graph point made
 * when it is created.
 */
module ExtraParams {
  import opened Wrappers
  import opened PyValues
  import opened GraphHost

  // ---------------------------------------------------------------------
  // extra_params validation
  // ---------------------------------------------------------------------

  const ConsolidationFunctions: seq<Value> := [StrVal("AVERAGE"), StrVal("MIN"), StrVal("MAX"), StrVal("LAST")]

  function LineTypeMessage(lineType: string, valid: seq<string>): string {
    "'" + lineType + "' is not a valid graphpoint lineType. Valid lineTypes: " + Join(valid, ", ")
  }

  /** The lineType step: upper-case it if that is an allowed value, otherwise raise. */
  function CheckedLineType(ps: Entries, lineTypes: seq<string>): (r: Result<Entries, Error>)
    ensures r.Success? ==> Keys(r.value) == Keys(ps)
    ensures r.Failure? ==> Truthy(Get(ps, "lineType"))
  {
    var lineType := Get(ps, "lineType");
    if !Truthy(lineType) then Success(ps)
    else if !lineType.StrVal? then Failure(AttributeError)
    else if AsciiUpper(lineType.s) in lineTypes then Success(Put(ps, "lineType", StrVal(AsciiUpper(lineType.s))))
    else Failure(ValueError(LineTypeMessage(lineType.s, lineTypes)))
  }

  /** The cFunc step: a present cFunc outside the four consolidation functions becomes AVERAGE. */
  function CheckedCFunc(ps: Entries): (r: Entries)
    ensures Keys(r) == Keys(ps)
    ensures forall k :: 0 <= k < |ps| && ps[k].0 != "cFunc" ==> r[k] == ps[k]
  {
    var cFunc := Get(ps, "cFunc");
    if cFunc != NoneVal && cFunc !in ConsolidationFunctions then Put(ps, "cFunc", StrVal("AVERAGE")) else ps
  }

  /** `validate_extra_params`: the checked mapping, or the error it raises. */
  function ValidatedExtraParams(ps: Entries, lineTypes: seq<string>): (r: Result<Entries, Error>)
    ensures r.Success? ==> Keys(r.value) == Keys(ps)
    ensures r.Success? ==> forall k :: 0 <= k < |ps| && ps[k].0 != "lineType" && ps[k].0 != "cFunc" ==> r.value[k] == ps[k]
  {
    var checked :- CheckedLineType(ps, lineTypes);
    Success(CheckedCFunc(checked))
  }

  /**
   * lineType: a truthy string whose upper-case form is allowed is replaced by
   * that form; any other truthy value raises, a string with the message that
   * lists the allowed values; a falsy lineType is left alone.
   */
  lemma ValidateLineType(ps: Entries, lineTypes: seq<string>)
    ensures var lt := Get(ps, "lineType");
            var r := ValidatedExtraParams(ps, lineTypes);
            && (r.Success? <==> !Truthy(lt) || (lt.StrVal? && AsciiUpper(lt.s) in lineTypes))
            && (r.Success? && Truthy(lt) ==> Get(r.value, "lineType") == StrVal(AsciiUpper(lt.s)))
            && (r.Success? && !Truthy(lt) ==> Get(r.value, "lineType") == lt)
            && (Truthy(lt) && lt.StrVal? && AsciiUpper(lt.s) !in lineTypes ==>
                  r == Failure(ValueError(LineTypeMessage(lt.s, lineTypes))))
            && (Truthy(lt) && !lt.StrVal? ==> r == Failure(AttributeError))
  {
    var lt := Get(ps, "lineType");
    if Truthy(lt) && lt.StrVal? && AsciiUpper(lt.s) in lineTypes {
      var p := Put(ps, "lineType", StrVal(AsciiUpper(lt.s)));
      GetAfterPut(ps, "lineType", StrVal(AsciiUpper(lt.s)), "cFunc");
      if Get(p, "cFunc") != NoneVal && Get(p, "cFunc") !in ConsolidationFunctions {
        GetAfterPut(p, "cFunc", StrVal("AVERAGE"), "lineType");
      }
    } else if !Truthy(lt) {
      if Get(ps, "cFunc") != NoneVal && Get(ps, "cFunc") !in ConsolidationFunctions {
        GetAfterPut(ps, "cFunc", StrVal("AVERAGE"), "lineType");
      }
    }
  }

  /**
   * cFunc: when validation succeeds, a cFunc among AVERAGE, MIN, MAX, LAST is
   * kept, any other present value becomes AVERAGE, and an absent one stays absent.
   */
  lemma ValidateCFunc(ps: Entries, lineTypes: seq<string>)
    requires ValidatedExtraParams(ps, lineTypes).Success?
    ensures var cf := Get(ps, "cFunc");
            var out := Get(ValidatedExtraParams(ps, lineTypes).value, "cFunc");
            && (cf in ConsolidationFunctions ==> out == cf)
            && (cf != NoneVal && cf !in ConsolidationFunctions ==> out == StrVal("AVERAGE"))
            && (cf == NoneVal ==> out == NoneVal)
            && out in ConsolidationFunctions + [NoneVal]
  {
    var lt := Get(ps, "lineType");
    var checked := CheckedLineType(ps, lineTypes).value;
    if Truthy(lt) {
      GetAfterPut(ps, "lineType", StrVal(AsciiUpper(lt.s)), "cFunc");
    }
    assert Get(checked, "cFunc") == Get(ps, "cFunc");
    var cf := Get(checked, "cFunc");
    if cf != NoneVal && cf !in ConsolidationFunctions {
      GetAfterPut(checked, "cFunc", StrVal("AVERAGE"), "cFunc");
    }
  }

  /** Storing, under a key, the value every entry of that key already holds changes nothing. */
  lemma PutUnchanged(ps: Entries, key: string, v: Value)
    requires forall k :: 0 <= k < |ps| && ps[k].0 == key ==> ps[k].1 == v
    ensures Put(ps, key, v) == ps
  {
  }

  /** Validating an already validated mapping gives it back unchanged. */
  lemma ValidateIdempotent(ps: Entries, lineTypes: seq<string>)
    requires ValidatedExtraParams(ps, lineTypes).Success?
    ensures ValidatedExtraParams(ValidatedExtraParams(ps, lineTypes).value, lineTypes)
            == ValidatedExtraParams(ps, lineTypes)
  {
    var r := ValidatedExtraParams(ps, lineTypes).value;
    var lt := Get(ps, "lineType");
    var checked := CheckedLineType(ps, lineTypes).value;
    ValidateLineType(ps, lineTypes);
    ValidateCFunc(ps, lineTypes);
    if Truthy(lt) {
      var u := StrVal(AsciiUpper(lt.s));
      AsciiUpperIdempotent(lt.s);
      assert Get(r, "lineType") == u;
      assert forall k :: 0 <= k < |r| && r[k].0 == "lineType" ==> r[k].1 == u;
      PutUnchanged(r, "lineType", u);
      assert CheckedLineType(r, lineTypes) == Success(r);
    } else {
      assert CheckedLineType(r, lineTypes) == Success(r);
    }
    assert CheckedCFunc(r) == r;
  }

  // ---------------------------------------------------------------------
  // create(): the attribute overlay
  // ---------------------------------------------------------------------

  /** The keys of an ordered mapping, as a set. */
  function KeySet(ps: Entries): set<string> {
    set k | 0 <= k < |ps| :: ps[k].0
  }

  /** `setattr` for each pair in order, with no check. */
  function Overlay(attrs: map<string, Value>, ps: Entries): (r: map<string, Value>)
    ensures r.Keys == attrs.Keys + KeySet(ps)
    decreases |ps|
  {
    if ps == [] then attrs
    else
      assert KeySet(ps) == {ps[0].0} + KeySet(ps[1..]) by {
        assert forall k :: 1 <= k < |ps| ==> ps[k] == ps[1..][k - 1];
      }
      Overlay(attrs[ps[0].0 := ps[0].1], ps[1..])
  }

  /** A key the overlay does not mention keeps its value. */
  lemma {:induction false} OverlayKeeps(attrs: map<string, Value>, ps: Entries, key: string)
    requires key in attrs && key !in KeySet(ps)
    ensures Overlay(attrs, ps)[key] == attrs[key]
    decreases |ps|
  {
    if ps != [] {
      assert ps[0].0 in KeySet(ps);
      assert KeySet(ps[1..]) <= KeySet(ps) by {
        assert forall k :: 1 <= k < |ps| ==> ps[1..][k - 1] == ps[k];
      }
      OverlayKeeps(attrs[ps[0].0 := ps[0].1], ps[1..], key);
    }
  }

  /** The last pair for a key decides its value. */
  lemma {:induction false} OverlayLastWins(attrs: map<string, Value>, ps: Entries, i: nat)
    requires i < |ps|
    requires forall j :: i < j < |ps| ==> ps[j].0 != ps[i].0
    ensures Overlay(attrs, ps)[ps[i].0] == ps[i].1
    decreases |ps|
  {
    var rest := ps[1..];
    if i == 0 {
      assert ps[0].0 !in KeySet(rest);
      OverlayKeeps(attrs[ps[0].0 := ps[0].1], rest, ps[0].0);
    } else {
      assert rest[i - 1] == ps[i];
      OverlayLastWins(attrs[ps[0].0 := ps[0].1], rest, i - 1);
    }
  }

  /** With distinct keys, as in a dict, every key ends up with its own value, whatever the order. */
  lemma OverlayDistinct(attrs: map<string, Value>, ps: Entries)
    requires DistinctKeys(ps)
    ensures forall i :: 0 <= i < |ps| ==> Overlay(attrs, ps)[ps[i].0] == ps[i].1
  {
    forall i | 0 <= i < |ps|
      ensures Overlay(attrs, ps)[ps[i].0] == ps[i].1
    {
      OverlayLastWins(attrs, ps, i);
    }
  }

  /** The overlay decides every key it mentions: the starting values there do not matter. */
  lemma {:induction false} OverlayOverrides(a: map<string, Value>, b: map<string, Value>, ps: Entries)
    requires a.Keys + KeySet(ps) == b.Keys + KeySet(ps)
    requires forall k :: k in a && k !in KeySet(ps) ==> k in b && a[k] == b[k]
    ensures Overlay(a, ps) == Overlay(b, ps)
    decreases |ps|
  {
    if ps == [] {
      assert a.Keys == b.Keys;
    } else {
      var k0, v0 := ps[0].0, ps[0].1;
      assert KeySet(ps) == {k0} + KeySet(ps[1..]) by {
        assert forall k :: 1 <= k < |ps| ==> ps[k] == ps[1..][k - 1];
      }
      OverlayOverrides(a[k0 := v0], b[k0 := v0], ps[1..]);
    }
  }

  /** Applying the same overlay twice is applying it once. */
  lemma OverlayIdempotent(attrs: map<string, Value>, ps: Entries)
    ensures Overlay(Overlay(attrs, ps), ps) == Overlay(attrs, ps)
  {
    var once := Overlay(attrs, ps);
    forall k | k in once && k !in KeySet(ps)
      ensures k in attrs && once[k] == attrs[k]
    {
      OverlayKeeps(attrs, ps, k);
    }
    OverlayOverrides(once, attrs, ps);
  }

  /** Index of the first key that is not a declared property, or the length when all are. */
  function FirstUndeclared(ps: Entries, declared: set<string>): (j: nat)
    ensures j <= |ps|
    ensures forall k :: 0 <= k < j ==> ps[k].0 in declared
    ensures j < |ps| ==> ps[j].0 !in declared
  {
    if ps == [] then 0
    else if ps[0].0 in declared then
      var j := FirstUndeclared(ps[1..], declared);
      assert forall k :: 1 <= k < j + 1 ==> ps[k] == ps[1..][k - 1];
      1 + j
    else 0
  }

  function InvalidPropertyMessage(param: string, t: GraphPointType): string {
    param + " is not a valid property for graphoint of type " + Display(t)
  }

  /**
   * The extra-params loop of `create`: each pair is set in order while its key
   * is a declared property; the first undeclared key raises, and the pairs
   * before it stay applied.
   */
  function ApplyExtraParams(attrs: map<string, Value>, declared: set<string>, ps: Entries, t: GraphPointType)
    : (r: (map<string, Value>, Option<Error>))
    ensures r.1.None? <==> forall k :: 0 <= k < |ps| ==> ps[k].0 in declared
    ensures r.1.Some? ==> r.1.value.ValueError?
    decreases |ps|
  {
    if ps == [] then (attrs, None)
    else if ps[0].0 in declared then
      assert forall k :: 1 <= k < |ps| ==> ps[k] == ps[1..][k - 1];
      ApplyExtraParams(attrs[ps[0].0 := ps[0].1], declared, ps[1..], t)
    else (attrs, Some(ValueError(InvalidPropertyMessage(ps[0].0, t))))
  }

  /** Overlaying a prefix of length j + 1 is overlaying its head, then the next j pairs. */
  lemma OverlayPrefixStep(attrs: map<string, Value>, ps: Entries, j: nat)
    requires j < |ps|
    ensures Overlay(attrs, ps[..j + 1]) == Overlay(attrs[ps[0].0 := ps[0].1], ps[1..][..j])
  {
    var prefix := ps[..j + 1];
    assert prefix[0] == ps[0] && prefix[1..] == ps[1..][..j];
  }

  /**
   * The loop sets exactly the pairs before the first undeclared key, in
   * order, and raises for that key; with every key declared it raises nothing.
   */
  lemma {:induction false} ApplyExtraParamsStops(attrs: map<string, Value>, declared: set<string>, ps: Entries, t: GraphPointType)
    ensures var j := FirstUndeclared(ps, declared);
            var r := ApplyExtraParams(attrs, declared, ps, t);
            && r.0 == Overlay(attrs, ps[..j])
            && r.1 == if j < |ps| then Some(ValueError(InvalidPropertyMessage(ps[j].0, t))) else None
    decreases |ps|
  {
    if ps == [] {
    } else if ps[0].0 in declared {
      var next := attrs[ps[0].0 := ps[0].1];
      ApplyExtraParamsStops(next, declared, ps[1..], t);
      var j := FirstUndeclared(ps[1..], declared);
      assert FirstUndeclared(ps, declared) == j + 1;
      OverlayPrefixStep(attrs, ps, j);
      assert j < |ps[1..]| ==> ps[1..][j] == ps[j + 1];
    } else {
      assert FirstUndeclared(ps, declared) == 0 && ps[..0] == [];
    }
  }

  /** When every key is declared, nothing is raised and re-applying changes nothing. */
  lemma ApplyExtraParamsAllDeclared(attrs: map<string, Value>, declared: set<string>, ps: Entries, t: GraphPointType)
    requires forall k :: 0 <= k < |ps| ==> ps[k].0 in declared
    ensures ApplyExtraParams(attrs, declared, ps, t) == (Overlay(attrs, ps), None)
    ensures ApplyExtraParams(Overlay(attrs, ps), declared, ps, t) == ApplyExtraParams(attrs, declared, ps, t)
  {
    var j := FirstUndeclared(ps, declared);
    assert j == |ps|;
    assert ps[..j] == ps;
    ApplyExtraParamsStops(attrs, declared, ps, t);
    ApplyExtraParamsStops(Overlay(attrs, ps), declared, ps, t);
    OverlayIdempotent(attrs, ps);
  }
}
