/** The signature of an anonymous Go function: an immutable record of
    parameters, return types and one provenance tag per parameter, four
    copy-on-write mutators, and the validating renderer `Generate`. */
module Generator {
  import opened Outcomes
  import opened Strings

  /** Diagnostic origin of a parameter: the caller line that added it. */
  type Tag = string

  /** One parameter; an empty `typ` is Go's grouped shorthand `(a, b T)`. */
  datatype FuncParameter = FuncParameter(name: string, typ: string)

  datatype AnonymousFuncSignature = AnonymousFuncSignature(
    funcParameters: seq<FuncParameter>,
    returnTypes: seq<string>,
    callers: seq<Tag>)

  /** The two ways rendering can fail, each carrying the offending
      parameter's provenance tag. */
  datatype GenError =
    | FuncParameterNameIsEmpty(caller: Tag)
    | LastFuncParameterTypeIsEmpty(caller: Tag)

  /** Every parameter has exactly one tag, so each tag lookup made while
      rendering is in range. */
  predicate Valid(f: AnonymousFuncSignature)
  {
    |f.callers| == |f.funcParameters|
  }

  function NewAnonymousFuncSignature(): (r: AnonymousFuncSignature)
    ensures Valid(r)
    ensures r.funcParameters == [] && r.returnTypes == [] && r.callers == []
  {
    AnonymousFuncSignature([], [], [])
  }

  /** Appends `params`; `tags` are what the caller-line lookup yields for
      them, one per parameter. */
  function AddParameters(f: AnonymousFuncSignature, params: seq<FuncParameter>, tags: seq<Tag>)
    : (r: AnonymousFuncSignature)
    requires |tags| == |params|
    ensures Valid(f) <==> Valid(r)
    ensures |r.funcParameters| == |f.funcParameters| + |params|
    ensures r.funcParameters[..|f.funcParameters|] == f.funcParameters
    ensures r.funcParameters[|f.funcParameters|..] == params
    ensures |r.callers| == |f.callers| + |tags|
    ensures r.callers[..|f.callers|] == f.callers && r.callers[|f.callers|..] == tags
    ensures r.returnTypes == f.returnTypes
  {
    AnonymousFuncSignature(f.funcParameters + params, f.returnTypes, f.callers + tags)
  }

  /** Replaces the parameters, and with them all tags. */
  function Parameters(f: AnonymousFuncSignature, params: seq<FuncParameter>, tags: seq<Tag>)
    : (r: AnonymousFuncSignature)
    requires |tags| == |params|
    ensures Valid(r)
    ensures r.funcParameters == params && r.callers == tags
    ensures r.returnTypes == f.returnTypes
  {
    AnonymousFuncSignature(params, f.returnTypes, tags)
  }

  function AddReturnTypes(f: AnonymousFuncSignature, types: seq<string>): (r: AnonymousFuncSignature)
    ensures Valid(f) <==> Valid(r)
    ensures |r.returnTypes| == |f.returnTypes| + |types|
    ensures r.returnTypes[..|f.returnTypes|] == f.returnTypes
    ensures r.returnTypes[|f.returnTypes|..] == types
    ensures r.funcParameters == f.funcParameters && r.callers == f.callers
  {
    AnonymousFuncSignature(f.funcParameters, f.returnTypes + types, f.callers)
  }

  function ReturnTypes(f: AnonymousFuncSignature, types: seq<string>): (r: AnonymousFuncSignature)
    ensures Valid(f) <==> Valid(r)
    ensures r.returnTypes == types
    ensures r.funcParameters == f.funcParameters && r.callers == f.callers
  {
    AnonymousFuncSignature(f.funcParameters, types, f.callers)
  }

  /** The index of the first parameter with an empty name, if any. */
  function FirstEmptyName(params: seq<FuncParameter>): (r: Option<nat>)
    ensures r.None? <==> forall j :: 0 <= j < |params| ==> params[j].name != ""
    ensures r.Some? ==> r.value < |params| && params[r.value].name == ""
    ensures r.Some? ==> forall j :: 0 <= j < r.value ==> params[j].name != ""
  {
    if |params| == 0 then None
    else if params[0].name == "" then Some(0)
    else
      match FirstEmptyName(params[1..])
      case None => None
      case Some(k) => Some(k + 1)
  }

  /** `name`, or `name type` when the type is given. */
  function RenderParam(p: FuncParameter): (text: string)
  {
    if p.typ == "" then p.name else p.name + " " + p.typ
  }

  function RenderParams(params: seq<FuncParameter>): (texts: seq<string>)
  {
    seq(|params|, i requires 0 <= i < |params| => RenderParam(params[i]))
  }

  /** What follows the closing parenthesis of the parameter list. */
  function ReturnClause(types: seq<string>): (clause: string)
  {
    if |types| == 0 then ""
    else if |types| == 1 then " " + types[0]
    else " (" + Join(types, ", ") + ")"
  }

  /** The rendered signature, or the first error in the order the Go code
      meets it: an empty name anywhere beats an empty final type. */
  function Generate(f: AnonymousFuncSignature): (r: Result<string, GenError>)
    requires Valid(f)
  {
    var ps := f.funcParameters;
    match FirstEmptyName(ps)
    case Some(i) => Err(FuncParameterNameIsEmpty(f.callers[i]))
    case None =>
      if |ps| > 0 && ps[|ps| - 1].typ == "" then
        Err(LastFuncParameterTypeIsEmpty(f.callers[|ps| - 1]))
      else
        Ok("(" + Join(RenderParams(ps), ", ") + ")" + ReturnClause(f.returnTypes))
  }

  /** The renderer as the Go code runs it: one pass over the parameters that
      returns at the first empty name and remembers only whether the most
      recent parameter had a type. `indentLevel` is accepted and never read. */
  method GenerateStepwise(f: AnonymousFuncSignature, indentLevel: int)
    returns (r: Result<string, GenError>)
    requires Valid(f)
    ensures r == Generate(f)
  {
    var ps := f.funcParameters;
    var stmt := "(";
    var typeExisted := true;
    var typeMissingCaller: Tag := "";
    var params: seq<string> := seq(|ps|, _ => "");
    var i := 0;
    while i < |ps|
      invariant 0 <= i <= |ps|
      invariant |params| == |ps|
      invariant forall j :: 0 <= j < i ==> params[j] == RenderParam(ps[j])
      invariant forall j :: 0 <= j < i ==> ps[j].name != ""
      invariant typeExisted <==> (i == 0 || ps[i - 1].typ != "")
      invariant 0 < i && !typeExisted ==> typeMissingCaller == f.callers[i - 1]
    {
      var param := ps[i];
      if param.name == "" {
        r := Err(FuncParameterNameIsEmpty(f.callers[i]));
        return;
      }
      var paramSet := param.name;
      typeExisted := param.typ != "";
      if typeExisted {
        paramSet := paramSet + " " + param.typ;
      }
      if !typeExisted {
        typeMissingCaller := f.callers[i];
      }
      params := params[i := paramSet];
      i := i + 1;
    }
    if !typeExisted {
      r := Err(LastFuncParameterTypeIsEmpty(typeMissingCaller));
      return;
    }
    assert params == RenderParams(ps);
    assert FirstEmptyName(ps).None?;
    stmt := stmt + Join(params, ", ") + ")";
    var returnTypes := f.returnTypes;
    if |returnTypes| == 0 {
    } else if |returnTypes| == 1 {
      stmt := stmt + " " + returnTypes[0];
    } else {
      stmt := stmt + " (" + Join(returnTypes, ", ") + ")";
    }
    assert stmt == "(" + Join(params, ", ") + ")" + ReturnClause(returnTypes);
    r := Ok(stmt);
  }

  /** An empty parameter list never fails: it renders as `()` and the
      return clause. */
  lemma EmptyParameterList(f: AnonymousFuncSignature)
    requires Valid(f) && |f.funcParameters| == 0
    ensures Generate(f) == Ok("()" + ReturnClause(f.returnTypes))
  {
    assert RenderParams(f.funcParameters) == [];
    assert "(" + "" + ")" == "()";
  }

  /** An empty name fails with the tag of the first such parameter, whatever
      the types of the parameters are. */
  lemma EmptyNameFails(f: AnonymousFuncSignature, i: nat)
    requires Valid(f) && i < |f.funcParameters|
    requires f.funcParameters[i].name == ""
    requires forall j :: 0 <= j < i ==> f.funcParameters[j].name != ""
    ensures Generate(f) == Err(FuncParameterNameIsEmpty(f.callers[i]))
  {
  }

  /** With every name present, rendering fails exactly when the final
      parameter has no type, and then reports the final parameter's tag. */
  lemma LastTypeDecides(f: AnonymousFuncSignature)
    requires Valid(f)
    requires forall j :: 0 <= j < |f.funcParameters| ==> f.funcParameters[j].name != ""
    ensures var n := |f.funcParameters|;
      Generate(f).Err? <==> n > 0 && f.funcParameters[n - 1].typ == ""
    ensures var n := |f.funcParameters|;
      Generate(f).Err? ==> Generate(f).error == LastFuncParameterTypeIsEmpty(f.callers[n - 1])
  {
  }

  /** Rendering fails exactly on an empty name or an empty final type;
      an empty type on an earlier parameter is accepted. */
  lemma FailsIff(f: AnonymousFuncSignature)
    requires Valid(f)
    ensures var ps := f.funcParameters;
      Generate(f).Err? <==>
        (exists j :: 0 <= j < |ps| && ps[j].name == "") || (|ps| > 0 && ps[|ps| - 1].typ == "")
  {
  }

  /** Return types never influence whether or how rendering fails. */
  lemma ReturnTypesDoNotAffectErrors(f: AnonymousFuncSignature, types: seq<string>)
    requires Valid(f)
    ensures Generate(ReturnTypes(f, types)).Err? <==> Generate(f).Err?
    ensures Generate(f).Err? ==> Generate(ReturnTypes(f, types)) == Generate(f)
  {
  }

  /** Appending parameters to a signature whose names are all present
      reports an empty name among the new ones with the tag supplied for it
      by that same call. */
  lemma AddedEmptyNameReportsItsTag(
    f: AnonymousFuncSignature, params: seq<FuncParameter>, tags: seq<Tag>, k: nat)
    requires Valid(f) && |tags| == |params|
    requires forall j :: 0 <= j < |f.funcParameters| ==> f.funcParameters[j].name != ""
    requires k < |params| && params[k].name == ""
    requires forall j :: 0 <= j < k ==> params[j].name != ""
    ensures Generate(AddParameters(f, params, tags)) == Err(FuncParameterNameIsEmpty(tags[k]))
  {
  }

  /** Adding parameters twice is adding them once, in the same order. */
  lemma AddParametersTwice(
    f: AnonymousFuncSignature, a: seq<FuncParameter>, ta: seq<Tag>, b: seq<FuncParameter>, tb: seq<Tag>)
    requires |ta| == |a| && |tb| == |b|
    ensures AddParameters(AddParameters(f, a, ta), b, tb) == AddParameters(f, a + b, ta + tb)
  {
  }

  /** The signature used by the `func(bar string) string` expression in the
      generator's root test. */
  lemma RootTestSignature()
    ensures Generate(AddReturnTypes(
              AddParameters(NewAnonymousFuncSignature(), [FuncParameter("bar", "string")], ["t"]),
              ["string"]))
            == Ok("(bar string) string")
  {
    var ps := [FuncParameter("bar", "string")];
    var f := AddReturnTypes(AddParameters(NewAnonymousFuncSignature(), ps, ["t"]), ["string"]);
    assert f.funcParameters == [] + ps == ps;
    assert f.returnTypes == [] + ["string"] == ["string"];
    assert RenderParam(ps[0]) == "bar string";
    var texts := RenderParams(ps);
    assert |texts| == 1 && texts[0] == "bar string";
    assert texts == ["bar string"];
    assert FirstEmptyName(ps) == None;
    assert Join(texts, ", ") == "bar string";
    assert ReturnClause(["string"]) == " string";
    assert "(" + "bar string" + ")" + " string" == "(bar string) string";
  }

  /** Grouped shorthand: `a` borrows the type of `b`. */
  lemma GroupedShorthandExample()
    ensures Generate(AnonymousFuncSignature(
              [FuncParameter("a", ""), FuncParameter("b", "string")], [], ["t1", "t2"]))
            == Ok("(a, b string)")
  {
    var ps := [FuncParameter("a", ""), FuncParameter("b", "string")];
    assert RenderParam(ps[0]) == "a";
    assert RenderParam(ps[1]) == "b string";
    var texts := RenderParams(ps);
    assert |texts| == 2 && texts[0] == "a" && texts[1] == "b string";
    assert texts == ["a", "b string"];
    assert FirstEmptyName(ps) == None;
    assert Join(["b string"], ", ") == "b string";
    assert Join(["a", "b string"], ", ") == "a" + ", " + "b string" == "a, b string";
    assert "(" + "a, b string" + ")" + "" == "(a, b string)";
  }

  /** Two return types are parenthesised and comma-separated. */
  lemma MultipleReturnTypesExample()
    ensures ReturnClause(["string", "error"]) == " (string, error)"
  {
  }
}
