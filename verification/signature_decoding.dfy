/** Reading a rendered signature back into its parameters and return types.
    The decoder is the inverse of `Generator.Generate`: for signatures whose
    names and types are plain identifiers, decoding the rendered text gives
    back exactly what was rendered, so the renderer loses nothing — not the
    order, not which parameters omitted their type, not the number of return
    types. */
module SignatureDecoding {
  import opened Outcomes
  import opened Strings
  import opened Generator

  /** A name or type free of the characters the rendered syntax uses as
      punctuation. */
  predicate Atom(s: string)
  {
    s != "" && ',' !in s && ' ' !in s && '(' !in s && ')' !in s
  }

  /** A parameter whose name is an atom and whose type is an atom or omitted. */
  predicate PlainParam(p: FuncParameter)
  {
    Atom(p.name) && (p.typ == "" || Atom(p.typ))
  }

  predicate Plain(f: AnonymousFuncSignature)
  {
    && (forall i :: 0 <= i < |f.funcParameters| ==> PlainParam(f.funcParameters[i]))
    && (forall i :: 0 <= i < |f.returnTypes| ==> Atom(f.returnTypes[i]))
  }

  /** `name` or `name type`. */
  function DecodeParam(text: string): (r: Option<FuncParameter>)
  {
    var words := SplitOn(text, " ");
    if |words| == 1 then Some(FuncParameter(words[0], ""))
    else if |words| == 2 then Some(FuncParameter(words[0], words[1]))
    else None
  }

  function DecodeEach(texts: seq<string>): (r: Option<seq<FuncParameter>>)
    ensures r.Some? ==> |r.value| == |texts|
  {
    if |texts| == 0 then Some([])
    else
      match (DecodeParam(texts[0]), DecodeEach(texts[1..]))
      case (Some(p), Some(ps)) => Some([p] + ps)
      case _ => None
  }

  /** The text between the parentheses of the parameter list. */
  function DecodeParams(text: string): (r: Option<seq<FuncParameter>>)
  {
    if text == "" then Some([]) else DecodeEach(SplitOn(text, ", "))
  }

  /** The text after the parameter list: nothing, ` T`, or ` (T1, T2, ...)`. */
  function DecodeReturnClause(clause: string): (r: Option<seq<string>>)
  {
    if clause == "" then Some([])
    else if 3 <= |clause| && clause[..2] == " (" && clause[|clause| - 1] == ')' then
      Some(SplitOn(clause[2..|clause| - 1], ", "))
    else if clause[0] == ' ' then Some([clause[1..]])
    else None
  }

  function DecodeSignature(s: string): (r: Option<(seq<FuncParameter>, seq<string>)>)
  {
    if |s| == 0 || s[0] != '(' then None
    else
      match SplitFirst(s[1..], ')')
      case None => None
      case Some((params, clause)) =>
        match (DecodeParams(params), DecodeReturnClause(clause))
        case (Some(ps), Some(types)) => Some((ps, types))
        case _ => None
  }

  lemma DecodeRenderedParam(p: FuncParameter)
    requires PlainParam(p)
    ensures DecodeParam(RenderParam(p)) == Some(p)
  {
    if p.typ == "" {
      SplitOnWithoutSeparator(p.name, " ");
    } else {
      SplitOnAfterPrefix(p.name, " ", p.typ);
      SplitOnWithoutSeparator(p.typ, " ");
    }
  }

  lemma {:induction false} DecodeEachRendered(ps: seq<FuncParameter>)
    requires forall i :: 0 <= i < |ps| ==> PlainParam(ps[i])
    ensures DecodeEach(RenderParams(ps)) == Some(ps)
  {
    if |ps| > 0 {
      var texts := RenderParams(ps);
      assert texts[1..] == RenderParams(ps[1..]);
      DecodeRenderedParam(ps[0]);
      DecodeEachRendered(ps[1..]);
      assert [ps[0]] + ps[1..] == ps;
    }
  }

  /** A rendered plain parameter contains neither `,` nor `)`. */
  lemma RenderedParamPunctuation(p: FuncParameter)
    requires PlainParam(p)
    ensures ',' !in RenderParam(p) && ')' !in RenderParam(p)
  {
  }

  /** The parameter list, as rendered, decodes back to the parameters. */
  lemma DecodeParameterList(ps: seq<FuncParameter>)
    requires forall i :: 0 <= i < |ps| ==> PlainParam(ps[i])
    ensures DecodeParams(Join(RenderParams(ps), ", ")) == Some(ps)
    ensures ')' !in Join(RenderParams(ps), ", ")
  {
    var texts := RenderParams(ps);
    forall i | 0 <= i < |texts|
      ensures ',' !in texts[i] && ')' !in texts[i]
    {
      RenderedParamPunctuation(ps[i]);
    }
    JoinAvoids(texts, ", ", ')');
    DecodeEachRendered(ps);
    if |ps| > 0 {
      JoinCoversFirst(texts, ", ");
      SplitOnJoin(texts, ", ");
    }
  }

  /** The return clause, as rendered, decodes back to the return types. */
  lemma DecodeRenderedReturnClause(types: seq<string>)
    requires forall i :: 0 <= i < |types| ==> Atom(types[i])
    ensures DecodeReturnClause(ReturnClause(types)) == Some(types)
  {
    var clause := ReturnClause(types);
    if |types| == 1 {
      assert clause[1..] == types[0];
      assert clause[1] == types[0][0] && types[0][0] != '(';
      assert |clause| >= 2 ==> clause[..2][1] != '(';
      assert [types[0]] == types;
    } else if |types| > 1 {
      var joined := Join(types, ", ");
      assert clause[..2] == " (";
      assert clause[2..|clause| - 1] == joined;
      SplitOnJoin(types, ", ");
    }
  }

  /** Round trip: a plain signature that renders decodes back to its
      parameters, including which of them omitted their type, and its
      return types. */
  lemma DecodeGenerated(f: AnonymousFuncSignature)
    requires Valid(f) && Plain(f) && Generate(f).Ok?
    ensures DecodeSignature(Generate(f).value) == Some((f.funcParameters, f.returnTypes))
  {
    var ps := f.funcParameters;
    var params := Join(RenderParams(ps), ", ");
    var clause := ReturnClause(f.returnTypes);
    var s := "(" + params + ")" + clause;
    assert FirstEmptyName(ps).None? by {
      forall j | 0 <= j < |ps| ensures ps[j].name != "" {
        assert PlainParam(ps[j]);
      }
    }
    assert Generate(f).value == s;
    DecodeParameterList(ps);
    DecodeRenderedReturnClause(f.returnTypes);
    assert s[1..] == params + [')'] + clause;
    SplitFirstAfterPrefix(params, ')', clause);
  }

  /** Two plain signatures that render to the same text have the same
      parameters and return types. */
  lemma GenerateInjective(f: AnonymousFuncSignature, g: AnonymousFuncSignature)
    requires Valid(f) && Plain(f) && Generate(f).Ok?
    requires Valid(g) && Plain(g) && Generate(g).Ok?
    requires Generate(f) == Generate(g)
    ensures f.funcParameters == g.funcParameters && f.returnTypes == g.returnTypes
  {
    DecodeGenerated(f);
    DecodeGenerated(g);
  }
}
