# Anonymous function signatures of the gowrtr code generator

gowrtr builds Go source text from an immutable tree of generator values. This
project models one of them, `AnonymousFuncSignature`. It renders the
`(params) results` part of an anonymous function expression such as
`func(bar string) string`. The model covers:

- the record of parameters, return types and one provenance tag per parameter;
- the constructor and the four copy-on-write mutators `AddParameters`,
  `Parameters`, `AddReturnTypes` and `ReturnTypes`;
- the validating renderer `Generate`. It fails on an empty parameter name,
  reporting the first such parameter's tag. It fails on an empty type of the
  last parameter, reporting that parameter's tag. It accepts an empty type on
  an earlier parameter, which is Go's grouped shorthand `(a, b string)`. It
  joins the parameters with `", "` inside parentheses. It appends a return
  clause that is empty, ` T`, or ` (T1, T2, ...)`.

Files:

- `outcomes.dfy` (module `Outcomes`): `Option` and `Result`. `Result` stands
  in for Go's `(string, error)` pair.
- `strings.dfy` (module `Strings`): `Join`, which behaves like Go's
  `strings.Join`, and the splitting functions `SplitOn` and `SplitFirst`, with
  lemmas showing that splitting undoes joining.
- `anonymous_func_signature.dfy` (module `Generator`): the data model, the
  mutators and `Generate`. `Generate` is a declarative definition. It is
  paired with `GenerateStepwise`, a method that runs the Go loop statement
  by statement and is proved to return the same result on every valid
  signature, that is, every signature with one tag per parameter. The
  module also holds the lemmas about errors and mutators.
- `signature_decoding.dfy` (module `SignatureDecoding`): a decoder for
  rendered signatures. Its round-trip lemma shows that, when names and types
  are plain identifiers, the rendered text determines the parameters, which of
  them omitted a type, and the return types.

Tags come from `fetchClientCallerLineAsSlice(n)`, which inspects the Go call
stack. The model takes them as an explicit `tags` argument of the two
parameter mutators, with the precondition `|tags| == |params|`. That the
tag source yields one tag per parameter is an assumption of the model.
`Valid` (one tag per parameter) is the invariant that the constructor and
every mutator keep. It is enough to keep the `callers[i]` lookups of lines
70 and 79 in range, and `Generate` requires it. `GenerateStepwise` takes
`indentLevel` and never reads it. Its postcondition compares it with
`Generate`, which has no indent argument, so the output does not depend on
the indent level.

The code checks only the last parameter's type
(generator/anonymous_func_signature.go:74-86). An empty type on an earlier
parameter is accepted, which is Go's grouped shorthand. `Generator.FailsIff`
states this rule.

## Model

| member | source | states |
|---|---|---|
| `Generator.NewAnonymousFuncSignature` | generator/anonymous_func_signature.go:16-19 | A new signature has no parameters, return types or tags, and satisfies the one-tag-per-parameter invariant |
| `Generator.AddParameters` | generator/anonymous_func_signature.go:21-29 | The old parameters stay as a prefix and the new ones follow in order; the same holds for the tags; return types are unchanged; the tag invariant holds afterwards exactly when it held before |
| `Generator.Parameters` | generator/anonymous_func_signature.go:31-39 | Parameters and tags are replaced together, return types are kept, and the result always satisfies the tag invariant |
| `Generator.AddReturnTypes` | generator/anonymous_func_signature.go:41-49 | The old return types stay as a prefix and the new ones follow; parameters and tags are unchanged, so the invariant holds exactly when it held before |
| `Generator.ReturnTypes` | generator/anonymous_func_signature.go:51-59 | Only the return types are replaced; parameters and tags are unchanged |
| `Generator.FirstEmptyName` | generator/anonymous_func_signature.go:68-71 | Finds the position where the loop returns: a parameter with an empty name and no such parameter before it, or none when every name is present |
| `Generator.GenerateStepwise` | generator/anonymous_func_signature.go:61-100 | The single-pass loop, with its early return and its memory of only the latest parameter's type, gives the same result as the declarative `Generate` on every valid signature, whatever `indentLevel` is |
| `Generator.EmptyParameterList` | generator/anonymous_func_signature.go:63-88 | With no parameters rendering never fails and yields `()` followed by the return clause |
| `Generator.EmptyNameFails` | generator/anonymous_func_signature.go:68-71 | An empty name fails with the tag of the first parameter with an empty name, even when a parameter type is also missing |
| `Generator.LastTypeDecides` | generator/anonymous_func_signature.go:73-86 | When all names are present, rendering fails exactly when the last parameter has no type, and the error carries the last parameter's tag |
| `Generator.FailsIff` | generator/anonymous_func_signature.go:68-86 | Rendering fails if and only if some name is empty or the last type is empty; empty types on earlier parameters are accepted |
| `Generator.ReturnTypesDoNotAffectErrors` | generator/anonymous_func_signature.go:84-98 | Replacing the return types never changes whether rendering fails, nor which error it reports |
| `Generator.AddedEmptyNameReportsItsTag` | generator/anonymous_func_signature.go:68-71 | After `AddParameters` on a signature with all names present, an empty name among the added parameters is reported with the tag that call supplied for it |
| `Generator.AddParametersTwice` | generator/anonymous_func_signature.go:23-29 | Two successive appends equal one append of both lists, and of both tag lists, in order |
| `Generator.RootTestSignature` | generator/root_test.go:87-91 | Parameter `bar string` and return type `string` render as `(bar string) string`, the signature in the expected output at root_test.go line 33 |
| `Generator.GroupedShorthandExample` | generator/anonymous_func_signature.go:73-81 | `[("a",""),("b","string")]` renders as `(a, b string)` |
| `Generator.MultipleReturnTypesExample` | generator/anonymous_func_signature.go:96-97 | Return types `string, error` render as ` (string, error)` |
| `Strings.SplitOnJoin` | generator/anonymous_func_signature.go:88 | For a non-empty list of parts, none of which contains the separator's first character, splitting a `strings.Join` result at its separator gives back the parts |
| `SignatureDecoding.DecodeRenderedReturnClause` | generator/anonymous_func_signature.go:90-98 | For atom types (non-empty, free of spaces, commas and parentheses), the return clause decodes back to the return types. The three clause shapes (no text, ` T`, ` (T1, T2, ...)`) are the definition of `Generator.ReturnClause`; the lemma shows each shape can be told apart and read back |
| `SignatureDecoding.DecodeParameterList` | generator/anonymous_func_signature.go:67-88 | For plain parameters (atom name, atom or omitted type), the joined parameter list decodes back to the parameters, each as `name` or `name type`, and contains no `)` |
| `SignatureDecoding.DecodeGenerated` | generator/anonymous_func_signature.go:62-99 | Round trip: decoding a successful rendering of a signature with identifier-like names and types gives back its parameters and return types |
| `SignatureDecoding.GenerateInjective` | generator/anonymous_func_signature.go:62-99 | Two such signatures that render to the same text have equal parameters and equal return types |

## Left out

- `fetchClientCallerLineAsSlice`: it inspects the Go runtime call stack, and its source is not part of this model. Its tags are an argument of the two parameter mutators. The only assumption about them is that there is one tag per parameter.
- Error messages: the `errmsg` constructors are not part of this model. Each error is a `GenError` variant carrying its tag, not a message string.
- Nil `*FuncParameter` values, which would make the Go code panic, are not representable. The `FuncParameter` type and its constructor are not part of this model either, only its `name` and `typ` fields.
- Go slice aliasing through `append` on a shared backing array is not modelled. Dafny sequences are values, so no mutator can change the receiver or any value derived from it. That is the behaviour the doc comments of the mutators promise.
- The call suffix `(args...)` of an immediately invoked anonymous function belongs to `AnonymousFunc`, which is not part of this model, and so does the `func` keyword and the function body.
- The root document, the other statement renderers (interface, switch, return statement, comment) and the external gofmt/goimports formatter pipeline are not part of this model. The pipeline runs subprocesses and drains their streams concurrently.
- `SignatureDecoding.DecodeGenerated`, `SignatureDecoding.GenerateInjective`, `SignatureDecoding.DecodeParameterList`, `SignatureDecoding.DecodeRenderedReturnClause`: the round trip is proved only for names and types free of spaces, commas and parentheses. The renderer accepts any text, and for general text the rendering is not always decodable. For example, a type such as `func(int) string` contains all three.
