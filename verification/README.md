# A model of cf's blueprint compiler and edit layer

`cf` turns a *blueprint* (declared parameters, composed resources, and the wires
between them) into a Crossplane composition whose body is a Go template. The
template is evaluated under `missingkey=error`: one unguarded dereference of an
absent key kills the whole render, and a `key:` with nothing under it becomes a
YAML null the API server rejects. This project models the parts of `cf` that
have to get this right, and proves that they do, or exactly when they do.

**The emitter.** `Template` is a line-oriented Go-template language (expressions
with short-circuit `and`/`or`, `hasKey`, `dig`, a missing-key failure; a parser
for `if`/`else`/`end`/`range`; an evaluator). `Yaml` and `Stream` read rendered
lines back as block mappings and as a stream of documents. `Params` and `Wires`
give every kind of reference its expression and guard. `Envelope*`, `MapField`,
`Plans` and `ResourceTemplate` are the planners and writers, as methods that
append to a `Doc`. `EnvelopeTheorem`, `MapField` and `Rendering` hold the main
results; `Rendering.ResourceRenders` puts them together: for every validated
managed resource and every composite its XRD admits, the emitted lines parse as
balanced blocks, rendering fails on nothing, and the result is exactly the
stream of documents the blueprint asks for. `Contents` says what stands where in such a
document (`Lookup`, `EnvelopeFound`), in terms of the blueprint and the composite alone, and
`WireTexts` what each spelling of a reference reads. `Composition` carries this to the
whole template body and to the names of its documents.

**References and edits.** `Refs` is the grammar of `from:` and `when:` with its
round trips; `Blueprint` is the document and what makes it valid, `Validation`
the passes that decide it; `Rewrite`, `RenameParam`, `RenameResource`, `Deletion` and `Edits` are the
edits. `Edits.RunKeeps` is the result over whole runs: any sequence of
successful renames keeps the document valid and the meaning of every reference,
and the reverse renames lead back to the original document exactly.

**Adoption.** `Patches` (patch-set expansion), `PatchWires` and `PatchSets` (what one
patch does, by its texts, and sets nested in sets), `FieldPaths`, `Declare`, `Prune` and
`PruneExact` (parameter trees), `Masking` and `Comments` (template text).

**Kernels.** `Closest` (one-row edit distance), `SplitDocs` (YAML streams),
`Pack` (ConfigMap packing), `Pipeline` (step naming and order), `Names`
(identities of composed documents), `Numbers` (decimal defaults).

`Examples` holds a valid document for each place where the code does less than
it promises. `Seqs`, `Text` and `Paths` are shared by all.

## What is assumed

- Numbers in a composite are reals: every number crosses the function protocol
  as a float64. `int` truncates towards zero, and `until` of a negative count
  runs 0, -1, -2, ...
- `dig` fails on a step through something that is not a map (the comment in
  `internal/emit/composition.go:1486-1487` says otherwise). The rendering results
  assume that observed values on the way to a wired status leaf are maps
  (`Wires.Observes`, `Wires.Counts`); `Wires.StatusDecidesIff` says that a guard
  evaluates exactly then.
- `raw:` text and template bodies are opaque: what they render to is a parameter
  (`Plans.Surface`), and the edits take the text search and the text rewriting as
  functions (`uses`, `text`). Which raw texts are flow maps of scalars, with which
  keys and values, is a parameter too; the keys are any texts.
- Which characters `%q` escapes is a parameter (`prints`); so is what a decimal
  text with a point or an exponent is as a number (`number`, `float`).
- Every document is of a Namespaced XRD, where validation demands `providerName`
  for managed resources.

## Where the code does less than it promises

Each of these is a lemma that states exactly when the promise holds.

- A validated `forEach: resources.<name>.status.<path>` whose path ends in
  `metadata.name` is not recognised by the emitter, which then writes an unguarded
  `$spec.resources...` read (`Wires.LoopGuardedIff`, `Examples.ExampleUnguarded`).
- A boolean environment default is validated in any case but pasted as written;
  `True` is no template constant (`Wires.DefaultFails`, `Wires.CasedDefaultAccepted`).
- A numeric environment default is validated as decimal but read by the template
  engine with a leading zero meaning octal: `010` is eight, `08` does not parse
  (`Numbers.IntegerReadsBack`, `Numbers.LeadingZeros`).
- A status guard fails, instead of not holding, when a scalar stands where the
  wired path goes on (`Wires.StatusDecidesIff`, `Wires.ScalarOnTheWay`).
- An envelope that sets `providerConfigRef` as a whole by raw text that is no flow
  map, or something below a leaf that is added to it, makes the writer index an
  empty path (`Plans.PlanCrashes`, `Examples.ExampleOverlaps`). A flow map there is
  spread and written (`Examples.ExampleSpread`).
- An envelope that sets only other children of `providerConfigRef` ends up without
  a name (`EnvelopeEmit.CompletionFills`, `Examples.ExampleNameless`). Only
  cluster-scoped kinds have such children, a `policy`; the schema check refuses
  them for namespaced kinds.
- `RenameResource` does not rewrite the composite status, so a resource the
  composite status reads from cannot be renamed (`RenameResource.RenamedValidIff`,
  `Examples.ExampleObserved`).
- `RenameParameter` quotes the literal of a `when` condition with `%q`; a literal
  with a character that does not print makes the rename fail
  (`RenameParam.RenamedValidIff`, `Examples.ExampleUnprinted`).
- A looped resource `a` and an unlooped resource `a-0` are both valid and compose
  documents of the same name (`Names.DistinctIff`, `Composition.NamesDistinctIff`,
  `Examples.ExampleShadowed`).

## Model

| member | source | states |
|---|---|---|
| Template.ParseFlat | internal/emit/composition.go:296-462 | the block structure the emitter nests is the block structure the template engine parses: opening and closing lines always balance |
| Params.ParamChain | internal/blueprint/load.go:320-346 | growing the chain segment by segment finds exactly the declarations the recursive resolution finds, and fails exactly when it does |
| Params.ChainGuard | internal/emit/composition.go:1172-1195 | the links written from the first optional level on are those of the guard specification |
| Params.GuardExact | internal/emit/composition.go:1164-1195 | on every admitted spec the guard decides without failing and holds exactly when the reference can be dereferenced; no guard means it always can; what is read has the declared type |
| Params.GuardAsks | internal/emit/composition.go:1172-1195 | a guard asks whether the whole path is present |
| Paths.DottedOrder | internal/blueprint/envelope.go:123-127 | sorting dotted paths as strings is sorting them segment by segment, wherever they part at identifiers or at their last segments |
| Paths.SortedKeys | internal/emit/annotations.go:54-58 | all keys once, in byte order |
| Paths.CheckConflicts | internal/blueprint/envelope.go:128-133 | looking at adjacent sorted paths only finds a proper dotted prefix exactly when there is one anywhere |
| Envelope.WriteEnvelopeNode | internal/emit/envelope.go:522-569 | writes the guarded group as specified, or crashes exactly on a group whose grouping runs out of segments |
| Envelope.WriteChildren | internal/emit/envelope.go:552-568 | the runs of equal first segments, each written once, in order |
| Envelope.CollectGuards | internal/emit/envelope.go:523-541 | the distinct guards of a group in order of first use, and whether an entry has none |
| EnvelopeOrder.GroupsCrashIffClash | internal/emit/envelope.go:471-489 | in a sorted plan the writer crashes exactly when one path is a prefix of another; the sort makes equal first segments contiguous at every depth |
| EnvelopeEmit.CompletePlan | internal/emit/envelope.go:318-359 | the plan completed with the missing kind or name of a touched providerConfigRef, sorted by dotted path |
| EnvelopeEmit.CompletionConflicts | internal/emit/envelope.go:318-359 | a conflict-free plan stays writable when completed if and only if it does not overlap with what is added, whatever texts its last segments are |
| EnvelopeEmit.CompletionFills | internal/emit/envelope.go:318-356 | a touched providerConfigRef always gets a kind, and has a name exactly when the plan set kind or name itself |
| EnvelopeEmit.WriteEnvelope | internal/emit/envelope.go:461-493 | the plan's groups with the default block in front of the first key that sorts after it |
| EnvelopeTheorem.EnvelopeMeans | internal/emit/envelope.go:461-569 | the lines render and read back as a mapping whose scalars are exactly the entries that fire, in order, each key once and in sorted place, none empty; providerConfigRef is there exactly when left to the default or set by an entry that fires |
| EnvelopeTheorem.TreeUnique | internal/emit/envelope.go:454-460 | there is only one such mapping |
| EnvelopeFound.EnvelopeSays | internal/emit/envelope.go:318-359 | at every path of the rendered envelope stands exactly what an entry of its own puts there, or, where due, the kind ClusterProviderConfig and the composite's providerName as name |
| EnvelopeMeaning.NodeDenotes | internal/emit/envelope.go:505-569 | under an inherited guard that holds, a group denotes its tree with or without its own wrapper |
| MapField.WriteField | internal/emit/composition.go:1650-1721 | the lines of one field, scalar or map, guarded as specified |
| MapField.WriteMapField | internal/emit/composition.go:1583-1647 | the key over its fields with the `{}` fallback when all are optional |
| MapField.MapFieldMeans | internal/emit/composition.go:1521-1647 | the block is always a mapping, never null: `{}` exactly when nothing fires, otherwise the scalars that fire and every map with its entries that fire |
| Wires.BuildStatusGuard | internal/emit/composition.go:1495-1519 | the guard and the expression of an observed status path, put together segment by segment |
| Wires.StatusExact | internal/emit/composition.go:1476-1519 | while what is observed on the way are maps the guard holds exactly when the status carries the value, and then the expression reads it |
| Wires.StatusDecidesIff | internal/emit/composition.go:1476-1519 | the guard evaluates without failing if and only if everything observed on the way is a map |
| Wires.ScalarOnTheWay | internal/emit/composition.go:1486-1490 | an observed status on which the guard fails |
| Wires.EnvExact | internal/emit/yaml.go:100-117 | an environment read with a default always yields a typed value, one without is guarded exactly |
| Wires.DefaultFails | internal/emit/yaml.go:100-117 | the expression of a default evaluates if and only if the default is a template constant: a boolean in lower case, a number the engine accepts |
| Wires.DefaultDeclared | internal/emit/yaml.go:100-117 | a numeric default that is a constant yields the declared number if and only if it has no misleading leading zero and fits 64 bits |
| Numbers.IntegerReadsBack | internal/blueprint/validate_environment.go:54-57 | of an accepted integer default the template reads the declared number if and only if it has no leading zero or is less than eight |
| Numbers.ConstantDeclared | internal/blueprint/validate_environment.go:54-62 | the same for every accepted numeric text |
| Numbers.LeadingZeros | internal/blueprint/validate_environment.go:54-57 | an accepted default that reads as another number, and one no template can hold |
| Wires.CasedDefaultAccepted | internal/blueprint/validate_environment.go:48-58 | such a default passes validation |
| Wires.WireExact | internal/emit/annotations.go:108-203 | of every reference that resolves: unguarded means always there, a guard decides exactly, and what is there is read |
| Wires.WhenExact | internal/emit/composition.go:790-826 | a validated condition decides on every admitted composite although it reads $spec unguarded, and holds exactly when the tested value passes |
| Wires.LoopExact | internal/emit/composition.go:308-329 | the guard of a loop bound decides exactly whether the count is there, an unguarded bound always is, and it is a number |
| WireTexts.ParamSegments | internal/emit/annotations.go:178-203 | `params.a` reads that key of the composite's spec, `params.a.b` that member of the object there |
| WireTexts.EnvReads | internal/emit/yaml.go:100-117 | `env.k` reads the environment's value, else the default as it is typed |
| WireTexts.StatusReads | internal/emit/composition.go:1476-1519 | `resources.n.status.p` reads that path of the observed resource of that name |
| WireTexts.TestReads | internal/emit/composition.go:790-826 | a condition tests what its reference reads: for being true, for being the text, or for not being it |
| WireTexts.BoundReads | internal/emit/composition.go:308-329 | a loop bound reads what a wire of the same text reads |
| Wires.LoopGuardedIff | internal/emit/composition.go:308-329 | a validated observed bound is guarded if and only if its path does not end in metadata.name; otherwise it is an unguarded read that fails |
| Examples.ExampleUnguarded | internal/blueprint/load.go:560-589 | a valid document with such a bound |
| Wires.StatusBoundParses | internal/blueprint/refs.go:57-103 | which validated loop bounds the from grammar accepts |
| Plans.PlanAnnotations | internal/emit/annotations.go:53-208 | every annotation once, in key order, with the expression and guard of its wire |
| Plans.PlanEnvelope | internal/emit/envelope.go:139-359 | the envelope entries in path order, a raw flow map on an object spread into one entry for each key, completed and sorted |
| Plans.OverlapsIff | internal/emit/envelope.go:318-356 | the plan of a validated resource overlaps with what is added exactly when the blueprint sets providerConfigRef whole by what is no flow map, or something below an added leaf |
| Plans.PlanCrashes | internal/emit/envelope.go:139-587 | writing the plan of a validated resource crashes exactly then |
| Plans.AnnotationSafe | internal/emit/annotations.go:17-31 | a planned annotation is safe to render, and appears exactly when it is literal or its value is there |
| Plans.EnvelopePlanned | internal/emit/envelope.go:139-359 | the completed plan of a validated resource can be written if and only if the blueprint does not overlap, and is safe to render |
| Plans.QuoteReadsBack | internal/emit/yaml.go:60-62 | a single-quoted text reads back as it was, whatever quotes it contains |
| Examples.ExampleOverlaps | internal/emit/envelope.go:154-175 | a valid document on which the writer crashes |
| Examples.ExampleSpread | internal/emit/envelope.go:154-172 | providerConfigRef set by a flow map of kind and name is written, as exactly these two entries |
| Examples.ExampleNameless | internal/emit/envelope.go:318-356 | a valid document whose completed providerConfigRef has a kind and no name |
| ResourceTemplate.CollectStatusGuards | internal/emit/composition.go:224-246 | exactly the status guards of annotations and fields, nested entries included, each once, in text order |
| ResourceTemplate.WriteAnnotations | internal/emit/annotations.go:218-228 | one guarded line for each planned annotation |
| ResourceTemplate.WriteResourceTemplate | internal/emit/composition.go:248-465 | condition outside status guard outside loop guard outside range around the document; crashes exactly when the envelope plan cannot be grouped |
| Stream.YieldsLoop | internal/emit/composition.go:281-284 | a range yields one document for each index |
| Rendering.StatusDecides | internal/emit/composition.go:297-307 | the combined status condition decides and holds exactly when every status guard of the resource holds |
| Rendering.AnnotationsReady | internal/emit/composition.go:297-307 | the annotations' status guards hold exactly when every observed value an annotation is wired from is there |
| Rendering.DocumentDenotes | internal/emit/composition.go:330-447 | the document's lines read back as its identity, the annotations that fire, and its spec |
| Rendering.DocumentWhole | internal/emit/composition.go:330-447 | no key of a document stands with nothing under it |
| Contents.IdentityShown | internal/emit/composition.go:330-380 | where a document says its apiVersion, its kind, and which composed resource it is: by name, in a loop by name and index |
| Contents.AnnotationsShown | internal/emit/annotations.go:53-228 | at each annotation key stands exactly the text of the blueprint, the quoted value its reference leads to while that is there, or the name of the composed resource it refers to |
| Contents.EnvelopeShown | internal/emit/envelope.go:139-503 | at each path of the spec beside forProvider stands exactly what the blueprint's envelope puts there, and of providerConfigRef the fixed kind and the composite's providerName exactly where the blueprint leaves them out |
| Contents.DocumentKeysDistinct | internal/emit/composition.go:330-447 | no mapping of a document says a key twice, as long as the fields below forProvider do not |
| Rendering.DraftFits | internal/blueprint/validate_params.go:56-70 | validation is enough: every guard of the resource decides and every expression that is reached evaluates, the unguarded providerName read included |
| Rendering.ResourceRenders | internal/emit/composition.go:248-465 | the emitted lines of every validated managed resource render on every admitted composite to exactly the documents asked for |
| Composition.WriteTemplateBody | internal/emit/composition.go:175-187 | every resource's template, in document order; crashes exactly when the envelope of some resource overlaps |
| Composition.BodyRenders | internal/emit/composition.go:175-187 | the whole body of a valid document of managed resources renders on every admitted composite to the documents of the resources, in order |
| Composition.StreamNamed | internal/emit/composition.go:369-380 | the names these documents carry |
| Composition.NamesDistinctIff | internal/emit/composition.go:369-380 | they are distinct if and only if no rendered iteration takes the name of a rendered unlooped resource |
| Composition.CollidesShadowed | internal/blueprint/validate_resources.go:12-24 | only a shadowed document can have such a body |
| Names.DistinctIff | internal/emit/composition.go:369-380 | composed names are distinct over all loop indices if and only if no unlooped resource is named like an iteration |
| Names.DecimalReads | internal/emit/composition.go:370-378 | an index is written with the digits of its number, without leading zeros |
| Examples.ExampleShadowed | internal/blueprint/validate_resources.go:12-24 | a valid document in which one is |
| Refs.ParseWritten | internal/blueprint/refs.go:57-103 | parsing undoes writing for every reference the grammar can express |
| Refs.ParsedWrites | internal/blueprint/refs.go:57-103 | everything accepted is the written form of what it parses to |
| Refs.StatusWritten | internal/blueprint/refs.go:71-80 | exactly the status paths that end in metadata.name do not survive the round trip |
| Refs.StatusRefWritten | internal/blueprint/types.go:972-982 | the written status reference is cut into its name and path |
| Refs.MetadataRefWritten | internal/blueprint/types.go:986-996 | the written name reference is cut into its name |
| Refs.WhenWritten | internal/blueprint/types.go:832-854 | parsing undoes writing for every condition |
| Refs.WhenParsed | internal/blueprint/types.go:832-854 | every accepted condition is the reprint of its parse |
| Blueprint.ResourceIndex | internal/blueprint/edit.go:324-331 | the first resource of that name, or -1 |
| Validation.ValidateFields | internal/blueprint/validate_resources.go:174-322 | accepts exactly fields that are each set once and wired to what they can render |
| Validation.ValidateEnvelope | internal/blueprint/envelope.go:20-136 | accepts exactly valid entries no two of which conflict, looking at sorted neighbours only |
| Validation.ValidateParameters | internal/blueprint/validate_params.go:17-72 | accepts exactly valid declarations, members depth first, with the providerName rule |
| Validation.ValidateResources | internal/blueprint/validate_resources.go:11-171 | accepts exactly unique names and valid resources |
| Validation.Validate | internal/blueprint/load.go:510-539 | the passes together accept exactly the valid documents |
| Validation.EntryRules | internal/blueprint/validate_resources.go:174-322 | in a valid document every entry is set in exactly one way and from a template that exists |
| Validation.NameRules | internal/blueprint/validate_resources.go:11-171 | its resource names are unique DNS labels and no keywords, the name annotations are left alone, and no envelope path continues another |
| Validation.DeclarationRules | internal/blueprint/validate_params.go:17-72 | its parameters and environment keys are named and typed as declared, providerName included |
| Validation.TestRules | internal/blueprint/validate_resources.go:26-171 | its conditions and loop bounds test and count what is always set and of the right type, with a literal the enumeration has |
| Rewrite.RewriteFields | internal/blueprint/edit.go:550-560 | every field rewritten, none added or lost |
| Rewrite.RewriteResources | internal/blueprint/edit.go:526-588 | every resource's loop bound, condition and three kinds of fields rewritten |
| Rewrite.RenameBySegments | internal/blueprint/edit.go:337-345 | the string test replaces exactly a first segment that equals the old name, never a name that starts alike |
| RenameParam.TestRenamed | internal/blueprint/edit.go:537-544 | the rebuilt condition parses to the renamed condition |
| RenameParam.RenamedValidIff | internal/blueprint/edit.go:507-598 | the renamed document is valid if and only if the providerName rule allows it and every affected literal prints |
| Examples.ExampleUnprinted | internal/blueprint/edit.go:537-544 | a valid document with a parameter that cannot be renamed for its condition's literal |
| RenameParam.RenameInverse | internal/blueprint/edit.go:507-598 | renaming back restores the document exactly |
| RenameParam.RenameKeepsMeaning | internal/blueprint/edit.go:493-506 | every wire, bound, condition and composite-status wire keeps its chain of declarations or its resource |
| RenameResource.StatusWireRenamed | internal/blueprint/edit.go:369-380 | a status wire is rewritten exactly when it names the renamed resource |
| RenameResource.RenamedValidIff | internal/blueprint/edit.go:355-439 | the renamed document is valid if and only if the new name is no keyword and the composite status does not read from the resource |
| Examples.ExampleObserved | internal/blueprint/edit.go:355-439 | a valid document with a resource that cannot be renamed for the composite status |
| RenameResource.RenameInverse | internal/blueprint/edit.go:355-439 | renaming back restores the document exactly |
| RenameResource.RenameKeepsMeaning | internal/blueprint/edit.go:347-354 | every reference leads to the same place in the document as before |
| Deletion.ReferencingResources | internal/blueprint/edit.go:151-162 | the names of the resources that refer to the parameter, in order |
| Deletion.StatusReferencingResources | internal/blueprint/edit.go:186-205 | the names of the other resources that refer to the resource, in order |
| Deletion.AnyFrom | internal/blueprint/edit.go:168-175 | whether some entry is wired from the parameter or a member below it |
| Deletion.AnyStatusFrom | internal/blueprint/edit.go:309-321 | whether some entry is wired from the resource or mentions it |
| Deletion.ParameterScanExact | internal/blueprint/edit.go:147-175 | the scan is empty if and only if every resource reference still resolves without the parameter |
| Deletion.ResourceScanExact | internal/blueprint/edit.go:177-205 | the scan is empty if and only if every reference of the other resources still resolves without the resource |
| Deletion.ParamReferrersPlaced | internal/blueprint/edit.go:147-175 | the names found are, in document order, those of exactly the resources that would no longer validate without the parameter |
| Deletion.ResourceReferrersPlaced | internal/blueprint/edit.go:177-205 | the same of the other resources without the resource |
| Deletion.OrderKept | internal/blueprint/edit.go:466-466 | of the resources left each is what it was and any two stand in the order they had |
| Deletion.WithoutParameterValid | internal/blueprint/edit.go:625-650 | what is left is valid if and only if the scan is empty and the providerName rule allows it |
| Deletion.WithoutResourceValid | internal/blueprint/edit.go:446-473 | what is left is valid if and only if the scan is empty and the composite status does not read from the resource |
| Edits.Editable.RenameParameter | internal/blueprint/edit.go:507-598 | the outcome and the new document, or the old one untouched |
| Edits.Editable.RenameResource | internal/blueprint/edit.go:355-439 | the outcome and the new document, or the old one untouched |
| Edits.Editable.DeleteParameter | internal/blueprint/edit.go:625-650 | the outcome and the new document, or the old one untouched |
| Edits.Editable.DeleteResource | internal/blueprint/edit.go:446-473 | the outcome and the new document, or the old one untouched |
| Edits.ParameterRenameSucceeds | internal/blueprint/edit.go:490-507 | when a parameter rename is accepted, for every valid document |
| Edits.ResourceRenameSucceeds | internal/blueprint/edit.go:347-366 | when a resource rename is accepted, for every valid document |
| Edits.ParameterDeleteSucceeds | internal/blueprint/edit.go:618-650 | a deletion is accepted if and only if what is left is valid: the scan refuses nothing more |
| Edits.ResourceDeleteSucceeds | internal/blueprint/edit.go:441-473 | a deletion is accepted if and only if what is left is valid: the scan refuses nothing more |
| Edits.ParameterRenamedOnly | internal/blueprint/edit.go:507-598 | a rename moves the declaration as it is, rewrites every free text and template body, and leaves names, kinds, providers, values, environment and composite status alone |
| Edits.ResourceRenamedOnly | internal/blueprint/edit.go:355-439 | the same, with the new name at the one place |
| Edits.ParameterDeletedOnly | internal/blueprint/edit.go:625-650 | nothing but the declaration goes: declared again it gives the old document |
| Edits.ResourceDeletedOnly | internal/blueprint/edit.go:446-473 | nothing but the resource goes: the others are unchanged and in order, and put back at its place it gives the old document |
| Edits.RunKeeps | internal/blueprint/edit.go:355-598 | over any run of successful renames the document stays valid, every reference keeps its meaning, and the reverse renames all succeed and lead back exactly |
| Declare.InsertParam | internal/adopt/adopt.go:3467-3500 | the declarations with the path declared |
| Declare.DeclaredExact | internal/adopt/adopt.go:3467-3500 | what is declared where afterwards: at the path a fresh declaration of the type, or the old one with a string's type changed; objects on the way; elsewhere what stood there |
| Declare.RunResolves | internal/adopt/adopt.go:3445-3500 | whatever paths are declared in whatever order, each resolves at the end |
| Declare.RunKeeps | internal/adopt/adopt.go:3445-3500 | and everything that resolved before still does, along declarations whose required marks, defaults and enumerations are kept and whose types change only to object or away from string |
| Prune.IsReferenced | internal/adopt/adopt.go:4748-4775 | whether some reference names the path, leads through it or goes below it |
| Prune.TargetsMatch | internal/adopt/adopt.go:4754-4762 | the string tests say whether one path of segments continues the other |
| Prune.PruneProperties | internal/adopt/adopt.go:4839-4895 | the members that stay, each pruned before it is judged |
| Prune.PruneOrphanedParameters | internal/adopt/adopt.go:4897-4946 | the parameters that stay, providerName untouched |
| Prune.ReferencesSurvive | internal/adopt/adopt.go:4839-4946 | every reference that resolved before resolves after, with any base blueprint |
| Prune.OnlyRelatedLeft | internal/adopt/adopt.go:4839-4946 | without a base blueprint only what some reference names, leads through or goes below is left, and providerName |
| Prune.PruneStable | internal/adopt/adopt.go:4839-4946 | pruning again changes nothing |
| PruneExact.PruneExact | internal/adopt/adopt.go:4839-4946 | a declared path is left if and only if it is, or leads to, a declared path that the base blueprint declares too or that is related to a reference, or is under providerName |
| PruneExact.BaseSurvives | internal/adopt/adopt.go:4879-4939 | whatever both the blueprint and its base declare survives, at every level |
| PruneExact.DeclarationsKept | internal/adopt/adopt.go:4839-4946 | what is left keeps its type, required mark, default and enumeration, and providerName its whole declaration |
| Patches.Adoption.ApplyPatch | internal/adopt/adopt.go:3125-3434 | returns on every table, cyclic ones included, leaves the visited sets as found, and has applied exactly what the patch reaches |
| Patches.Adoption.ApplySet | internal/adopt/adopt.go:3139-3156 | a patch set is expanded once on each path to it; a missing or circular one is reported |
| Patches.Accounted | internal/adopt/adopt.go:3158-3434 | whatever is reached either writes exactly one wire and reports nothing or reports exactly one loss and writes nothing |
| Patches.PatchResolves | internal/adopt/adopt.go:3158-3434 | every parameter and environment wire that stands afterwards resolves |
| PatchWires.ToProvider | internal/adopt/adopt.go:3158-3190 | `spec.parameters.n`, or `spec.n`, to `spec.forProvider.x` wires params.n at the field x and declares n, exactly when n can be declared and is not reserved and no object is wired whole; otherwise one loss and nothing else |
| PatchWires.ToTags | internal/adopt/adopt.go:3191-3211 | the same to tags of a managed resource |
| PatchWires.ToNative | internal/adopt/adopt.go:3216-3236 | the same to any other field of a native resource |
| PatchWires.ToEnvelope | internal/adopt/adopt.go:3237-3258 | the same to another path of a managed resource's spec, which becomes an envelope key |
| PatchWires.ToAnnotation | internal/adopt/adopt.go:3259-3279 | the same to an annotation |
| PatchWires.ToMetadata | internal/adopt/adopt.go:3280-3305 | the same to other metadata of a native resource; of a managed one it is a loss |
| PatchWires.ToNowhere | internal/adopt/adopt.go:3212-3330 | what is not read from the spec or goes to initProvider or nowhere known is one loss and nothing else |
| PatchWires.EnvironmentPatch | internal/adopt/adopt.go:3331-3429 | a flat environment key is declared as a string in any case, and wired at the key of the surface the target names, or one loss |
| PatchWires.OthersRefused | internal/adopt/adopt.go:3331-3433 | any other environment key and any other type of patch is one loss and nothing else |
| PatchWires.BracketedKey | internal/adopt/adopt.go:3260-3264 | an annotation key in brackets loses the quotes around it and nothing of its own |
| PatchWires.OnePatch | internal/adopt/adopt.go:3134-3158 | a patch that is no set is applied once, behind the report of its transforms |
| FieldPaths.NormalKey | internal/adopt/adopt.go:3978-4010 | a key put into brackets is what validation reads as a map and its key, unless it is all digits |
| PatchSets.SetInTurn | internal/adopt/adopt.go:3139-3156 | the patches of a set are applied first to last, each to what those before it have left |
| PatchSets.CircularIff | internal/adopt/adopt.go:3146-3149 | a set is reported as circular if and only if a chain of nested sets leads through others, each once, back to it |
| Masking.Mask | internal/adopt/adopt.go:2839-2847 | leftmost shortest matches become numbered placeholders, comments among them go, and the table holds the actions in order |
| Masking.CutWhole | internal/adopt/adopt.go:1283-1283 | the pieces the pattern cuts a text into are the text |
| Masking.Unmask | internal/adopt/adopt.go:4263-4276 | leftmost placeholders replaced, all else kept |
| Masking.UnmaskMasked | internal/adopt/adopt.go:2839-2847 | unmasking undoes masking whatever the actions contain, if the text around them is free of the placeholder's opening |
| Masking.UnmaskText | internal/adopt/adopt.go:4263-4276 | masking and unmasking a text gives it back without its comments, and whole when it has none |
| Comments.Strip | internal/adopt/adopt.go:2267-2338 | every comment is cut out, the last one first; what is only white space then goes altogether |
| Comments.LeavesSolid | internal/adopt/adopt.go:2267-2338 | the characters left that are not white space are exactly those outside the comments, in order |
| Comments.StripLeaves | internal/adopt/adopt.go:2267-2338 | of the text around the comments nothing goes but white space beside them |
| Comments.OwnLineGone | internal/adopt/adopt.go:2308-2313 | a comment with lines for itself goes with all of them and leaves no trace |
| Comments.LastLineGone | internal/adopt/adopt.go:2308-2320 | on the last line it goes with the line break in front, of either kind |
| Comments.TailGone | internal/adopt/adopt.go:2321-2330 | at the end of a line it goes with the blanks in front of it |
| Comments.OnlyCommentGone | internal/adopt/adopt.go:2321-2330 | in front of something on its line only the comment goes |
| Comments.CommentMatched | internal/adopt/adopt.go:1257-1257 | a comment is matched whole, with or without dashes and white space, up to its first closing |
| Comments.CutPoints | internal/adopt/adopt.go:2280-2331 | the cut as specified from the lines around the comment |
| Closest.EditDistance | internal/blueprint/closest.go:48-88 | one reused row and swapped operands compute the edit distance |
| Closest.DistanceLeast | internal/blueprint/closest.go:46-48 | every edit script from one string to the other costs at least the distance |
| Closest.DistanceReached | internal/blueprint/closest.go:46-48 | some edit script costs exactly that |
| Closest.DistanceSymmetric | internal/blueprint/closest.go:59-61 | the distance is symmetric, which the swap rests on |
| Closest.ClosestPath | internal/blueprint/closest.go:12-44 | the first nearest candidate if it is close enough, else the one suggested among those with the same parent, and so on; nothing exactly when there is none |
| SplitDocs.IsSeparator | internal/blueprint/split.go:10-24 | recognises separator lines and their end |
| SplitDocs.Split | internal/blueprint/split.go:28-94 | the scan yields exactly the documents a plain line-by-line splitter yields |
| SplitDocs.SplitJoined | internal/blueprint/split.go:26-28 | splitting undoes joining with separator lines, whatever blanks stand behind the dashes: each text cleaned, in order, without the empty ones |
| SplitDocs.CleanText | internal/blueprint/split.go:58-67 | a document comes out as it is, whatever white space is around it and whichever line ends it is written with |
| SplitDocs.Opened | internal/blueprint/split.go:32-42 | a separator that opens the stream adds nothing |
| Pack.PackTemplateCMs | internal/emit/fsexport.go:69-90 | fails exactly when one file exceeds the cap; otherwise an in-order partition within the cap, and none has fewer groups |
| Pipeline.ValidatePipeline | internal/blueprint/pipeline.go:66-161 | accepts exactly valid steps with distinct names and one package for each function |
| Pipeline.FreeName | internal/emit/pipeline.go:70-90 | the first free candidate name; the search ends because every taken candidate uses up a step name |
| Pipeline.EffectivePipeline | internal/emit/pipeline.go:37-114 | every declared step in order, one environment step in front when one is needed, and the de-duplication drops nothing |
| Pipeline.StepsKept | internal/emit/pipeline.go:37-75 | what becomes of each declared step: untouched, or of the environment function with its position, and the first of them its input and package, filled in where they are empty |
| Pipeline.SplitPipeline | internal/emit/pipeline.go:120-129 | the two sides of the templating step, order kept |
| Pipeline.SidesInOrder | internal/emit/pipeline.go:116-129 | each side holds exactly its steps, in the order declared |
| Pipeline.PipelineSound | internal/emit/pipeline.go:26-129 | all step names are distinct, the templating step's included, and every environment-configs step stands in front of it |

## Left out

- Rendering.ResourceRenders: is about managed resources whose forProvider fields are flat; native kinds and nested field trees (`buildNativeTree`) are not modelled, and the fields below forProvider are any that resolve to planned wires or literal text.
- Plans.PlanEnvelope: which raw texts are flow maps is a parameter, and so is which paths are objects; that a key required by the schema must not be optional is a schema check and left out.
- Plans.PlanAnnotations: a reference to another resource's metadata.name is rendered as the composite's name and that resource's name; a target with a name field of its own is not modelled.
- MapField.MapFieldMeans: excludes maps filled from a whole object parameter, which the code ranges over; any other map is planned from at least one entry.
- MapField.WriteField: keys are written as they are; the code quotes those YAML would misread.
- ResourceTemplate.CollectStatusGuards: guards are compared as expressions and sorted by a given printed form; the code compares the printed forms.
- Wires.EnvExact: what a decimal text with a point or an exponent is as a number is a parameter, and whether it is one at all is not checked; 64-bit and octal reading of digits is modelled.
- Validation.Validate: covers names, references, loops, conditions, fields, envelopes, annotations, parameters and environment keys; sources, kinds, scopes, emit settings, template bodies and control characters, which the modelled edits do not touch, are left out. That providerName is demanded only of Namespaced XRDs is not modelled.
- Edits.Editable.RenameParameter: documents are values here, so the aliasing that deepCopy guards against cannot arise and is not captured.
- Edits.RunKeeps: documents without raw text and template bodies; rewriting those is pattern work.
- Comments.Strip: white space is the six ASCII characters; the code also trims other Unicode spaces from a text that is white altogether.
- SplitDocs.Split: trims ASCII white space only.
- Composition.BodyRenders: the preamble, define blocks and the composite status document around the resources are left out, and so are native resources.
- Closest.EditDistance: strings are sequences of characters; the length a closeness test is measured against is a parameter because the code counts bytes there.
- Prune.PruneProperties: decides on references alone; matches of parameter names in free text are left out, and so are the loss records.
- Patches.Adoption.ApplyPatch: the rewriting of quoted brackets in a path, which rests on a pattern, is a parameter, and so are the field paths other resources set; the texts of loss records are reduced to what they name.
- Closest.ClosestPath: what is suggested is stated for candidates that are not empty and do not end in a dot, as field paths never are.
- Contents.EnvelopeShown: paths below forProvider are left out; an envelope key there is refused by a schema check that is not modelled.
- AddParameter, SetParameter, AddResource and SetResource: the same commit discipline with nothing to rewrite.
- The template preamble, define blocks and the composite status document.
- The KCL and Python emitters, schema resolution and CRD type checks.
- Conventions, catalogue search, provider inference and the wording of errors.
- HTTP handlers, command line, file system, registry and cluster clients.
