# Verified model of the ClawSeed core

A Dafny 4.11 model of the parts of ClawSeed whose correctness does not depend on
I/O, with proofs of what they promise. `dafny verify dfyconfig.toml` checks it all.

| component | files |
|---|---|
| JSON Schema cleaner (`crates/clawseed-api/src/schema.rs`) | `SchemaCleaning` (what it computes), `SchemaCleanr` (the loops and the shared reference stack), `SchemaShapes` (what a caller sees, keyword by keyword), `SchemaNormalForm`, `SchemaIdempotence`, `SchemaFixedPoints`, `SchemaValidity` (validity after JSON Schema 2020-12), `SchemaSteps`, `SchemaExactness`, `SchemaWeakening`, `SchemaUnevaluated`, `SchemaLimits`, `JsonPointer` |
| Tool-call text scanners (`crates/clawseed-agent/src/parser.rs`) | `JsonScanner`, `JsonBalance`, `ToolCalls`, `TagLoop`, `TagRoundTrip`, `TagRecovery`, `TextCleanup`, `Canonical` |
| Concurrent state machines | `SessionQueue`, `SessionQueueLimits`, `ToolRegistry`, `AskUser` |
| Clocked limiters | `RateLimit`, `AuthLimit`, `Idempotency` |
| Persistence of a streamed turn | `SessionStore`, `Streaming` |
| Shared | `Wrappers`, `Collections`, `Text`, `StringOrder`, `Json` |

Each component has the same three layers. Functions on values say what the code
computes. Methods, in classes where the source has a mutable object, run the
source's loops and updates and are proved equal to those functions. Lemmas then
prove the properties: for all inputs, and for the state machines for all runs of
atomic steps of any number of concurrent callers. Besides, what each operation
decides is stated once more in plain terms of its input, with the constants written
out and without those functions.

What is abstract. serde_json, the glob matcher, the response validator and the
formats nested in a tag body are parameters: functions about which nothing is
assumed. Clock readings are arguments of each call. A semaphore is one permit with
a first-in first-out queue; a one-shot channel is empty, filled or closed. A
serde_json object is a finite map whose loop order is ascending key order.

## Where the code does not keep a promise

These are facts about the code, each with a proved witness and, where named, the
exact condition for all inputs.

* A reference `#/$defs/X` is inlined from `definitions` when both sections have an
  `X`, `#/$defs/A/B` from a definition called `A/B`, `#/$defs/%41` from one called
  `%41`, and a reference below a nested `$id` from the document; a valid instance can
  become invalid (`ShadowedReferenceIsNotWeakened`, `SlashedReferenceIsNotWeakened`,
  `EscapedReferenceIsNotWeakened`, `EmbeddedResourceIsNotWeakened`; exactly when:
  `ResolutionIsFaithfulIff`).
* The entries of an `enum` are cleaned as if they were schemas, so an admitted object
  can be refused (`RewrittenEntryIsNotWeakened`; exactly when: `EnumStaysIff`).
* A `oneOf` that is not simplified can start to reject when a keyword inside its
  variants is dropped (`LeftoverOneOfIsNotWeakened`; exactly when: `LeftoverOneOfIff`).
* Dropping `additionalProperties` beside `unevaluatedProperties: false` makes the
  schema stricter (`UnevaluatedIsStrengthened`; exactly when: `UnevaluatedDropIff`).
* Null variants are said to be stripped from unions, and literal unions flattened. A
  union that is neither down to one variant nor flattened keeps its null variants
  (`NullVariantStays`), and literals without a `type` beside them, as in the comment on
  flattening, are not flattened (`UntypedLiteralsStay`; exactly when:
  `LoneSurvivorIsTaken`, `LiteralsAreFlattened`, `OtherUnionsStay`).
* A second cleaning changes objects that the first one copied, at four places:
  metadata next to a reference, metadata next to a simplified union, a lone `const`,
  and nested `type` arrays (`CopiedDefaultIsCleanedLater`, `CopiedUnionMetaIsCleanedLater`,
  `CopiedConstIsCleanedLater`, `NestedTypeArrayIsCleanedLater`; exactly when:
  `CleanTwiceIff`, and place by place `ReferenceTwiceIff`, `UnionTwiceIff`,
  `ConstTwiceIff`, `TypeArrayTwiceIff`).
* Under OpenAI an object-valued `$ref` can collapse to a string `$ref`
  (`OpenAIMayEmitReference`; exactly when: `CleanIsNormalIff`).
* The `<FunctionCall>` cleanup loop does not stop on every text (`StrayCloserNeverStops`;
  exactly when: `LoopStopsIff`).
* Removing think blocks is one pass and can leave a complete opening tag
  (`StripMayLeaveTag`; exactly when: `OpeningTagLeftIff`).
* An eviction that marks a slot between a task's lookup and its increment allows two live guards
  of one session (`EvictionRaceBreaksExclusion`; exactly when: `CheckIsSafeIff`,
  `HarmlessFromStartIff`).
* An `acquire` future dropped while it waits stays counted; as many of them as the
  queue is deep make the session refuse for good (`FullIsReached`,
  `DroppedFuturesBlockForGood`; exactly when: `RefusesForGoodIff`).
* A submit that arrives after the timer fired, but before the entry is removed, is
  reported as accepted and then lost (`AcceptedAnswerIsLost`; exactly when:
  `SuccessDecidesTheAnswer`).
* An `ask` future dropped while it waits leaves its entry: the request stays listed and
  an answer to it is accepted though nobody reads it (`DroppedAskStaysListed`,
  `DroppedAskNeverReturns`; exactly when the entry goes: `EntryGoesIff`).
* Until the clock has run for one window the rate limiter accepts every call
  (`EarlyBurstExceedsLimit`, `EarlyRunIsUnlimited`); hence the hypothesis `now >= window`.
* Attempts recorded while a key is locked make the auth sweep visible, so another
  client's call decides the verdict (`SweepShowsWithoutDiscipline`; exactly when:
  `SweepShowsIff`).
* A turn that ends in an error leaves its last partial save as an unmarked assistant
  row (`FailedTurnLeavesRow`; exactly when: `PartialSavesAreInvisibleIff`).
* A second writer of a session loses its reply to the later saves of a streamed turn,
  even of one that fails (`SecondWriterIsOverwritten`, `FailedTurnOverwritesReply`;
  exactly when: `ReplySurvivesIff`).

## Model

| member | source | states |
|---|---|---|
| JsonPointer.DecodeIsTwoStep | crates/clawseed-api/src/schema.rs:329-356 | On every string, lone tildes included, the one-pass decoder equals the two substitutions of RFC 6901 section 4 in their order, `~1` before `~0` |
| JsonPointer.DecodeUndoesEscape | crates/clawseed-api/src/schema.rs:328-356 | Decoding undoes the escaping of RFC 6901 section 3, for every member name |
| JsonPointer.EscapeHasNoSlash | crates/clawseed-api/src/schema.rs:320-326 | An escaped name never holds a slash, so it stays one segment of a reference |
| JsonPointer.DecodeSegment | crates/clawseed-api/src/schema.rs:329-356 | The loop with its look-ahead and its early return computes the decoder on every segment |
| SchemaCleanr.CleanTop | crates/clawseed-api/src/schema.rs:139-148 | A cleaning with a fresh stack terminates on every schema, cyclic definitions included, with the specified result, which `SchemaShapes` states keyword by keyword |
| SchemaCleanr.CleanWithDefs | crates/clawseed-api/src/schema.rs:200-215 | Any call returns the reference stack exactly as it received it, and the specified value; the measure is the references not on the stack, then the value |
| SchemaCleanr.CleanEach | crates/clawseed-api/src/schema.rs:208-212 | Cleaning an array element by element: same length, each element cleaned under the same stack, stack restored |
| SchemaCleanr.CleanObjectInto | crates/clawseed-api/src/schema.rs:218-289 | Reference first, then union simplification, then the rebuilt object; stack restored |
| SchemaCleanr.FillFields | crates/clawseed-api/src/schema.rs:238-288 | The ordered loop over the entries builds exactly the specified members, whatever their number; `enum` overrides the one made from `const` |
| SchemaCleanr.FillMember | crates/clawseed-api/src/schema.rs:243-286 | One round of that loop keeps the relation between the members built so far and the keys visited so far |
| SchemaCleanr.FillField | crates/clawseed-api/src/schema.rs:262-285 | The per-keyword treatment of a value, with the stack restored |
| SchemaCleanr.FillProperties | crates/clawseed-api/src/schema.rs:492-507 | Every property schema is cleaned under its own name; non-objects pass through |
| SchemaCleanr.ResolveRefOn | crates/clawseed-api/src/schema.rs:292-318 | Insert, clean the definition, remove: the stack is what it was, and a reference on the stack or leading nowhere becomes an empty schema with metadata |
| SchemaCleanr.TrySimplifyUnion | crates/clawseed-api/src/schema.rs:359-398 | The union decision on the cleaned variants, stack restored; which decision it is: `SchemaShapes.LoneSurvivorIsTaken`, `LiteralsAreFlattened`, `OtherUnionsStay` |
| SchemaCleanr.TryFlattenLiteralUnion | crates/clawseed-api/src/schema.rs:427-468 | The accumulating loop gives the specified enum or gives up; when it does which: `SchemaShapes.LiteralUnionBecomesEnum`, `OtherUnionsStay` |
| SchemaCleanr.PreserveMetaOn | crates/clawseed-api/src/schema.rs:528-537 | The loop over the metadata keys overwrites exactly those present in the source, and only on objects |
| SchemaShapes.PlainObjectIsRebuilt | crates/clawseed-api/src/schema.rs:238-289 | An object without reference or union, member by member: the unsupported keywords of each provider, listed by name, go; `const` becomes a one-element `enum` unless there is an `enum`; null leaves a `type` array; properties, arrays and subschemas are cleaned one by one |
| SchemaShapes.LocalReferenceIsReplaced | crates/clawseed-api/src/schema.rs:292-318 | A local reference, in either spelling and with any segment, becomes the cleaned definition of the name that RFC 6901 decodes the segment to, a legacy definition before another; one that is being inlined, or that names none, becomes an empty schema; its own description, title and default go on top |
| SchemaShapes.OtherReferenceIsDropped | crates/clawseed-api/src/schema.rs:320-326 | Any other reference becomes an empty schema with the metadata beside it |
| SchemaShapes.LoneSurvivorIsTaken | crates/clawseed-api/src/schema.rs:382-390 | If one variant of an `anyOf` or else `oneOf` says something other than null, its cleaned form takes the place of the object, with the metadata beside the union |
| SchemaShapes.LiteralsAreFlattened | crates/clawseed-api/src/schema.rs:392-395 | If two or more are left and each pins down a literal of one common type, the object becomes that type with an `enum` of the literals in order, with the metadata |
| SchemaShapes.OtherUnionsStay | crates/clawseed-api/src/schema.rs:397-397 | In all other cases, nothing left or one without a literal or two of different types, the union keeps its key and its cleaned variants, and the object is rebuilt around it |
| SchemaShapes.NullVariantStays | crates/clawseed-api/src/schema.rs:381-397 | Such a union keeps its null variants |
| SchemaShapes.LiteralUnionBecomesEnum | crates/clawseed-api/src/schema.rs:401-468 | In terms of the input alone: a union of any number of `{type, const}` and `{type, enum: [x]}` variants of one type, with null variants anywhere among them, becomes the `enum` of their literals in order |
| SchemaShapes.LiteralDocumentBecomesEnum | crates/clawseed-api/src/schema.rs:139-148 | The same for a whole document under every strategy |
| SchemaShapes.TwoLiteralsBecomeEnum | crates/clawseed-api/src/schema.rs:588-606 | The smallest case outright: two literals of one type, whatever they are, under every strategy |
| SchemaShapes.UntypedLiteralsStay | crates/clawseed-api/src/schema.rs:424-456 | Two or more literals without a `type` are not flattened: each becomes an `enum` of its own and the union stays |
| SchemaNormalForm.CleanIsNormalIff | crates/clawseed-api/src/schema.rs:200-537 | Exactly when every schema position of the output has no string-valued `$ref`, no `const` and no keyword the strategy does not support, for every input, context and strategy: on the path the cleaner takes, no kept `$ref` member leads to a string |
| SchemaNormalForm.LeadsToStringIff | crates/clawseed-api/src/schema.rs:200-318 | What cleans to a string: a string, a reference off the stack whose definition leads to one, or a union whose lone survivor does |
| SchemaNormalForm.CleanSchemaIsNormalIff | crates/clawseed-api/src/schema.rs:139-148 | The same for every document under every strategy |
| SchemaNormalForm.PlainNeverCollapses | crates/clawseed-api/src/schema.rs:223-225 | A check of the input alone: the condition always holds except under OpenAI, and there whenever no `$ref` member is an object |
| SchemaNormalForm.ConstTestsNeverFire | crates/clawseed-api/src/schema.rs:401-441 | On every cleaned variant the `const` tests of the union helpers decide nothing; only `enum` and `type` do |
| SchemaNormalForm.OpenAIMayEmitReference | crates/clawseed-api/src/schema.rs:223-225 | Witness for every reference text: under OpenAI an object-valued `$ref` collapses to that string |
| SchemaIdempotence.StableIsFixed | crates/clawseed-api/src/schema.rs:200-289 | A schema of the stable shape is returned unchanged under any definitions and any stack |
| SchemaIdempotence.CleanIsStableIff | crates/clawseed-api/src/schema.rs:200-537 | Exactly when the output has the stable shape, for every input, context and strategy: everything that the pass copies without cleaning, and does not overwrite again, is stable |
| SchemaIdempotence.CleanTwiceIsCleanOnce | crates/clawseed-api/src/schema.rs:139-148 | Under every strategy, if everything copied is stable, a second cleaning, with the definitions it then sees, changes nothing |
| SchemaIdempotence.TameIsSettled | crates/clawseed-api/src/schema.rs:200-537 | A check of the input alone that suffices: copied metadata, lone `const` values and `type` entries in the document and its definitions are stable, which all scalars and names are |
| SchemaIdempotence.WellFormedIsCleanedOnce | crates/clawseed-api/src/schema.rs:139-148 | Documents that pass that check are cleaned once and for all |
| SchemaIdempotence.TypeNamesAreTame | crates/clawseed-api/src/schema.rs:471-489 | Every `type` array of names meets the hypothesis of idempotence |
| SchemaIdempotence.InertIsStable | crates/clawseed-api/src/schema.rs:200-215 | Scalars and arrays of scalars are stable, so such literals and metadata never matter |
| SchemaIdempotence.CopiedDefaultIsCleanedLater | crates/clawseed-api/src/schema.rs:528-537 | Witness under every strategy: metadata copied next to a reference is changed by the second pass |
| SchemaIdempotence.NestedTypeArrayIsCleanedLater | crates/clawseed-api/src/schema.rs:471-489 | Witness under every strategy: an array unwrapped out of a `type` array is changed by the second pass |
| SchemaIdempotence.CopiedConstIsCleanedLater | crates/clawseed-api/src/schema.rs:250-252 | Witness under every strategy: an object under a lone `const` is changed by the second pass |
| SchemaIdempotence.CopiedUnionMetaIsCleanedLater | crates/clawseed-api/src/schema.rs:359-398 | Witness under every strategy: metadata copied next to a simplified union is changed by the second pass |
| SchemaFixedPoints.FixedIffStable | crates/clawseed-api/src/schema.rs:200-537 | In any context a pass returns a schema unchanged exactly when it has the stable shape |
| SchemaFixedPoints.LoopedReferenceIsFixed | crates/clawseed-api/src/schema.rs:292-318 | Witness that the hypothesis on object-valued `$ref` members is needed under OpenAI: a reference whose definition collapses to it is left alone and is not stable |
| SchemaFixedPoints.CleanTwiceIff | crates/clawseed-api/src/schema.rs:139-148 | For every document: a second cleaning changes nothing exactly when everything the first one copied and kept is stable |
| SchemaFixedPoints.ReferenceTwiceIff | crates/clawseed-api/src/schema.rs:292-318 | First copy site. After a reference was replaced, by a settled definition or by the cycle breaker, a second pass changes nothing exactly when the metadata beside the reference is stable |
| SchemaFixedPoints.UnionTwiceIff | crates/clawseed-api/src/schema.rs:359-398 | Second copy site. After a union of settled variants was simplified to an object, a second pass changes nothing exactly when the metadata beside the union is stable |
| SchemaFixedPoints.ConstTwiceIff | crates/clawseed-api/src/schema.rs:250-252 | Third copy site. A lone `const` becomes a one-element `enum`, and a second pass changes nothing exactly when the literal is stable |
| SchemaFixedPoints.TypeArrayTwiceIff | crates/clawseed-api/src/schema.rs:471-489 | Fourth copy site. A second pass changes a `type` array exactly when one entry besides "null" is left and that entry is an array that holds "null" or fewer than two entries, or another value that is not stable |
| SchemaFixedPoints.CleanIsNoDeeper | crates/clawseed-api/src/schema.rs:359-398 | On schemas in normal form no pass nests unions deeper, however they collapse |
| SchemaFixedPoints.SimplifiedIsDifferent | crates/clawseed-api/src/schema.rs:382-398 | A union that simplifies never simplifies to itself |
| SchemaWeakening.CleanWeakens | crates/clawseed-api/src/schema.rs:200-537 | Every instance without null that is valid before is valid after, through inlining, cycle breaking, null stripping, flattening and keyword removal, through a `oneOf` left in place if its variants lose nothing, and beside any other keyword whose value a pass leaves alone |
| SchemaWeakening.CleanSchemaWeakens | crates/clawseed-api/src/schema.rs:139-148 | The same for a whole document, with reference fuel for every reference that can be inlined |
| SchemaWeakening.FollowReference | crates/clawseed-api/src/schema.rs:300-318 | Following a reference spends one unit of fuel and takes the reference out of the budget for good |
| SchemaWeakening.LeftoverOneOfStays | crates/clawseed-api/src/schema.rs:510-525 | A `oneOf` left in place with variants that lose nothing still accepts exactly one of them |
| SchemaWeakening.LeftoverOneOfIff | crates/clawseed-api/src/schema.rs:510-525 | At any `oneOf` left in place, an instance that one variant accepted stays valid exactly when no other cleaned variant accepts it |
| SchemaUnevaluated.UnevaluatedDropIff | crates/clawseed-api/src/schema.rs:243-247 | Beside `unevaluatedProperties: false`, exactly when an instance that was valid stays valid: `additionalProperties` is kept, or what is left of the property keywords still speaks about every property |
| SchemaUnevaluated.UnevaluatedIsStrengthened | crates/clawseed-api/src/schema.rs:243-247 | Witness under Gemini and Conservative: dropping `additionalProperties` makes a valid instance invalid |
| SchemaSteps.DecisionAccepts | crates/clawseed-api/src/schema.rs:382-398 | If one cleaned variant accepts a non-null instance, the simplified union accepts it, whichever simplification was chosen |
| SchemaSteps.TypeArrayAccepts | crates/clawseed-api/src/schema.rs:471-489 | Removing null from a `type` array keeps every non-null instance |
| SchemaSteps.MetaIsAnnotation | crates/clawseed-api/src/schema.rs:528-537 | Metadata written over a schema never changes what it accepts |
| SchemaExactness.CleanIsExact | crates/clawseed-api/src/schema.rs:200-537 | Where no keyword that says something is dropped, no cycle is cut and foreign keywords are left alone, a null-free instance is valid after cleaning exactly when it was valid before |
| SchemaExactness.CleanSchemaIsExact | crates/clawseed-api/src/schema.rs:139-148 | The same for a whole document under any strategy |
| SchemaExactness.DecisionIsExact | crates/clawseed-api/src/schema.rs:382-398 | A union and its simplified form accept the same non-null instances once their variants do |
| SchemaExactness.TypeArrayIsExact | crates/clawseed-api/src/schema.rs:471-489 | A `type` array of names and its cleaned form admit the same non-null instances |
| SchemaExactness.MetaIsInvisible | crates/clawseed-api/src/schema.rs:528-537 | Writing metadata over a schema neither adds nor removes an accepted instance |
| SchemaLimits.NullIsStripped | crates/clawseed-api/src/schema.rs:471-489 | A nullable type stops accepting null, under every strategy |
| SchemaLimits.ResolutionIsFaithfulIff | crates/clawseed-api/src/schema.rs:179-197 | Exactly when a local reference is inlined from where it points, whatever its escapes and segments and whichever resource of the document it stands in: the percent-decoded pointer, walked from the section of that resource, ends at the entry that the collected map has under the raw remainder |
| SchemaLimits.OneSegmentIsFaithfulIff | crates/clawseed-api/src/schema.rs:179-197 | For a remainder that decodes to one segment: the decoded name must be an entry of the section of its own resource, equal to the one that is inlined |
| SchemaLimits.PlainSegmentIsFaithfulIff | crates/clawseed-api/src/schema.rs:179-197 | Without escapes and nested resources: a `$defs` reference must not be shadowed by a different legacy entry, and a `definitions` reference must name a legacy entry |
| SchemaLimits.NestedIsFaithfulIff | crates/clawseed-api/src/schema.rs:320-326 | For a remainder that decodes to several segments: the walk through the first must end at the entry whose name is the whole raw remainder |
| SchemaLimits.ShadowedReferenceIsNotWeakened | crates/clawseed-api/src/schema.rs:190-195 | For every document with a shadowed definition a valid instance becomes invalid |
| SchemaLimits.SlashedReferenceIsNotWeakened | crates/clawseed-api/src/schema.rs:320-326 | For every document with a definition called `A/B` a reference into `A` is inlined from it, and a valid instance becomes invalid |
| SchemaLimits.EscapedReferenceIsNotWeakened | crates/clawseed-api/src/schema.rs:320-326 | For every document with definitions `A` and `%41` the reference `#/$defs/%41`, which means `A`, is inlined from the other, and a valid instance becomes invalid |
| SchemaLimits.EmbeddedResourceIsNotWeakened | crates/clawseed-api/src/schema.rs:179-197 | A reference in a subschema with an `$id` and definitions of its own is inlined from the document, and a valid instance becomes invalid |
| SchemaLimits.EnumStaysIff | crates/clawseed-api/src/schema.rs:277-285 | Exactly when a cleaned `enum` still admits every null-free instance it admitted: each such entry is the cleaned form of some entry |
| SchemaLimits.OneEntryStaysIff | crates/clawseed-api/src/schema.rs:277-285 | For one null-free entry, under OpenAI one without object-valued `$ref`: exactly if the entry is stable |
| SchemaLimits.UnstableEntryMayStay | crates/clawseed-api/src/schema.rs:277-285 | Witness that stable entries are more than is needed: an unstable entry that another entry, which holds null, is cleaned to |
| SchemaLimits.RewrittenEntryIsNotWeakened | crates/clawseed-api/src/schema.rs:277-285 | Witness under every strategy: an `enum` entry that looks like a `const` schema is rewritten and no longer admitted |
| SchemaLimits.LeftoverOneOfIsNotWeakened | crates/clawseed-api/src/schema.rs:510-525 | A `oneOf` left in place stops accepting a valid instance once a keyword inside it is dropped |
| JsonScanner.FindJsonEnd | crates/clawseed-agent/src/parser.rs:467-500 | The reported byte offset is the byte length of the text up to the end that the automaton finds, for every input |
| JsonScanner.ScanChars | crates/clawseed-agent/src/parser.rs:475-499 | The loop with depth, string and escape flags follows the automaton to the brace that brings the depth to zero |
| JsonScanner.ScannerFindsObject | crates/clawseed-agent/src/parser.rs:467-500 | Whitespace, then any object text of RFC 8259, then any text: the reported end is exactly the end of the object |
| JsonScanner.ScannerRejectsUnclosed | crates/clawseed-agent/src/parser.rs:499-499 | An object text without its closing brace has no end |
| JsonScanner.ValuePasses | crates/clawseed-agent/src/parser.rs:475-497 | Reading any value of the grammar inside an object returns the scanner to the state it started in |
| JsonScanner.StringPasses | crates/clawseed-agent/src/parser.rs:476-484 | Reading any string, with escapes, quotes and braces in it, returns to the same depth outside strings |
| JsonBalance.FirstBalanceIsTheEnd | crates/clawseed-agent/src/parser.rs:467-500 | On any text, well-formed or not, that starts with a brace: the end is behind the first brace outside strings up to which as many are closed as opened; brackets count for nothing, and a backslash only inside a string |
| JsonBalance.NoBalanceNoEnd | crates/clawseed-agent/src/parser.rs:499-499 | If there is no such brace, be it that a string never ends, there is no end |
| JsonBalance.OnlyBracesStart | crates/clawseed-agent/src/parser.rs:468-473 | A text whose first character after blanks is no opening brace has no end |
| JsonBalance.EveryTextIsPieces | crates/clawseed-agent/src/parser.rs:475-497 | These cases cover every text: it is a row of braces, strings and other characters, up to a string that does not end |
| Text.ByteLengthIsUtf8 | crates/clawseed-agent/src/parser.rs:469-493 | Offsets count the bytes of the UTF-8 encoding of RFC 3629 |
| Text.Utf8IsRead | crates/clawseed-agent/src/parser.rs:493-493 | In that encoding the first byte of a character tells how many bytes it takes, and they give the character back |
| ToolCalls.ParseCallsFromValue | crates/clawseed-agent/src/parser.rs:113-142 | The loops give the specified calls; which calls these are, member by member: the rows below |
| ToolCalls.FlatCallIsRead | crates/clawseed-agent/src/parser.rs:92-110 | An object with a usable `name` and no `function` with one is one call: the trimmed name, `arguments` before `parameters`, a string among them read as JSON, an empty object for want of them, and the first of `id`, `tool_call_id`, `call_id` |
| ToolCalls.NestedCallIsRead | crates/clawseed-agent/src/parser.rs:69-91 | An object whose `function` has a usable name is the call described there; an `id` inside goes before those outside |
| ToolCalls.NothingIsRead | crates/clawseed-agent/src/parser.rs:95-98 | Without a usable name in either place there is no call |
| ToolCalls.ArrayIsReadInOrder | crates/clawseed-agent/src/parser.rs:129-134 | An array gives the calls of its elements one after the other; `tool_calls` or an array inside an element is not looked into |
| ToolCalls.ToolCallsComeFirst | crates/clawseed-agent/src/parser.rs:118-127 | `tool_calls` is read if it gives any call; otherwise the object is read as if it were not there |
| ToolCalls.FlatCallRoundTrip | crates/clawseed-agent/src/parser.rs:92-110 | A well-formed call written flat, under either name of the arguments and any of the three of the identifier, is read back unchanged |
| ToolCalls.FlatCallsRoundTrip | crates/clawseed-agent/src/parser.rs:113-142 | So are flat calls in a bare array and under `tool_calls`, in order |
| ToolCalls.CallRoundTrip | crates/clawseed-agent/src/parser.rs:69-111 | A well-formed call written in the native format is read back unchanged |
| ToolCalls.ToolCallsResponseRoundTrip | crates/clawseed-agent/src/parser.rs:113-142 | A whole `tool_calls` response gives its calls back in order |
| ToolCalls.StringArgumentsAreReparsed | crates/clawseed-agent/src/parser.rs:22-29 | Arguments that are a bare string survive exactly when the JSON parser maps the string to itself |
| TagLoop.StripLeadingCloseTagsLoop | crates/clawseed-agent/src/parser.rs:405-417 | The loop stops and returns the specified suffix of its input |
| TagRecovery.StraysGo | crates/clawseed-agent/src/parser.rs:405-417 | Any number of closing tags and blanks at the front go, and the text behind them stays as it is |
| TagRecovery.EndlessStrayGoes | crates/clawseed-agent/src/parser.rs:412-414 | A closing tag that does not end takes all that follows |
| TagLoop.RunTurns | crates/clawseed-agent/src/parser.rs:1031-1162 | The loop that pushes texts and calls stops on every input, since each turn shortens the rest, with the specified result |
| TagLoop.RunTagLoop | crates/clawseed-agent/src/parser.rs:1031-1162 | The same for the six tags, the cross-alias closing tags and the recovery of unclosed tags |
| TagRoundTrip.FirstOpenTagIsHere | crates/clawseed-agent/src/parser.rs:377-381 | After a text free of opening tags the first tag found is the one printed there |
| TagRecovery.PlainTagsByName | crates/clawseed-agent/src/parser.rs:359-375 | The first three of the six tags, opening and closing, by their names |
| TagRecovery.OtherTagsByName | crates/clawseed-agent/src/parser.rs:359-375 | The other three |
| TagRoundTrip.PrintedBlocksComeBack | crates/clawseed-agent/src/parser.rs:1031-1085 | Printed blocks, of any of the six tags, come back in order body by body, and the texts between them trimmed and in order |
| TagRoundTrip.PrintedCallsComeBack | crates/clawseed-agent/src/parser.rs:1031-1085 | Calls printed as `<tool_call>` blocks come back unchanged and in order |
| TagRoundTrip.TextsAreOrderedSlices | crates/clawseed-agent/src/parser.rs:1031-1162 | On any input the emitted texts are disjoint slices of it, in order |
| TagRecovery.PrintedTextIsKept | crates/clawseed-agent/src/parser.rs:1034-1036 | All text outside printed blocks is kept, piece by piece, trimmed, without blank pieces, the piece after the last block included |
| TagRecovery.BodyIsRead | crates/clawseed-agent/src/parser.rs:1052-1077 | The calls of a body are those of its JSON, the whole of it or else what is embedded in it, in order; only if there are none those of nested XML, and then the short form |
| TagRecovery.CrossAliasBlockComesBack | crates/clawseed-agent/src/parser.rs:1086-1125 | A body closed by another of the six tags gives its calls and the loop goes on after that tag |
| TagRecovery.UnclosedCallIsRecovered | crates/clawseed-agent/src/parser.rs:1127-1140 | An object text after an opening tag, with no closing tag at all, is cut out exactly by brace balancing and gives its calls |
| TagRecovery.LeadingCallsAreTaken | crates/clawseed-agent/src/parser.rs:1127-1139 | If no closing tag ends a body with calls, the object right behind the opening tag is tried next |
| TagRecovery.EmbeddedCallsAreTaken | crates/clawseed-agent/src/parser.rs:1141-1148 | Then the first JSON value anywhere behind the tag |
| TagRecovery.ShortFormIsTaken | crates/clawseed-agent/src/parser.rs:1150-1157 | Then the short form, which takes all the rest |
| TagRecovery.NothingIsTaken | crates/clawseed-agent/src/parser.rs:1159-1160 | If nothing gives a call the loop stops and leaves the tag and what follows in the text |
| TextCleanup.StripThinkTags | crates/clawseed-agent/src/parser.rs:1392-1410 | The loop computes the text outside think blocks, trimmed |
| TextCleanup.StripKeepsVisible | crates/clawseed-agent/src/parser.rs:1392-1410 | Exactly the text outside the printed think blocks survives, for any number of blocks |
| TextCleanup.UnclosedThoughtKeepsFront | crates/clawseed-agent/src/parser.rs:1396-1403 | A block that is not closed takes the rest of the text and nothing of what is outside the blocks before it |
| TextCleanup.StripMayLeaveTag | crates/clawseed-agent/src/parser.rs:1395-1408 | Witness that removal is a single pass |
| TextCleanup.OpeningTagLeftIff | crates/clawseed-agent/src/parser.rs:1392-1410 | For every text: the result holds a complete opening tag exactly when the tag is spelled across the seams of the visible pieces, a proper part of it at the end of one and the rest at the start of those that follow |
| TextCleanup.OpenerBeforeCloser | crates/clawseed-agent/src/parser.rs:1299-1305 | The opener is found at most one position after the closer starts, so each pass removes at least nine characters |
| TextCleanup.RemoveToolCallBlocks | crates/clawseed-agent/src/parser.rs:1299-1309 | On every text the `TOOL_CALL` loop stops, after as many passes as there are complete blocks to remove, with the text of the iterated pass; no closer is left, and each pass took at least nine characters |
| TextCleanup.FirstToolCallGoes | crates/clawseed-agent/src/parser.rs:1299-1305 | A pass takes out the first `TOOL_CALL` block and leaves the text before and behind it |
| TextCleanup.NothingToRemove | crates/clawseed-agent/src/parser.rs:1300-1307 | A text without a closer is left alone |
| TextCleanup.PassShrinksIff | crates/clawseed-agent/src/parser.rs:1329-1339 | A pass of the `<FunctionCall>` loop shortens the text exactly when the first opening tag precedes the first closing tag |
| TextCleanup.FirstFunctionCallGoes | crates/clawseed-agent/src/parser.rs:1329-1339 | A pass takes out the first `<FunctionCall>` block and leaves the text before and behind it |
| TextCleanup.CrossedPersists | crates/clawseed-agent/src/parser.rs:1329-1339 | A text with crossed first tags is again such a text after a pass |
| TextCleanup.LoopStopsIff | crates/clawseed-agent/src/parser.rs:1329-1339 | Exactly when the `<FunctionCall>` loop stops, for every text |
| TextCleanup.CrossedTagsNeverStop | crates/clawseed-agent/src/parser.rs:1329-1339 | On a closing tag in front of any text that starts with an opening tag the loop makes any number of passes |
| TextCleanup.StrayCloserNeverStops | crates/clawseed-agent/src/parser.rs:655-687 | In particular on a stray closing tag before any complete call, a text on which the loop is entered |
| TextCleanup.RemoveFunctionCallBlocks | crates/clawseed-agent/src/parser.rs:1329-1339 | On the texts on which it stops, the result is the iterated pass, and no complete block is left |
| Canonical.Canonicalize | crates/clawseed-agent/src/parser.rs:46-67 | The recursive sort returns the canonical form |
| Canonical.CanonicalizeMembers | crates/clawseed-agent/src/parser.rs:48-60 | The loop over the sorted keys rebuilds an object in ascending key order with canonical members |
| Canonical.CanonicalKeepsMeaning | crates/clawseed-agent/src/parser.rs:46-67 | Canonicalizing changes the order of members and nothing else |
| Canonical.CanonicalIffOrdered | crates/clawseed-agent/src/parser.rs:46-67 | What the canonical form is: the only value with the same members in which the keys of every object, at every depth, are in ascending order |
| Canonical.CanonicalDecidesEquality | crates/clawseed-agent/src/parser.rs:46-67 | Two values with distinct keys per object have the same canonical form exactly when they are equal as nested finite maps |
| Canonical.CanonicalIsIdempotent | crates/clawseed-agent/src/parser.rs:46-67 | Canonicalizing twice is canonicalizing once |
| StringOrder.SortKeys | crates/clawseed-agent/src/parser.rs:49-50 | The keys in ascending order, each once |
| StringOrder.AscendingUnique | crates/clawseed-agent/src/parser.rs:50-50 | An ascending enumeration is determined by the set of keys, so any sorting algorithm gives this one |
| StringOrder.LessAt | crates/clawseed-agent/src/parser.rs:50-50 | The first difference decides the order of two keys, and a proper prefix comes first |
| SessionQueue.NextKeepsInv | crates/clawseed-gateway/src/session_queue.rs:36-155 | Every atomic step keeps: `pending` counts the tasks between increment and decrement and the futures dropped there, the admitted ones respect the depth, the permit has one owner |
| SessionQueue.EveryInterleaving | crates/clawseed-gateway/src/session_queue.rs:82-155 | After any run: `pending` is the number of counted tasks plus that of dropped futures, admitted tasks never exceed `max_queue_depth`, each slot has at most one live guard |
| SessionQueue.NoTaskIsStuck | crates/clawseed-gateway/src/session_queue.rs:97-124 | In every reachable state whoever does not wait can go on, whoever waits can run into its timeout, and a future can be dropped wherever it awaits something |
| SessionQueue.TimedOutWaiterLeaves | crates/clawseed-gateway/src/session_queue.rs:117-122 | A waiter that times out leaves the queue and is counted out; the permit stays where it is, and nothing else changes |
| SessionQueue.GuardLeaves | crates/clawseed-gateway/src/session_queue.rs:31-40 | A dropped guard is counted out and gives the permit back, and nothing else changes |
| SessionQueue.DroppedFutureStaysCounted | crates/clawseed-gateway/src/session_queue.rs:98-110 | A dropped future leaves the queue, or gives its permit back, and stays counted |
| SessionQueue.OneGuardPerSession | crates/clawseed-gateway/src/session_queue.rs:82-155 | In runs whose evictions mark no slot that a task has looked up and not yet counted itself at, each session has at most one live guard |
| SessionQueue.EvictionMakesStale | crates/clawseed-gateway/src/session_queue.rs:136-154 | A run that leaves a task with a slot the map no longer knows |
| SessionQueue.StaleTaskOverlaps | crates/clawseed-gateway/src/session_queue.rs:82-124 | From any state with such a task, two tasks can hold guards of one session |
| SessionQueue.EvictionRaceBreaksExclusion | crates/clawseed-gateway/src/session_queue.rs:136-154 | For every depth, lifetime and session there is a run with two live guards |
| SessionQueueLimits.NextKeepsQueued | crates/clawseed-gateway/src/session_queue.rs:82-155 | Every step keeps: waiters are different tasks waiting for that slot, and a permit that is out has a holder |
| SessionQueueLimits.HarmfulCheckOverlaps | crates/clawseed-gateway/src/session_queue.rs:136-154 | From every such state, a check that marks a slot looked up by a task extends, without any further check, to two live guards of the session |
| SessionQueueLimits.CheckIsSafeIff | crates/clawseed-gateway/src/session_queue.rs:136-154 | At every state of a run that was harmless so far: a check marks no looked-up slot exactly when every harmless continuation keeps one guard per session |
| SessionQueueLimits.HarmlessFromStartIff | crates/clawseed-gateway/src/session_queue.rs:82-155 | A run from the empty queue is harmless exactly when, after each of its prefixes, every harmless continuation keeps one guard per session |
| SessionQueue.StepKeepsExhausted | crates/clawseed-gateway/src/session_queue.rs:97-105 | Once `max_queue_depth` futures of a session were dropped while they waited, and no eviction pass had marked the session before, every step keeps its slot full and in the map, and every increment is refused |
| SessionQueue.DroppedFuturesBlockForGood | crates/clawseed-gateway/src/session_queue.rs:97-155 | Hence in every continuation every later caller is refused and the slot is never evicted |
| SessionQueueLimits.FullIsReached | crates/clawseed-gateway/src/session_queue.rs:97-124 | A run that gets there, for every depth, lifetime and session |
| SessionQueueLimits.Drains | crates/clawseed-gateway/src/session_queue.rs:97-124 | From any state the counted tasks of a slot leave by their own steps alone, whatever the others do |
| SessionQueueLimits.IsAdmitted | crates/clawseed-gateway/src/session_queue.rs:82-124 | With fewer dropped futures than the depth an idle caller can be admitted after those steps and the end of a running eviction |
| SessionQueueLimits.RefusesForGoodIff | crates/clawseed-gateway/src/session_queue.rs:97-155 | Every later caller of a session is refused, however the run goes on, exactly when as many of its futures were dropped as the queue is deep |
| SessionQueue.SessionActorQueue.LookupSlot | crates/clawseed-gateway/src/session_queue.rs:83-95 | Lookup or creation under the map lock is one step of the machine and returns the slot of the session |
| SessionQueue.SessionActorQueue.Count | crates/clawseed-gateway/src/session_queue.rs:98-105 | Increment and depth check; a full queue reports the count it found, which is at least the depth |
| SessionQueue.SessionActorQueue.JoinQueue | crates/clawseed-gateway/src/session_queue.rs:108-109 | Joining the semaphore queue at its end |
| SessionQueue.SessionActorQueue.TakePermit | crates/clawseed-gateway/src/session_queue.rs:109-110 | The first waiter takes the free permit |
| SessionQueue.SessionActorQueue.BuildGuard | crates/clawseed-gateway/src/session_queue.rs:110-116 | The new guard's slot becomes active now |
| SessionQueue.SessionActorQueue.TimeOut | crates/clawseed-gateway/src/session_queue.rs:117-117 | A timed-out waiter leaves the queue, still counted |
| SessionQueue.SessionActorQueue.CountOut | crates/clawseed-gateway/src/session_queue.rs:100-122 | The decrement before an error is returned |
| SessionQueue.SessionActorQueue.DropFuture | crates/clawseed-gateway/src/session_queue.rs:98-109 | A future dropped while it waits leaves the queue and is never counted out |
| SessionQueue.SessionActorQueue.DropGuard | crates/clawseed-gateway/src/session_queue.rs:36-40 | The guard's drop decrements before the permit goes back |
| SessionQueue.SessionActorQueue.ReturnPermit | crates/clawseed-gateway/src/session_queue.rs:31-40 | The permit is free again |
| SessionQueue.SessionActorQueue.QueueDepth | crates/clawseed-gateway/src/session_queue.rs:127-133 | Whatever the interleaving so far, the number of tasks between increment and decrement on the session's slot plus that of its dropped futures; zero for an unknown session |
| SessionQueue.SessionActorQueue.EvictIdle | crates/clawseed-gateway/src/session_queue.rs:136-155 | With no step in between: a session stays exactly if it was active within its lifetime or something is pending, each keeps its slot, and the number of those removed is returned |
| SessionQueue.RecentUseIsKept | crates/clawseed-gateway/src/session_queue.rs:110-154 | In every run: a session whose guard was built at `t` keeps its slot through every eviction that begins by `t` plus the lifetime |
| SessionQueue.NewSlotIsInUse | crates/clawseed-gateway/src/session_queue.rs:83-95 | A slot counts as used from the lookup that creates it |
| SessionQueue.LongIdleIsEvicted | crates/clawseed-gateway/src/session_queue.rs:136-154 | A session with nothing pending that was last active longer ago goes with one check |
| SessionQueueLimits.FirstComeFirstServed | crates/clawseed-gateway/src/session_queue.rs:108-110 | In every run: as long as a task waits, nobody behind it in the queue, or not yet in it, is given the permit |
| ToolRegistry.CacheAgrees | crates/clawseed-agent/src/tool_registry.rs:57-199 | In every interleaving a filled cache, with no mutator between change and invalidation, equals recomputation |
| ToolRegistry.ReturnedIsServed | crates/clawseed-agent/src/tool_registry.rs:240-270 | A `tool_specs` call that returns while no mutator is halfway returns, sorted by name, exactly the tools that `get_tool` serves |
| ToolRegistry.RecomputedIsServed | crates/clawseed-agent/src/tool_registry.rs:187-199 | Recomputed specs are ascending by name and are exactly the served tools with their own specs |
| ToolRegistry.NextKeepsInv | crates/clawseed-agent/src/tool_registry.rs:57-270 | Every step keeps: cache exact when no mutator is halfway, and a running rebuild right about the keys it has met |
| ToolRegistry.StaleInBetween | crates/clawseed-agent/src/tool_registry.rs:231-238 | Between a removal and its invalidation a cached answer lists a tool that `get_tool` refuses |
| ToolRegistry.SpecsCanBeHad | crates/clawseed-agent/src/tool_registry.rs:256-270 | From every state between mutations there is a run of a `tool_specs` call to its end, and it leaves the recomputation in the cache |
| ToolRegistry.ChangesPassRebuilds | crates/clawseed-agent/src/tool_registry.rs:57-238 | A mutator makes its change while another thread rebuilds the specs; only its invalidation waits |
| ToolRegistry.OvertakenRebuildIsDiscarded | crates/clawseed-agent/src/tool_registry.rs:86-101 | A registration that overtakes a rebuild leaves it to fill the cache without the new tool, and the invalidation that follows the change empties the cache |
| ToolRegistry.DefaultToolRegistry.WithFilters | crates/clawseed-agent/src/tool_registry.rs:41-53 | An empty registry with the given filters and no cache |
| ToolRegistry.DefaultToolRegistry.UpdateFilters | crates/clawseed-agent/src/tool_registry.rs:57-61 | New filters, same tools, no stale cache |
| ToolRegistry.DefaultToolRegistry.RegisterOrReplace | crates/clawseed-agent/src/tool_registry.rs:86-101 | The tool is the entry of its name, the previous entry's source is returned, no stale cache |
| ToolRegistry.DefaultToolRegistry.Register | crates/clawseed-agent/src/tool_registry.rs:208-221 | Added exactly when the name was free, otherwise nothing changes |
| ToolRegistry.DefaultToolRegistry.RegisterAll | crates/clawseed-agent/src/tool_registry.rs:105-126 | Old entries stay, each free name gets the first tool of the batch that bears it, no other name appears, and the number added is returned |
| ToolRegistry.DefaultToolRegistry.Unregister | crates/clawseed-agent/src/tool_registry.rs:231-238 | Exactly that name is gone; the result says whether it was there |
| ToolRegistry.DefaultToolRegistry.UnregisterBySource | crates/clawseed-agent/src/tool_registry.rs:169-185 | Exactly the tools of the source are gone, the others are untouched, and the number is returned |
| ToolRegistry.DefaultToolRegistry.GetTool | crates/clawseed-agent/src/tool_registry.rs:240-248 | The tool of the name if the filters allow it (`ToolRegistry.ServedIff` says when); none for an unknown name or one that a denied pattern matches |
| ToolRegistry.ServedIff | crates/clawseed-agent/src/tool_registry.rs:65-83 | In terms of the pattern lists: a denied pattern refuses whatever the others say; then a nonempty allowed list decides; then the filters of a filtered MCP server; every other registered tool is served |
| ToolRegistry.MutatorsAlone | crates/clawseed-agent/src/tool_registry.rs:57-238 | A mutator that runs alone, change and invalidation, leaves exactly the changed map or filter and no cache |
| ToolRegistry.DefaultToolRegistry.ToolNames | crates/clawseed-agent/src/tool_registry.rs:276-282 | The names listed are exactly those that `get_tool` serves |
| ToolRegistry.DefaultToolRegistry.RebuildSpecs | crates/clawseed-agent/src/tool_registry.rs:187-199 | The loop and the sort give the allowed specs by name |
| ToolRegistry.DefaultToolRegistry.ToolSpecs | crates/clawseed-agent/src/tool_registry.rs:256-270 | Cached or rebuilt, the result is the recomputation, and it is cached |
| AskUser.NextKeepsInv | crates/clawseed-gateway/src/ask_user.rs:45-141 | Every step keeps: an entry belongs to a call that received nothing, a waiting call with an empty channel has its entry, answers passed the validator or are cancellation or expiry |
| AskUser.WaitersCanBeAnswered | crates/clawseed-gateway/src/ask_user.rs:101-141 | No lost wake-up: a waiting call has an answer to take, or a valid submit under its identity succeeds and is what it then returns |
| AskUser.NoAskIsStuck | crates/clawseed-gateway/src/ask_user.rs:120-140 | A waiting call has something to take or can run into its timer, and an expired one can take its entry out, whatever became of it |
| AskUser.AtMostOneSuccess | crates/clawseed-gateway/src/ask_user.rs:45-69 | Over any run one call meets at most one successful submit |
| AskUser.SuccessDecidesTheAnswer | crates/clawseed-gateway/src/ask_user.rs:120-140 | After a successful submit the call returns that response if its timer had not fired, and expiry otherwise |
| AskUser.OpenCallCanLose | crates/clawseed-gateway/src/ask_user.rs:120-140 | Every call that still waits can lose an accepted answer: timer, accepted submit, removal, expiry |
| AskUser.AcceptedAnswerIsLost | crates/clawseed-gateway/src/ask_user.rs:101-140 | A run from the start that does so, for every request and every valid response |
| AskUser.SubmitSucceedsIff | crates/clawseed-gateway/src/ask_user.rs:45-69 | Success exactly when an open call has all four identifiers and the response is valid; any failure changes nothing |
| AskUser.OutcomeIs | crates/clawseed-gateway/src/ask_user.rs:45-69 | Which refusal is reported: an unknown identifier, then any other identifier that differs, then a response the validator refuses |
| AskUser.AskReturns | crates/clawseed-gateway/src/ask_user.rs:120-140 | The value received; a cancellation if the sender was dropped; an expiry after the timer, with the entry gone |
| AskUser.SecondAskReplaces | crates/clawseed-gateway/src/ask_user.rs:101-112 | A second call under the same identifier takes the entry over and closes the channel of the first |
| AskUser.DroppedAskStaysListed | crates/clawseed-gateway/src/ask_user.rs:101-140 | A future dropped while it waits leaves its entry, and an answer to it is accepted and read by nobody |
| AskUser.DroppedAskNeverReturns | crates/clawseed-gateway/src/ask_user.rs:120-140 | However the run goes on |
| AskUser.EntryGoesIff | crates/clawseed-gateway/src/ask_user.rs:45-112 | Exactly which steps take an entry out: an accepted answer, the end of its turn, and a call or a timer under the same identifier |
| AskUser.CancelTurnIsExact | crates/clawseed-gateway/src/ask_user.rs:71-88 | Every open call of the turn is cancelled; no call of another turn or session is touched |
| AskUser.AskUserManager.PendingForSession | crates/clawseed-gateway/src/ask_user.rs:35-43 | Exactly the open calls of the session |
| AskUser.AskUserManager.BeginAsk | crates/clawseed-gateway/src/ask_user.rs:101-112 | A new waiting call with its entry; a replaced entry closes the channel of its call |
| AskUser.AskUserManager.SubmitAnswer | crates/clawseed-gateway/src/ask_user.rs:45-69 | The three refusals in order, or the value sent and the entry gone |
| AskUser.AskUserManager.CancelTurnOf | crates/clawseed-gateway/src/ask_user.rs:71-88 | The loop over the collected ids cancels exactly the calls of the turn |
| AskUser.AskUserManager.TakeAnswer | crates/clawseed-gateway/src/ask_user.rs:127-131 | The value received, or cancellation when the sender was dropped |
| AskUser.AskUserManager.FireTimer | crates/clawseed-gateway/src/ask_user.rs:120-124 | The timer ends the wait; the entry is still there |
| AskUser.AskUserManager.ExpireAsk | crates/clawseed-gateway/src/ask_user.rs:132-138 | The entry of the id is removed and the call reports expiry |
| RateLimit.SlidingWindowRateLimiter.PruneStale | crates/clawseed-gateway/src/ratelimit.rs:38-43 | A key stays exactly when it has a request after the cutoff, and exactly those of its requests stay |
| RateLimit.SlidingWindowRateLimiter.MakeRoom | crates/clawseed-gateway/src/ratelimit.rs:56-78 | Sweep, cleanup under pressure, and the eviction of a key with the oldest last request exactly when the map is still full |
| RateLimit.SlidingWindowRateLimiter.Allow | crates/clawseed-gateway/src/ratelimit.rs:45-88 | One call decides and updates as specified; a zero limit allows everything and changes nothing |
| RateLimit.AllowedIff | crates/clawseed-gateway/src/ratelimit.rs:80-87 | A request is allowed exactly when fewer than the limit were accepted in the window that ends with it, counted one by one |
| RateLimit.EvictedIff | crates/clawseed-gateway/src/ratelimit.rs:62-78 | A key goes exactly when a new key meets a map that is full and still full of live keys; it is one whose last recent request is the oldest |
| RateLimit.SweepsArePaced | crates/clawseed-gateway/src/ratelimit.rs:56-66 | A sweep is due 300 s after the last one, and every sweep and cleanup starts that time again |
| RateLimit.StepRefines | crates/clawseed-gateway/src/ratelimit.rs:45-88 | One call decides like the limiter with full history and keeps the agreement with it |
| RateLimit.SweepingIsInvisible | crates/clawseed-gateway/src/ratelimit.rs:45-88 | Over any run without capacity eviction every decision equals that of a limiter that keeps full history |
| RateLimit.WindowIsRespected | crates/clawseed-gateway/src/ratelimit.rs:45-88 | Over any run, what was allowed for a key since its last eviction never exceeds the limit in a half-open interval of one window |
| RateLimit.AdmissibleBoundsWindow | crates/clawseed-gateway/src/ratelimit.rs:80-87 | Refusing when the last window is full bounds every window, not only those ending at a request |
| RateLimit.CapacityOverRuns | crates/clawseed-gateway/src/ratelimit.rs:62-78 | The map never exceeds `max_keys` |
| RateLimit.EarlyClockAcceptsEverything | crates/clawseed-gateway/src/ratelimit.rs:51-51 | While the window does not fit before the clock reading, a call of any key is accepted, whether or not a sweep or an eviction is due |
| RateLimit.EarlyRunIsUnlimited | crates/clawseed-gateway/src/ratelimit.rs:45-88 | Over any run of such calls, of whatever keys, nothing is refused |
| RateLimit.EarlyBurstExceedsLimit | crates/clawseed-gateway/src/ratelimit.rs:51-87 | Witness for every limit: a run from the empty limiter in which as many calls of one key as the window has nanoseconds are accepted within one window |
| AuthLimit.AuthRateLimiter.CheckRateLimit | crates/clawseed-gateway/src/auth_rate_limit.rs:67-103 | The verdict and the new state of one check |
| AuthLimit.LockedOutUntil | crates/clawseed-gateway/src/auth_rate_limit.rs:77-87 | A lock refuses for 300 s, and the wait it reports is the rest of that in whole seconds, no second too long |
| AuthLimit.TenthAttemptLocks | crates/clawseed-gateway/src/auth_rate_limit.rs:89-101 | Without a lock, ten attempts less than 60 s old lock the key for 300 s from now, and fewer are allowed |
| AuthLimit.ExpiredLockIsLifted | crates/clawseed-gateway/src/auth_rate_limit.rs:77-88 | A lock that has run out goes together with the attempts that caused it |
| AuthLimit.SweepIs | crates/clawseed-gateway/src/auth_rate_limit.rs:131-148 | What goes in a sweep and what stays, and that one is due 300 s after the last |
| AuthLimit.AuthRateLimiter.RecordAttempt | crates/clawseed-gateway/src/auth_rate_limit.rs:106-114 | The attempt is appended to those of its key and nothing else changes; loopback is not recorded |
| AuthLimit.AuthRateLimiter.IsLockedOut | crates/clawseed-gateway/src/auth_rate_limit.rs:117-128 | Locked exactly when a check at that moment is refused whatever attempts are on record, and then the refusal names the rest of the lockout, due sweep or not; never for loopback |
| AuthLimit.AuthRateLimiter.MaybeSweep | crates/clawseed-gateway/src/auth_rate_limit.rs:131-148 | When due, expired locks, stale attempts and empty keys go; otherwise nothing changes |
| AuthLimit.SweepChangesNothing | crates/clawseed-gateway/src/auth_rate_limit.rs:67-148 | If each attempt directly follows a successful check of its key, every verdict is that of a limiter that never sweeps or prunes |
| AuthLimit.AttemptsAreBounded | crates/clawseed-gateway/src/auth_rate_limit.rs:89-101 | No window of 60 s holds more than `MAX_ATTEMPTS` attempts of a key |
| AuthLimit.WaitingHelps | crates/clawseed-gateway/src/auth_rate_limit.rs:77-98 | From any state in which a disciplined run can be, after waiting the returned seconds the next check of the key succeeds, whatever other keys do |
| AuthLimit.RunSimulates | crates/clawseed-gateway/src/auth_rate_limit.rs:67-148 | Every disciplined run from the empty limiter ends in such a state |
| AuthLimit.WaitingHelpsAfterAnyRun | crates/clawseed-gateway/src/auth_rate_limit.rs:77-98 | So the promise of the returned seconds holds after every disciplined run |
| AuthLimit.LockRefuses | crates/clawseed-gateway/src/auth_rate_limit.rs:77-87 | A key is locked exactly when every check is refused whatever attempts are on record, and the wait is then the rest of the lockout |
| AuthLimit.SweepShowsIff | crates/clawseed-gateway/src/auth_rate_limit.rs:67-148 | For any state: a due sweep changes the verdict of a check exactly when the key's lock has run out and its recorded attempts fill the window |
| AuthLimit.SweepShowsWithoutDiscipline | crates/clawseed-gateway/src/auth_rate_limit.rs:67-148 | Two runs from the empty limiter that differ in one check by another client and end with different verdicts for a key whose attempts were recorded during its lock |
| Idempotency.IdempotencyStore.RecordIfNew | crates/clawseed-gateway/src/ratelimit.rs:131-153 | New exactly when the key is not stored or was stored `ttl` ago; a known key keeps its time; other keys lose their entry only by age, or as an oldest one of a full store |
| Idempotency.AcceptedKeyIsRefused | crates/clawseed-gateway/src/ratelimit.rs:131-153 | Over any run under a strictly increasing clock, a key accepted at `t` is refused until `t + ttl` unless `max_keys` other keys were recorded since; the store never holds more than `max_keys` |
| Idempotency.ExpiredKeyIsNew | crates/clawseed-gateway/src/ratelimit.rs:135-135 | Once every acceptance of a key is `ttl` old, the key is new again |
| Idempotency.StepIsSound | crates/clawseed-gateway/src/ratelimit.rs:131-153 | One call keeps what the store owes to the log of all acceptances |
| SessionStore.OperationsAreEdits | crates/clawseed-gateway/src/session_sqlite.rs:368-584 | On every table each operation is exactly an edit of its session's transcript, and no other transcript changes |
| SessionStore.AppendedAtEnd | crates/clawseed-gateway/src/session_sqlite.rs:368-381 | An append adds the message at the end of the transcript |
| SessionStore.UpdatedAt | crates/clawseed-gateway/src/session_sqlite.rs:383-397 | An update replaces the last message of its role, wherever it stands, and changes nothing if there is none |
| SessionStore.UserUpdatedAt | crates/clawseed-gateway/src/session_sqlite.rs:399-408 | The same for the last user message |
| SessionStore.TurnRemovedAfter | crates/clawseed-gateway/src/session_sqlite.rs:560-584 | A removal cuts the transcript behind its last user message |
| SessionStore.ApplyKeepsWellFormed | crates/clawseed-gateway/src/session_sqlite.rs:368-584 | Ids stay increasing and below the next id |
| SessionStore.SqliteSessionStore.AppendMessage | crates/clawseed-gateway/src/session_sqlite.rs:368-381 | One row is added at the end |
| SessionStore.SqliteSessionStore.UpdateLastMessage | crates/clawseed-gateway/src/session_sqlite.rs:383-397 | The content of the row with the greatest id of that session and role is replaced, if there is one |
| SessionStore.SqliteSessionStore.UpdateLastUserMessage | crates/clawseed-gateway/src/session_sqlite.rs:399-408 | The same for the last user row |
| SessionStore.SqliteSessionStore.RemoveLastAssistantTurn | crates/clawseed-gateway/src/session_sqlite.rs:560-584 | The session's rows after its last user row go, and that user's content is returned; without one nothing changes |
| Streaming.ProcessChatMessage | crates/clawseed-gateway/src/ws.rs:1189-1461 | The loop over the events, with its 500 ms rule and its final save, leaves the specified table |
| Streaming.EveryMomentIsAPrefix | crates/clawseed-gateway/src/ws.rs:1205-1230 | At every moment of a turn the earlier rows are untouched and at most one row, a prefix of the text so far, was added; there is one exactly when some chunk came 500 ms or more after the start |
| Streaming.SavedIff | crates/clawseed-gateway/src/ws.rs:1213-1230 | A partial row exists exactly when there was one before or some chunk comes a save interval or more after the last save |
| Streaming.PartialSavesAreInvisibleIff | crates/clawseed-gateway/src/ws.rs:1189-1461 | For every outcome, session and interleaving with other sessions: the transcript is the one that a single append at the end leaves, except exactly for the session of a failed turn in which a partial save fell due |
| Streaming.TurnAddsOneRow | crates/clawseed-gateway/src/ws.rs:1374-1461 | The turn adds one assistant row with the final or interrupted-marked text and touches at most the last user row; a failed turn adds its last partial save, if it made one |
| Streaming.InterruptedTurnKeepsText | crates/clawseed-gateway/src/ws.rs:1374-1390 | After an interruption the transcript ends with the streamed text, two line breaks and "[interrupted by user]", or with the mark alone if nothing was streamed |
| Streaming.FinishedTurnKeepsText | crates/clawseed-gateway/src/ws.rs:1411-1461 | After a finished turn it ends with the streamed text, or else the response; an enriched user message replaces the last one before it |
| Streaming.FailedTurnKeepsPartialSave | crates/clawseed-gateway/src/ws.rs:1567-1590 | After a failed turn it ends with the last partial save, if there was one, and is otherwise what it was |
| Streaming.SavesArePaced | crates/clawseed-gateway/src/ws.rs:1205-1230 | A chunk 500 ms or more after the last save writes the whole text so far; any other chunk writes nothing |
| Streaming.FailedTurnLeavesRow | crates/clawseed-gateway/src/ws.rs:1567-1590 | Witness: one chunk after the save interval and then a provider error leave an unmarked assistant row |
| Streaming.RemovalUndoesTheTurn | crates/clawseed-gateway/src/session_sqlite.rs:560-584 | Regenerating right after a turn, failed or not, takes exactly that turn back |
| Streaming.SecondWriterIsOverwritten | crates/clawseed-gateway/src/ws.rs:1407-1434 | Wherever in a turn another writer of the session appends a reply: before the first partial save it stays and the turn adds its row after it; after one, the later saves and the final row go over it and the partial row stays; a failed turn leaves it only if no later chunk makes a save due |
| Streaming.ReplySurvivesIff | crates/clawseed-gateway/src/ws.rs:1407-1461 | After the turn the row of the reply still holds it exactly when no partial row was there, nothing was written over it afterwards, or the same text was |
| Streaming.FailedTurnOverwritesReply | crates/clawseed-gateway/src/ws.rs:1205-1230 | Witness: a partial save, the reply, one more due chunk and a provider error leave the longer partial text in place of the reply |

## Left out

- Weakening: `$anchor`, references by URI and pointer steps into arrays are read by a parameter that may accept or reject anything; a pointer that crosses into an embedded resource, which section 9.2.1 of JSON Schema Core leaves open, is followed token by token.
- SchemaWeakening.CleanSchemaWeakens: needs faithful references, variants that lose nothing under an unsimplified `oneOf`, `enum` values and other foreign keywords that a pass leaves alone, and no kept `unevaluatedProperties`, because the code breaks the property without each of these (the witnesses above); `unevaluatedItems`, `$dynamicRef` and `$recursiveRef` read their surroundings too and are excluded with it; `not`, `if`, `contains` and the like are read by a parameter, so a value under them that a pass changes is excluded.
- SchemaExactness.CleanSchemaIsExact: excludes null on purpose (`NullIsStripped`), flattening a `oneOf` between several literals, and schemas that lose a keyword or cut a cycle, which only weaken.
- SchemaUnevaluated.UnevaluatedDropIff: is about schema objects whose evaluated properties come from `properties`, `patternProperties` and `additionalProperties`, not from subschemas in place.
- SchemaFixedPoints.CleanTwiceIff: needs, under OpenAI only, that no `$ref` member of the output is an object, because the equivalence fails without it (`LoopedReferenceIsFixed`); `SchemaIdempotence.CleanTwiceIsCleanOnce` has no such hypothesis.
- Canonical.CanonicalDecidesEquality: needs distinct keys per object, which every serde_json object has.
- AuthLimit.SweepChangesNothing: needs each attempt to directly follow a successful check of its key, and clock readings that do not decrease in lock order.
- RateLimit.WindowIsRespected: needs clock readings that do not decrease in lock order and at least one window old; time is read before the lock is taken.
- Streaming.PartialSavesAreInvisibleIff: needs a single writer of the session, since the first-message path takes no session guard (`ReplySurvivesIff` says what a second one costs), and writes that succeed.
- SessionQueue.OneGuardPerSession: needs evictions that mark no slot between a task's lookup and its increment, because of the race above; `SessionQueueLimits.CheckIsSafeIff` shows that this is exactly what is needed.
- `validate` of a schema, which only inspects two keys.
- The regex-driven call formats, markdown fences, MiniMax, Perl-style and GLM heuristics, tool-name aliases and XML bodies of parser.rs: format trivia that depend on the regex crate.
- The `i32` depth counter of `find_json_end`, which overflows only beyond two thousand million open braces; depth is unbounded here.
- serde_json's own parsing and printing, except the grammar of RFC 8259 objects that `find_json_end` scans.
- `register_arc`, `register_all_arc`, `get_tool_unfiltered`, `get_entry` and `all_tool_names`: the same shape as the members modelled, without filters.
- Tools whose `spec` reports another name than `name`.
- The loopback test of the auth limiter and the keys derived from request headers: a parse and an early return.
- SQL text, migrations, attachments, presentations, metrics, compaction and titles of a session: columns the transcript does not read.
- WebSocket and HTTP transport, broadcast events, provider calls, configuration, prompts, approval, hooks and history truncation: plumbing or easy case splits.
- Scores, weights and costs in floating point.
