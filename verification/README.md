# A verified model of the MNDE decision core

MNDE decides whether a GPU workload may run. A request arrives as JSON text; it passes a strict parser and preflight,
then the Orbit, ARM and RAM0NA layers, and leaves as a signed receipt that anyone can replay. These Dafny files model
that path, the key registry that says which key signed a receipt, and the small codecs around it, and prove what each of
them is for. Functions specify; classes and methods with loops follow the code that changes state step by step, and are
proved to compute those functions; lemmas say what the functions mean.

`dafny verify dfyconfig.toml` checks everything.

## What is modelled

**Text and JSON.** `Units` has UTF-16 text, `Bytes` hexadecimal digits, UTF-8 and lone surrogates, `Sequences` distinctness,
flattening and permutations, `JsonValues` values whose objects are sequences of entries, with minus zero kept apart.
`Grammar` is an independent reference: concrete syntax trees of RFC 8259 (sections 2 to 7) with the texts they spell and
the values they mean. `StrictParser` is the index-moving parser, `ParserLanguage` proves that it accepts exactly the
texts of the grammar, and `ParseFailures` which of its three reasons every other text gets, by the unfinished document it
starts with. `Canonical` is the key-sorting printer (in the style of sections 3.2.2 and 3.2.3 of RFC 8785) with the round
trip and the proof that canonical text is a complete invariant of a value up to key order; `CanonicalForm` describes that
text without the printer. `BrowserParser` is the second parser of `main.js`, `BrowserFailures` its reasons, and `Reorder`
the key-shuffling harness. `Vocabulary` says characters, limits and key enumeration in the words of the standards.

**Numbers.** `Doubles` describes rounding to the nearest double over the reals and proves that checked products are exact
or null; `Rounding` shows that rounding to nearest exists. `Money` is the text of cents and back.

**The decision pipeline.** `Fields` and `Contracts` have the records, their JSON forms, the reason codes and the `Platform`.
`DeepScan`, `Preflight` and `PreflightReplay` are the parse boundary, `KeyOrder` and `RefusalOrder` say how far its refusals
depend on key order, `Requests` and `Acceptance` which texts and typed requests it accepts, `PreflightReasons` which reason
every other one gets. `Orbit` has the intent checks, `Stores` the two mutable stores, and `Pipeline` ARM, RAM0NA, receipts
and replay as a class over the stores. `Decisions` says what a receipt means, `Receipts` and `ReceiptLayout` what stands on
it and what the signed and hashed texts fix, `Signatures` which receipts verify and what tampering does, `Replay` when a
receipt replays, and `Machine` treats interleaved requests as a state machine with the events reset, define, arm and
finish, in any order and number. `Approval` has a request that is approved on every valid platform.

**The signer registry.** `Registry` is the one-pass validator and the declarative condition it decides; `RegistryErrors`
says each field of an entry and which error comes first; `KeyResolution` has order-freeness, resolution of receipts, active
signers and rotation.

**Codecs and logs.** `DecisionCore` is the binary encoding with a decoder and `CoreLayout` its byte layout, `Percent` the
percent and form coding and the OIDC callback, `PercentExact` what they do with any text, `BoundedLog` the rotated log.

## What turned out to hold only under a condition

- The two JSON parsers return the same value exactly when no decoded key is `__proto__` (`BrowserParser.SameValueIffNoProto`);
  the shuffling harness keeps canonical text under the same condition (`Reorder.ReorderedPrintsSame`), and there is such a
  text (`Reorder.ProtoTextSplitsParsers`, `Reorder.ProtoLostInShuffle`).
- The two parsers give a refused text the same reason, except that a number in range before a point or an exponent without
  digits is a syntax error to the second (`BrowserFailures.BrowserReasonExact`).
- A receipt replays exactly when the stores had no part in its ARM trace (`Replay.ReplayExact`): a receipt whose budget
  token was reserved, or whose execution id was already claimed, is reported as a mismatch, because replay starts from
  empty stores (`Approval.RepeatedRequestMismatches`).
- Authority is one-shot between resets only (`Machine.OneShot`, `Approval.TwoApprovalsAcrossReset`).
- Acceptance by preflight never depends on key order; a refusal does exactly when the first check that fails is a key check
  on a mixed object, one with reserved and unreserved keys that are not allowed, none of them an array index
  (`RefusalOrder.RefusalOrderExact`, with two such texts in `RefusalOrder.RefusalDependsOnOrder`).
- The decision ignores `hold_state`, `already_consumed` and the manual-approval threshold
  (`Decisions.ApprovalFieldsIgnored`), although `audit/run_proof_expansion.ts:405-423` expects a refusal with
  ERR_MANUAL_APPROVAL_REQUIRED. No receipt ever carries that code (`Decisions.NeverManualApproval`), and a pending request
  above its threshold is approved (`Approval.SomeRequestIsApproved`); the model follows the code.
- Two identities can share a key hash in a valid registry exactly when one signer id continues the other after a slash,
  because the identity string joins its parts with slashes (`KeyResolution.ShareHashExact`).
- A receipt is ambiguous exactly when two tenant entries both hold the signer it names, which takes a repeated tenant id
  (`KeyResolution.ResolveExact`, `KeyResolution.NeverAmbiguous`, `KeyResolution.RepeatedTenantIsAmbiguous`).
- The receipt built for an active signer resolves back exactly when that signer's hash and algorithm are not empty
  strings, which validation lets through (`KeyResolution.ActiveReceiptResolves`, `KeyResolution.ActiveReceiptCanFail`).
- Percent coding gives a string back exactly when it is ASCII; a callback with any other state is refused as a mismatch
  (`Percent.DecodeEncode`, `Percent.CallbackRoundTrip`).
- The binary encoding folds hash case, lone surrogates and minus zero, and nothing else (`DecisionCore.RoundTripExact`,
  `DecisionCore.EncodingIsInjective`).

## What is taken as given

The `Platform` record holds library behaviour as arbitrary functions: SHA-256, HMAC, Ed25519 signing and verification,
key fingerprints, rounding, and the text predicates of `orbit/engine.ts` after Unicode normalization. `Platform.Valid`
asks for no more than rounding to nearest, a receipt key that can be read, and that a signature made with it verifies
(signing is deterministic: section 5.1.6 of RFC 8032). That tampering is caught also takes `Signatures.Unforgeable`: a
signature verifies for the text it was made of only, and HMACs do not collide; `Signatures.ReplacedExact` says it
without. Such a platform exists (`Rounding.ValidPlatformExists`). No injectivity of `sha256` is assumed. The registry
takes its hash as a parameter in the same way.

## Model

| member | source | states |
|---|---|---|
| `StrictParser.ParserState.Advance` | shared/json.ts:35-35 | moving the index by one drops exactly one code unit of what is left to read |
| `StrictParser.ParserState.SkipWhitespace` | shared/json.ts:14-23 | the loop leaves what is left after the longest run of the four white-space characters |
| `StrictParser.ParserState.ScanPiece` | shared/json.ts:48-73 | one turn of the string scan consumes exactly one string element (a plain character, a two-character escape or a \u escape), and refuses what is none |
| `StrictParser.ParserState.ScanBody` | shared/json.ts:35-76 | the scan stops after the first quotation mark that ends the string, or fails |
| `StrictParser.ParserState.ScanString` | shared/json.ts:29-77 | result and new index are those of the specification parser; the branch where the inner JSON.parse throws is never taken |
| `StrictParser.ParserState.ScanNumber` | shared/json.ts:79-99 | result and new index of a number, with the two refusals for fractions or exponents and for unsafe integers |
| `StrictParser.ParserState.ScanArray` | shared/json.ts:101-131 | the loop that pushes elements refines the recursive specification of arrays |
| `StrictParser.ParserState.ScanMember` | shared/json.ts:144-170 | one member: the key, the refusal of a repeated decoded key, the colon and the value |
| `StrictParser.ParserState.ScanObject` | shared/json.ts:133-184 | the loop with its set of seen keys refines the recursive specification of objects |
| `StrictParser.ParserState.ScanValue` | shared/json.ts:186-215 | dispatch on the first character refines the specification; the recursion terminates because each call leaves less to read |
| `StrictParser.ParseStrictJson` | shared/json.ts:217-228 | the index-moving parser returns exactly what the specification parser says of the whole text |
| `StrictParser.DigitRun` | shared/json.ts:81-81 | the digits of the match are maximal: what follows them is no digit |
| `ParserLanguage.ScannedTokenDecodes` | shared/json.ts:39-45 | every token the string scan accepts is accepted by JSON.parse |
| `ParserLanguage.StringComplete` | shared/json.ts:29-77 | every string of RFC 8259 section 7 is read as the units it denotes, whatever follows |
| `ParserLanguage.StringSound` | shared/json.ts:29-77 | whatever is read as a string is such a string, with that meaning |
| `ParserLanguage.NumberComplete` | shared/json.ts:79-99 | every integer text within the safe range is read as its value, if no fraction or exponent follows; minus zero is kept apart |
| `ParserLanguage.NumberSound` | shared/json.ts:79-99 | whatever is read as a number is such a text, with that value |
| `ParserLanguage.ArrayComplete` | shared/json.ts:101-131 | every array text is read element by element with its meaning |
| `ParserLanguage.ObjectComplete` | shared/json.ts:133-184 | every object text with distinct decoded keys is read member by member with its meaning |
| `ParserLanguage.ValueComplete` | shared/json.ts:186-215 | every text the grammar spells, followed by anything that does not continue a number, is read as its meaning with that rest left over |
| `ParserLanguage.ArraySound` | shared/json.ts:101-131 | whatever is read as an array is spelled by an array tree with that meaning |
| `ParserLanguage.ObjectSound` | shared/json.ts:133-184 | whatever is read as an object is spelled by an object tree with distinct decoded keys and that meaning |
| `ParserLanguage.ValueSound` | shared/json.ts:186-215 | whatever is read as a value is spelled by a valid syntax tree with that meaning |
| `ParserLanguage.ExactLanguage` | shared/json.ts:217-228 | for every text and value: parsing succeeds with the value if and only if the text is a JSON text (RFC 8259, sections 2 to 7, safe plain integers, distinct decoded keys) that means it |
| `ParserLanguage.DocumentParses` | shared/json.ts:217-228 | every document of the grammar is accepted with its meaning |
| `ParserLanguage.Unambiguous` | shared/json.ts:217-228 | two derivations of one text have the same meaning |
| `ParserLanguage.ParsedIsWellFormed` | shared/json.ts:149-152 | a parsed value has no repeated key in any object |
| `ParseFailures.DuplicateKeysExact` | shared/json.ts:149-152 | for every text: it is refused for a duplicate key if and only if it starts with a grammatical unfinished document whose next member key, decoded, is already a key of that object |
| `ParseFailures.InvalidNumberExact` | shared/json.ts:89-97 | for every text: it is refused for a number if and only if it starts with an unfinished document, white space and a whole integer token that is out of range or goes on with a point or an exponent |
| `ParseFailures.InvalidSyntaxExact` | shared/json.ts:217-228 | every other text that is no document, and no further one, is refused as a syntax error |
| `ParseFailures.BoundaryReasons` | preflight/engine.ts:180-191 | for every text that is no document preflight gives the hash of the text itself and the one of its three codes that the grammar determines; the three cases exclude each other |
| `Vocabulary.CharacterClasses` | shared/json.ts:14-23 | white space, digits and escapes are the characters RFC 8259 names, each escape with its meaning |
| `Canonical.SortSorts` | shared/json.ts:257-257 | sorting distinct keys gives the same keys with every two neighbours in code-unit order: where they first differ the earlier one has the smaller unit, or has ended |
| `Canonical.SortedUnique` | shared/json.ts:257-257 | a set of keys has only one strictly increasing list |
| `Canonical.StringifySpells` | shared/json.ts:245-245 | the printed form of any UTF-16 text, lone surrogates included, is a JSON string whose pieces mean that text |
| `Canonical.TreeSpells` | shared/json.ts:240-262 | canonical text is the text of a syntax tree with sorted members and no white space |
| `Canonical.CanonicalTextParses` | shared/json.ts:186-262 | canonical text followed by any suffix that does not continue a number is read back as the value in normal form, with the suffix left over |
| `Canonical.RoundTrip` | shared/json.ts:217-262 | parsing the canonical text of any well-formed value succeeds and gives the value up to key order and the sign of zero |
| `Canonical.NormGet` | shared/json.ts:257-258 | property access gives the same in a value and in its normal form, up to the same normal form |
| `Canonical.CompleteInvariant` | shared/json.ts:240-262 | two values print the same if and only if they are equal up to key order and the sign of zero |
| `Canonical.NormIdempotent` | shared/json.ts:240-262 | a value and its normal form print the same text, and normalizing twice is normalizing once |
| `Units.LessExact` | shared/json.ts:257-257 | the order of keys: one text is less than another if and only if where they first differ it has the smaller code unit, or has ended |
| `CanonicalForm.PrintedKeysAscend` | shared/json.ts:257-259 | in every derivation of canonical text the keys of every object, at every depth and in the order they are written, ascend from neighbour to neighbour |
| `CanonicalForm.PiecesExact` | shared/json.ts:245-245 | every code unit of a printed string has the one prescribed spelling: itself, a two-character escape, or four lower-case digits for other controls and lone surrogates |
| `CanonicalForm.CanonicalTextExact` | shared/json.ts:240-262 | for every text and value: it is the canonical text if and only if it has no white space, ascending keys, prescribed string spellings and no minus zero, and means the value up to key order and the sign of zero |
| `BrowserParser.BrowserState.ScanPiece` | main.js:251-266 | one turn of the browser scan agrees with the element lengths of the other parser, also where it steps past the end |
| `BrowserParser.BrowserState.ScanString` | main.js:241-269 | the browser string scan refines the same string specification |
| `BrowserParser.BrowserState.ScanNumber` | main.js:223-232 | the longer match followed by the integer test refines the browser number specification |
| `BrowserParser.BrowserState.ScanArray` | main.js:271-291 | the array loop refines the browser specification |
| `BrowserParser.BrowserState.ScanMember` | main.js:302-309 | key, duplicate test, colon and value of one member |
| `BrowserParser.BrowserState.ScanObject` | main.js:293-320 | the object loop, where plain assignment loses a `__proto__` property, refines the browser specification |
| `BrowserParser.BrowserState.ScanValue` | main.js:322-347 | dispatch on the first character refines the browser specification |
| `BrowserParser.StrictParseJson` | main.js:234-353 | the second parser as written returns what its specification says |
| `BrowserParser.ValuesAgree` | main.js:322-347 | at every position the two parsers read the same value or fail together |
| `BrowserParser.ParsersAgree` | main.js:223-353 | both parsers accept the same texts, and the second returns the value of the first without `__proto__` properties |
| `BrowserParser.ReasonsAgree` | main.js:223-353 | on every refused text the two parsers give the same reason, except that the second may report a syntax error for a number; repeated keys are reported by both or neither |
| `BrowserFailures.BrowserReasonExact` | main.js:223-353 | the second parser meets the same obstacle as the first, and reports it alike unless the number is in range and no digit follows its point or exponent, which is a syntax error |
| `BrowserParser.StripUnchanged` | main.js:309-309 | stripping `__proto__` changes a value exactly when some object in it has that key |
| `BrowserParser.SameValueIffNoProto` | main.js:223-353 | on an accepted text the two parsers return the same value if and only if no decoded key at any depth is `__proto__` |
| `Reorder.Rng.Int` | audit/harness.ts:48-58 | one draw advances the state once and stays within its bounds |
| `Reorder.GeneratorExact` | audit/harness.ts:48-51 | the next state is the affine map with this increment and multiplier on 32-bit integers |
| `Reorder.Rng.Shuffle` | audit/harness.ts:62-69 | the in-place loop computes exactly the Fisher-Yates shuffle the generator state determines, final state included, and that is a permutation |
| `Reorder.ShuffleFrom` | audit/harness.ts:62-69 | every shuffle keeps the multiset of items |
| `Reorder.ReorderJson` | audit/harness.ts:114-128 | for every generator state the result is well formed and equal up to order to the value without `__proto__` |
| `Reorder.ReorderedPrintsSame` | audit/harness.ts:114-128 | a reordered value prints as the original if and only if the original mentions no `__proto__` key |
| `Reorder.ProtoTextSplitsParsers` | main.js:309-309 | a text with a `__proto__` key that both parsers accept with different values |
| `Reorder.ProtoLostInShuffle` | audit/harness.ts:120-124 | whatever the generator draws, shuffling that value changes its canonical text |
| `Doubles.RoundedInteger` | arm/engine.ts:3-9 | under any rounding to nearest an integer up to 2^53 is kept, and a rounded integer is safe exactly when the integer is |
| `Doubles.MultiplyCheckedExact` | arm/engine.ts:3-9 | the checked product is the exact product when that is safe, and null otherwise |
| `Doubles.ProductFromExact` | arm/engine.ts:11-27 | with positive factors a chain of checked products is the exact product when that is safe and null otherwise: early refusal and rounding do not show |
| `Doubles.ProductOrderFree` | arm/engine.ts:11-27 | the chain gives the same result for every order of its factors |
| `Doubles.ExactCost` | arm/engine.ts:11-27 | the projected cost is the exact five-factor product when at most 2^53-1, else null, also when max_retries + 1 reaches 2^53 |
| `Doubles.BudgetComparisonExact` | shared/state.ts:78-81 | comparing a possibly rounded sum with a safe maximum decides the exact comparison, and an accepted sum is exact |
| `Rounding.NearestExists` | arm/engine.ts:4-4 | every real number has a nearest double, so rounding to nearest exists |
| `Rounding.ValidPlatformExists` | ram0na/engine.ts:200-224 | a valid platform exists, also one whose signatures and HMACs are good for one text only: what is asked of the library behaviour can be met |
| `Money.QuotientFloor` | ram0na/engine.ts:41-41 | the rounded quotient of any safe amount by 100 has the floor of the exact quotient |
| `Money.FormattedText` | ram0na/engine.ts:40-44 | the text is the whole dollars, a dot and two digits |
| `Money.UsdReads` | audit/hyper_targeted_10m.ts:348-351 | reading such a text gives dollars times 100 plus cents |
| `Money.UsdReadsDecimals` | audit/hyper_targeted_10m.ts:348-351 | dollars with any number of decimal digits, none included, read as cents; digits beyond the second are ignored |
| `Money.MoneyRoundTrip` | ram0na/engine.ts:40-44 | reading back the text of any amount from 0 to 2^53-1 gives the amount |
| `Contracts.CodeInjective` | shared/contracts.ts:3-36 | different reasons have different codes |
| `Contracts.ReceiptWellFormed` | ram0na/engine.ts:155-179 | every receipt is a JSON value without repeated keys |
| `Contracts.CanonicalTextFixesArmReason` | ram0na/engine.ts:226-235 | receipts with the same canonical text have the same reason in their ARM trace |
| `DeepScan.RejectReservedFieldsRecursive` | preflight/engine.ts:75-94 | the recursive loops with early return compute the scan |
| `DeepScan.ReservedScanExact` | preflight/engine.ts:75-94 | the scan refuses if and only if a reserved key occurs on some path, at any depth |
| `DeepScan.CountNestedActionMarkers` | orbit/engine.ts:96-117 | the accumulating loops compute the count |
| `DeepScan.MarkersExact` | orbit/engine.ts:96-117 | the count is zero if and only if no path leads to a marker string or to an action field other than one holding an empty array |
| `Preflight.RejectUnknownKeys` | preflight/engine.ts:62-73 | the loop over the keys, in enumeration order, reports the first key that is not allowed |
| `Preflight.KnownExact` | preflight/engine.ts:62-73 | whatever the enumeration order, an object passes exactly when all its keys are allowed |
| `Preflight.ValidateInteger` | preflight/engine.ts:96-120 | an accepted number is the integer that was there, is at least the minimum, and is not zero unless zero is allowed; minus zero is refused |
| `Preflight.FirstNumericReason` | preflight/engine.ts:371-382 | the loop reports an invalid number anywhere before an earlier type mismatch |
| `Preflight.NumericReasonExact` | preflight/engine.ts:356-382 | no reason is reported exactly when all thirteen checks pass |
| `PreflightReasons.NumericReasonIs` | preflight/engine.ts:371-382 | minus zero among the numbers is reported wherever it stands, and otherwise the first check that fails is |
| `Preflight.ToolCallsLoop` | preflight/engine.ts:130-164 | the loop with its set of seen tools and pushed calls refines the recursive specification |
| `Preflight.SignaturesLoop` | preflight/engine.ts:306-324 | the loop over signatures refines the recursive specification |
| `Preflight.RunStrictPreflight` | preflight/engine.ts:180-514 | the sequence of checks with early returns computes the envelope or the typed failure of the specification |
| `Preflight.AcceptedInRange` | preflight/engine.ts:343-382 | every accepted request has its numbers in the ranges the cost computation relies on |
| `PreflightReplay.NormTidier` | preflight/engine.ts:198-198 | the normal form of any value is tidier than it: same content, minus zero only turned to zero |
| `PreflightReplay.AcceptsTidier` | preflight/engine.ts:180-514 | whatever differs from an accepted request only in key order and signs of zero is accepted as the same request |
| `PreflightReplay.AcceptanceIsOrderFree` | preflight/engine.ts:62-73 | two texts whose values are equal up to key order are accepted or refused together, and accepted as the same request with the same hashes |
| `KeyOrder.KeyCheckOrderExact` | preflight/engine.ts:62-73 | the answer of one key check is the same for every order of the entries if and only if the object is not mixed: some key that is not allowed is an array index, or those keys are all reserved, or none is |
| `RefusalOrder.EveryValueHasText` | shared/json.ts:217-228 | every value without repeated keys, in every key order, is the value of some text |
| `RefusalOrder.CheckExplained` | preflight/engine.ts:180-514 | when preflight refuses by a key check, the reason is the one that check gives for its object |
| `RefusalOrder.ValidateTwins` | preflight/engine.ts:180-514 | requests equal up to key order fail first at the same key check on objects equal up to key order, or get the same verdict and reason |
| `RefusalOrder.RefusalOrderExact` | preflight/engine.ts:180-514 | for every refused object: all texts equal to it up to key order get the very same typed failure, both hashes included, if and only if the first failing check is not a key check on a mixed object |
| `RefusalOrder.NonObjectRefusal` | preflight/engine.ts:193-196 | a value that is no object is refused for the same reason however it is written, each time with the hash of the text itself |
| `RefusalOrder.RefusalDependsOnOrder` | preflight/engine.ts:62-73 | two texts with the keys timestamp and x in the two orders, equal up to key order, that preflight refuses for different reasons |
| `PreflightReplay.PreflightReplays` | preflight/engine.ts:198-199 | preflight accepts its own canonical output as the same request, with the same request and policy hashes |
| `Requests.ShapeRead` | preflight/engine.ts:200-275 | preflight takes the printed form of any typed request apart into the records it was put together from |
| `Requests.PrintedRequestReads` | preflight/engine.ts:200-514 | preflight reads every acceptable typed request off its JSON form, field by field |
| `Requests.ReadsBackExactly` | preflight/engine.ts:200-514 | a printed request is read back as itself if and only if it is acceptable: strings present, numbers in range, tools present and distinct, no reserved key in parameters, signatures present, trust absent or valid |
| `Requests.AcceptableIsAccepted` | preflight/engine.ts:180-514 | the canonical text of every acceptable request is accepted, with the hash of that text, as that request up to key order in parameters |
| `Requests.AcceptedIsAcceptable` | preflight/engine.ts:180-514 | every request that preflight accepts, from any text, is acceptable |
| `Acceptance.AcceptedIsPrinted` | preflight/engine.ts:180-514 | the canonical text of every accepted request is that of its typed form: nothing in an accepted text is left out of the typed request |
| `Acceptance.AcceptanceExact` | preflight/engine.ts:180-514 | for every text: it is accepted if and only if it is a document whose value is the JSON form of an acceptable request, with keys in any order |
| `Acceptance.PolicyTextIsDocument` | shared/policy-trust.ts:10-28 | the text behind the policy hash and the policy signature is the policy document as it was sent, keys sorted, without its trust block |
| `PreflightReasons.PreflightReasonExact` | preflight/engine.ts:180-514 | for every document: preflight refuses it with the reason of the first violated requirement in one fixed list said of the JSON value, and accepts it if and only if none is violated |
| `PreflightReasons.KeyRuleExact` | preflight/engine.ts:62-73 | a key check fails if and only if some key is not allowed, with the reserved-field reason exactly when the first such key in enumeration order is reserved |
| `PreflightReasons.TypedReasonsOnly` | preflight/engine.ts:180-514 | a document that is refused gets one of seven reasons |
| `Vocabulary.EnumerationOrder` | preflight/engine.ts:62-73 | every key is enumerated at its place: array indices before the others, and those in the order of insertion |
| `Vocabulary.ArrayIndexExact` | preflight/engine.ts:62-73 | an array index is the decimal spelling of a number below 2^32-1 |
| `Receipts.RefusalCarries` | preflight/engine.ts:36-56 | a refusal carries its request hash, its reason and the hash of a text that fixes both |
| `Orbit.IntentParameterObjects` | orbit/engine.ts:129-145 | the pushed list is the parameter objects in source order, and holds exactly those of the request itself, of one of its tool calls, or of a tool call of its intent |
| `Orbit.IntentParametersExact` | orbit/engine.ts:129-145 | a value is among the checked parameters if and only if it is those of the request, of one of its tool calls, or of a tool call of its intent |
| `Orbit.OrbitIsOrderFree` | orbit/engine.ts:151-198 | the whole trace, hash included, is the same for requests that differ only in key order inside parameters |
| `Orbit.ToolCallsEqualExact` | orbit/engine.ts:62-67 | the textual comparison holds if and only if the two lists agree call by call, up to key order in parameters |
| `Stores.InMemoryExecutionAuthorityStore.Begin` | shared/state.ts:31-42 | status and new map: an unseen id becomes inflight, a seen one is left alone |
| `Stores.InMemoryExecutionAuthorityStore.CommitAllow` | shared/state.ts:44-51 | the new map holds an allowed record with both hashes, all else unchanged |
| `Stores.InMemoryExecutionAuthorityStore.Reset` | shared/state.ts:57-59 | the map is empty |
| `Stores.InMemoryBudgetTokenStore.Define` | shared/state.ts:65-71 | the token gets the maximum and nothing consumed, also when it was defined before |
| `Stores.DefinedMaximum` | shared/state.ts:65-84 | a token just defined reserves any sequence of costs in full if and only if they add up to at most the given maximum; no other token changes |
| `Stores.UnknownReservesNothing` | shared/state.ts:73-77 | a token that was not defined reserves nothing, and no attempt changes anything |
| `Stores.InMemoryBudgetTokenStore.Reserve` | shared/state.ts:73-84 | reserved exactly when the token is known and the cost fits, and only then the consumption grows by the cost |
| `Stores.InMemoryBudgetTokenStore.Reset` | shared/state.ts:90-92 | the map is empty |
| `Pipeline.Runtime.RunStrictArm` | arm/engine.ts:38-183 | the trace and both new store contents are those of the specification, along every return |
| `Pipeline.Runtime.ExecuteDeterministicPipeline` | audit/node_runtime.ts:52-88 | the result and both new store contents of a whole run |
| `Pipeline.Runtime.ResetRuntimeState` | audit/node_runtime.ts:143-145 | both stores are empty |
| `Pipeline.Runtime.SeedBudgetToken` | audit/node_runtime.ts:147-149 | only the budget store changes, as define says |
| `Pipeline.Runtime.ReplayStored` | audit/node_runtime.ts:104-129 | one stored line gives the reason the specification says, from whatever state the stores were in |
| `Pipeline.Runtime.ReplayReceiptStore` | audit/node_runtime.ts:94-137 | the loop with its counter and its list of mismatches computes the report |
| `Pipeline.IssuedReceiptsVerify` | ram0na/engine.ts:182-224 | every receipt the pipeline signs passes signature verification, with or without a configured HMAC key |
| `Signatures.RejectedAtBoundary` | audit/node_runtime.ts:52-62 | a text that preflight refuses gives its failure and leaves both stores as they are |
| `Signatures.VerifyExact` | ram0na/engine.ts:182-224 | for every receipt: verification accepts it if and only if its HMAC is that of its payload under the configured key or its public signature verifies over its payload with the key it names correctly, and throws only over an unreadable key |
| `Signatures.SignedParts` | ram0na/engine.ts:46-69 | what signing puts on a payload: the HMAC or a placeholder, and the signature of the same text with the key, its id and its fingerprint |
| `Signatures.ReplacedExact` | ram0na/engine.ts:182-224 | an issued receipt with another payload put in its place verifies if and only if the payloads are equal, their texts share an HMAC, or the signature of the one verifies for the other |
| `Signatures.TamperingIsCaught` | ram0na/engine.ts:182-224 | where signatures and HMACs are good for one text only, an issued receipt verifies with the payload it was issued for and no other |
| `Signatures.PublicSignatureSuffices` | ram0na/engine.ts:200-224 | an issued receipt verifies on any platform that checks the same signatures, with any HMAC block and any HMAC key or none |
| `Signatures.HmacAlone` | ram0na/engine.ts:182-198 | without its public signature an issued receipt verifies exactly where an HMAC key is configured |
| `Signatures.ReplayLineExact` | audit/node_runtime.ts:104-129 | for every stored receipt: what replay reports, by its signatures, its request and its text |
| `Signatures.SignatureInvalidExact` | audit/node_runtime.ts:112-115 | a stored receipt is reported with an invalid signature if and only if neither of its signatures is genuine and its key can be read |
| `Signatures.ReplacedLineIsReported` | audit/node_runtime.ts:112-115 | a stored receipt whose payload was replaced is reported with an invalid signature |
| `Signatures.ReplayComparisonExact` | ram0na/engine.ts:226-235 | two receipts compare as OK if and only if both are genuine and equal up to key order; a receipt that is not genuine is reported first |
| `Decisions.CostIsExact` | arm/engine.ts:11-27 | for every accepted request the projected cost is its exact cost, or null beyond 2^53-1 |
| `Decisions.FinalReasonIsFirst` | arm/engine.ts:38-183 | the reason of ARM and RAM0NA together is that of the first violated condition in one fixed cross-layer order |
| `Decisions.DecisionExact` | ram0na/engine.ts:124-180 | for every accepted request in every state: the receipt says ALLOW if and only if no condition is violated; otherwise it carries the first violated one, never an OK code |
| `Decisions.CostsAddUp` | arm/engine.ts:53-54 | allowed plus prevented is the exact cost and allowed is at most the policy maximum, all zero on overflow; ALLOW implies actual, exact cost and policy maximum in that order |
| `Decisions.ApprovedParametersAreClean` | orbit/engine.ts:147-172 | an ALLOW receipt means no reserved key and no action marker at any depth, and no unsafe text, in the parameters of the request, of its tool calls or of the tool calls of its intent |
| `Decisions.ApprovalFieldsIgnored` | arm/engine.ts:38-183 | the decision does not depend on hold_state, already_consumed or the manual-approval threshold |
| `Decisions.ApprovalFieldsIgnoredInReceipts` | arm/engine.ts:38-183 | two accepted texts that differ at most in these fields get receipts with the same decision and reason in every state |
| `Decisions.NeverManualApproval` | arm/engine.ts:38-183 | no receipt carries ERR_MANUAL_APPROVAL_REQUIRED, in any state |
| `Decisions.OverThresholdExact` | arm/engine.ts:38-183 | an accepted request whose exact cost is above its manual-approval threshold is refused if and only if one of the other conditions is violated |
| `Receipts.SignedTextFixesPayload` | ram0na/engine.ts:155-179 | the text that is signed fixes the payload: two payloads print the same if and only if every field of decision, traces and request is the same |
| `Receipts.DecidedTextFixesDecision` | ram0na/engine.ts:139-153 | the text behind the decision hash fixes decision, reason, both hashes, policy version, execution id and the three costs |
| `Receipts.DecisionHashIsItsOwn` | ram0na/engine.ts:136-153 | the decision hash on every receipt is that of the text of the decision, reason, hashes, policy version, id and costs the receipt itself shows |
| `Receipts.ReceiptCarries` | ram0na/engine.ts:155-179 | every receipt carries its canonical request, the request and policy hashes in all their places, its execution id and budget token, and the hashes of its own intent and observation |
| `Receipts.LayersDecide` | ram0na/engine.ts:131-136 | a receipt says ALLOW exactly when all three layers allow, and otherwise gives the reason of the first layer that refuses |
| `Receipts.PolicyTextFixesPolicy` | shared/policy-trust.ts:10-28 | the text behind the policy hash fixes both versions and all six rules |
| `Receipts.RuntimeTextFixesObservation` | ram0na/engine.ts:72-74 | the text behind the runtime hash fixes all four observations |
| `ReceiptLayout.ReceiptRead` | ram0na/engine.ts:155-179 | every receipt in JSON has exactly the members of its payload and its signatures, each read back by its name |
| `ReceiptLayout.OutputRead` | ram0na/engine.ts:159-171 | the decision output in JSON has exactly eleven members, each read back by its name |
| `Receipts.PrintedCostsReadBack` | ram0na/engine.ts:159-171 | for every accepted request the three USD texts on its receipt read back as its exact cost, the part within the policy maximum and the rest, all zero on overflow |
| `Replay.RerunReceipt` | audit/node_runtime.ts:117-118 | running a canonical request again issues the receipt of the original request in the state it is run in |
| `Replay.ReplayExact` | audit/node_runtime.ts:104-129 | for every accepted request in every state: its stored receipt replays as OK if and only if the stores had no part in its ARM trace, and as a mismatch otherwise |
| `Replay.FreshReceiptsReplay` | audit/node_runtime.ts:117-129 | every receipt issued from empty stores replays as OK |
| `Replay.ReportAccounts` | audit/node_runtime.ts:94-137 | every line is counted once, as a match or a mismatch, and all match exactly when each line replays as OK |
| `Replay.ReportExact` | audit/node_runtime.ts:94-137 | there is a report exactly when no signature check throws, and it lists the reasons of all mismatches in the order of the lines |
| `Machine.ExecuteIsArmThenFinish` | audit/node_runtime.ts:52-88 | running a request in one go is arming it and finishing it at once |
| `Machine.RunKeepsAuthority` | shared/state.ts:28-60 | an invariant of all interleavings: records, claims and issued receipts stay consistent after every event |
| `Machine.OneShot` | shared/state.ts:31-51 | over every run, at most one of the requests armed under one id between two resets gets an ALLOW receipt |
| `Machine.FirstGetsAuthority` | arm/engine.ts:55-80 | an ALLOW receipt belongs to the first request of its id whose cost did not overflow |
| `Machine.StatusOnlyAdvances` | shared/state.ts:31-51 | in every run each event but a reset moves a record only forward from absent to inflight to allowed |
| `Machine.AllowedRecordsAreBacked` | audit/node_runtime.ts:80-82 | in every run an allowed record holds the hashes of an ALLOW receipt that was issued for its id |
| `Machine.RunKeepsBudgets` | shared/state.ts:62-93 | an invariant of all interleavings: what each token has consumed is the sum of the costs reserved on it since its last define |
| `Machine.BudgetConservation` | shared/state.ts:65-84 | in every run the consumption of a token is the costs of its ALLOW receipts, plus those refused afterwards by RAM0NA, plus those pending, and stays within a non-negative maximum |
| `Machine.RunKeepsConsumptionSafe` | shared/state.ts:73-84 | in every run what a token has consumed is a safe integer, not negative |
| `Machine.ReserveIsExact` | shared/state.ts:73-84 | in every reachable state the reservation computed in doubles, with the sum rounded before it is compared and stored, decides and stores what exact integers would |
| `Machine.RefusedLaterByRuntime` | ram0na/engine.ts:84-115 | a reservation whose receipt refuses was refused by one of the four runtime checks |
| `Machine.ResetReopensAuthority` | audit/node_runtime.ts:143-145 | with a reset in between, every request that is approved from empty stores is approved twice: authority is one-shot only between resets |
| `Approval.SomeRequestIsApproved` | audit/node_runtime.ts:52-88 | on every valid platform there is a text that is accepted and gets an ALLOW receipt from empty stores although its exact cost is above its manual-approval threshold, its release is pending and it says it was already consumed |
| `Approval.TwoApprovalsAcrossReset` | audit/node_runtime.ts:143-145 | on every valid platform some run gives one execution id two ALLOW receipts, with a reset in between |
| `Approval.RepeatedRequestMismatches` | audit/node_runtime.ts:117-129 | when an approved request is sent again, the receipt of the second run does not replay |
| `Registry.NormalizeSigner` | shared/custody_keys.js:56-82 | normalizing succeeds exactly for well-formed signers: ids present, no private material, a hash that is given or computed and agrees with the key |
| `Registry.ScanSigners` | shared/custody_keys.js:126-177 | the loop over the signers of a set, with four maps, a set of ids and a list, computes the fold |
| `Registry.ValidateSignerRegistry` | shared/custody_keys.js:84-189 | the nested loops return exactly on the valid registries, and then every entry in order; otherwise the error of the first failing check |
| `Registry.RecordsMore` | shared/custody_keys.js:136-176 | a map from keys to last owners decides whether one more entry keeps every key with one owner |
| `Registry.SignersExact` | shared/custody_keys.js:126-177 | the signer loop succeeds exactly when the signers are well formed, their ids are new and distinct in the tenant entry, and all entries so far stay separated |
| `Registry.SetsExact` | shared/custody_keys.js:104-178 | the set loop succeeds exactly when in addition versions are distinct and sets have signers, one unless a quorum is declared |
| `Registry.TenantsExact` | shared/custody_keys.js:95-187 | the tenant loop succeeds exactly when every tenant entry is valid alone, with one active set, and all entries are separated |
| `Registry.ValidateExact` | shared/custody_keys.js:84-189 | validation succeeds if and only if the registry is valid, and returns one entry per signer in the order of the registry |
| `RegistryErrors.EntriesExact` | shared/custody_keys.js:56-82 | the entries of a validated registry are exactly its signers, each field said from the signer and its set: given or default status, algorithm and creation time, and as key hash the given one or the SHA-256 of the key, which it is whenever a key is given |
| `RegistryErrors.KeyBelongsToOneTenant` | shared/custody_keys.js:153-175 | no valid registry lists one public key, up to the case of its digits, under two tenants |
| `RegistryErrors.FirstErrorExact` | shared/custody_keys.js:84-189 | for every registry: validation gives the error of the first violated check in the order in which the registry is read, and succeeds if and only if none is violated |
| `RegistryErrors.ResolutionExact` | shared/custody_keys.js:191-232 | for every receipt and valid registry: which of the three errors resolution gives, or the entry whose six fields the receipt names |
| `RegistryErrors.ActiveSignerExact` | shared/custody_keys.js:271-281 | the active signer is an entry of the tenant with active status, found exactly when it is the only one |
| `RegistryErrors.BuiltReceiptNames` | shared/custody_keys.js:283-301 | a receipt built for an entry names its six fields and carries the hashes, decision and reason it was given |
| `KeyResolution.ValidationIsOrderFree` | shared/custody_keys.js:84-189 | validation of a registry and of any reordering of its tenants, sets and signers succeeds or fails alike, with the same multiset of entries |
| `KeyResolution.HashFixesIdentity` | shared/custody_keys.js:166-175 | unless their signer ids are nested, one continuing the other after a slash, two entries of a valid registry with one key hash have one tenant, signer id and key id |
| `KeyResolution.NestedIdsShareHash` | shared/custody_keys.js:166-175 | for every nesting a valid registry lists one key hash for signers with these ids |
| `KeyResolution.ShareHashExact` | shared/custody_keys.js:166-175 | for any two signer ids: some valid registry lets two identities with these ids share a key hash if and only if the ids are nested |
| `KeyResolution.TenantMatchesOnce` | shared/custody_keys.js:200-207 | a valid tenant entry holds at most one signer a receipt can name |
| `KeyResolution.ResolveExact` | shared/custody_keys.js:191-232 | a complete receipt resolves to an entry if and only if the entry has the six named fields, unless two tenant entries hold such a signer; exactly then it is ambiguous |
| `KeyResolution.NeverAmbiguous` | shared/custody_keys.js:223-230 | with distinct tenant ids no receipt is ambiguous |
| `KeyResolution.RepeatedTenantIsAmbiguous` | shared/custody_keys.js:223-230 | with a repeated tenant id a valid registry can make a complete receipt ambiguous |
| `KeyResolution.ActiveSignerHasOneTenant` | shared/custody_keys.js:271-281 | the active signer is found only for a tenant id with one entry |
| `KeyResolution.ActiveReceiptResolves` | shared/custody_keys.js:271-301 | the receipt built for the active signer resolves back to it, exactly when its hash and algorithm are not empty |
| `KeyResolution.AnyMetadataIsValid` | shared/custody_keys.js:56-82 | for any key hash and algorithm, empty ones included, a valid registry has an active signer with them |
| `KeyResolution.ActiveReceiptCanFail` | shared/custody_keys.js:196-198 | so without a hash or without an algorithm the receipt built for the active signer of a valid registry is refused as incomplete |
| `KeyResolution.RotationKeepsResolution` | shared/custody_keys.js:191-232 | after a rotation that leaves the registry valid every receipt that resolved resolves to the same key |
| `KeyResolution.EarlierReceiptsResolve` | shared/custody_keys.js:191-232 | the same over any number of rotations |
| `Bytes.HexRoundTrip` | app/encoding/binary_experiment.js:80-85 | reading hexadecimal digits and writing the bytes back only folds the case |
| `Bytes.Utf8Injective` | app/encoding/binary_experiment.js:118-118 | different strings of scalar values have different UTF-8 |
| `Bytes.Utf8Patterns` | app/encoding/binary_experiment.js:118-118 | the bytes of every scalar value follow the patterns of section 3 of RFC 3629, in shortest form |
| `Bytes.MendedUnchanged` | app/encoding/binary_experiment.js:118-118 | replacing lone surrogates changes exactly the text that is not well-formed UTF-16 |
| `DecisionCore.EncodeDecisionCore` | app/encoding/binary_experiment.js:136-173 | the checks and the pushed parts give the header and body of the core, or nothing where the code throws |
| `CoreLayout.EncodableExact` | app/encoding/binary_experiment.js:136-173 | the encoder accepts exactly the cores with a known decision and reason, three 64-digit hashes, a version of 1 to 65535 bytes, counts that are unsigned safe integers, and no other field |
| `CoreLayout.DecisionNumbers` | app/encoding/binary_experiment.js:9-12 | REFUSE is 0, ALLOW is 1, and no other text has a number |
| `CoreLayout.ReasonNumbers` | app/encoding/binary_experiment.js:14-47 | each of the 32 codes has its own number, from 1 to 32, and no other text has one |
| `CoreLayout.HeaderLayout` | app/encoding/binary_experiment.js:150-164 | every field of the header at its byte offset: the format and its version, the flags, three hashes, the decision, the reason and the length of the version, most significant byte first |
| `CoreLayout.BodyLayout` | app/encoding/binary_experiment.js:161-172 | after the header come the version and the counts that are present, eight bytes each, and nothing else |
| `DecisionCore.BigEndianReadsBack` | app/encoding/binary_experiment.js:96-112 | the big-endian bytes of a number that fits read back as the number |
| `CoreLayout.FromBigEndianFirst` | app/encoding/binary_experiment.js:96-112 | the first byte is the most significant one |
| `DecisionCore.DecodeEncode` | app/encoding/binary_experiment.js:136-173 | whatever bytes follow, a decoder reads an encoding back as the core, hashes in lower case, lone surrogates replaced and minus zero as zero, and leaves those bytes |
| `DecisionCore.RoundTripExact` | app/encoding/binary_experiment.js:136-173 | the decoder returns the very core that was encoded if and only if folding changes nothing in it |
| `DecisionCore.EncodingIsInjective` | app/encoding/binary_experiment.js:136-173 | two cores encode alike if and only if they fold to the same core |
| `DecisionCore.PrefixFree` | app/encoding/binary_experiment.js:136-173 | no encoding is a proper prefix of another |
| `DecisionCore.ReceiptsEncode` | app/encoding/binary_experiment.js:182-192 | the core of every receipt with 32-byte hashes encodes: every decision and reason code has a number |
| `DecisionCore.EncodingFixesDecision` | app/encoding/binary_experiment.js:182-192 | receipts whose cores encode alike agree on decision, reason and hashes up to case |
| `Percent.PercentEncodeLoop` | mnde-sidecar-ui/src-tauri/src/main.rs:1490-1500 | the loop over bytes computes the encoding |
| `Percent.PercentDecodeLoop` | mnde-sidecar-ui/src-tauri/src/main.rs:1457-1480 | the loop, with its two look-ahead bytes that are used up even when they are no digits, computes the decoding |
| `PercentExact.EncodeByteExact` | mnde-sidecar-ui/src-tauri/src/main.rs:1490-1500 | the bytes left bare are exactly the unreserved characters of section 2.3 of RFC 3986; every other one becomes a percent sign and two upper-case digits |
| `PercentExact.DecodeExact` | mnde-sidecar-ui/src-tauri/src/main.rs:1457-1480 | for any text whatever: decoding gives the characters of the pieces it is made of, a plus sign being a space, an escape without digits losing its two bytes, and a cut one a percent sign |
| `Percent.DecodeEncode` | mnde-sidecar-ui/src-tauri/src/main.rs:1457-1500 | decoding an encoded string gives the characters numbered by its UTF-8 bytes, which is the string if and only if it is ASCII |
| `Percent.EncodeInjective` | mnde-sidecar-ui/src-tauri/src/main.rs:1490-1500 | different strings have different encodings |
| `Percent.SplitJoin` | mnde-sidecar-ui/src-tauri/src/main.rs:1439-1439 | splitting a joined list of pieces without the separator gives the pieces |
| `PercentExact.SplitExact` | mnde-sidecar-ui/src-tauri/src/main.rs:1439-1439 | splitting is the one way to write a text as pieces without the separator, joined by it |
| `PercentExact.SplitOnceExact` | mnde-sidecar-ui/src-tauri/src/main.rs:1433-1440 | the text before and after the first occurrence, and nothing exactly when there is none |
| `PercentExact.LastFieldExact` | mnde-sidecar-ui/src-tauri/src/main.rs:1439-1447 | a field is the decoded value of a pair with the key that no later pair has |
| `PercentExact.CallbackExact` | mnde-sidecar-ui/src-tauri/src/main.rs:1429-1454 | for any URL whatever: which of the four errors is given, or the last code and the expected state |
| `Percent.ParseOidcCallbackUrl` | mnde-sidecar-ui/src-tauri/src/main.rs:1429-1454 | the loop over pairs, where later values replace earlier ones, and the order of the four errors |
| `Percent.CallbackReadsForm` | mnde-sidecar-ui/src-tauri/src/main.rs:1429-1488 | for every list of parameters the callback is read as the last code and the last state of the list, as characters numbered by their bytes |
| `Percent.CallbackRoundTrip` | mnde-sidecar-ui/src-tauri/src/main.rs:1429-1488 | code and state come back as sent if and only if both are ASCII; a state that is not is refused as a mismatch |
| `BoundedLog.LogDirectory.RotateFile` | shared/operations.js:25-41 | for every set of files the descending loop of renames shifts every slot by one, drops only the oldest, and reports whether it rotated |
| `BoundedLog.LogDirectory.WriteBoundedLog` | shared/operations.js:43-47 | the new files: rotated if the active one was full, then the line appended |
| `BoundedLog.WriteDropsOldestOnly` | shared/operations.js:25-47 | one write appends the line to the kept lines and drops nothing, or the oldest slot when it rotated |
| `BoundedLog.LogIsSuffix` | shared/operations.js:25-47 | after any writes from an empty directory, under any limits, the files from oldest to active hold a suffix of all lines written |
| `BoundedLog.DropsOnlyWhenFull` | shared/operations.js:25-47 | slots are in use without a gap, each file without its last line is below the limit, and lines are lost only once all numbered slots are in use |
| `BoundedLog.Retention` | shared/operations.js:25-47 | a log keeps everything, or at least max_files times max_bytes, and at most max_files + 1 files of the limit and one line |

## Left out

- Numbers outside the safe range: a `Json` number is a safe integer or minus zero, so the branch where the printer throws is unreachable in the model.
- Number(token) in the two parsers: an integer token is read exactly; by `Doubles.RoundedInteger` the safe-integer test after rounding gives the same answer.
- The order of array-index keys among themselves when an object is enumerated; the model only puts them first, as JavaScript does.
- The recursion depth of the parsers, printers and scans: stack overflow on deeply nested input is not modelled.
- The `canonicalize` of `main.js` and of `shared/custody_keys.js`: on the values of the model they print what the printer of `shared/json.ts` prints.
- Reorder.ReorderJson: states the result up to key order and not the exact order drawn, because canonical text does not depend on it; the shuffle itself is exact.
- Money.UsdReadsDecimals: reads digits and a decimal fraction; other forms of Number(), such as signs, exponents and blanks, are not modelled.
- Pipeline.Runtime.ReplayStored: a line is a receipt of the expected shape or unparseable; JSON of another shape, for which the code would throw, is not modelled.
- Pipeline.Runtime.ReplayReceiptStore: the `request_hash` kept beside each mismatch is not in the report.
- The serialized receipt bytes, timings, environment variables and file reading around the pipeline: measurement and input or output.
- The `snapshot` methods of the two stores: they copy the records.
- Stores.InMemoryBudgetTokenStore.Define: takes any integer; fractions and infinities are not modelled.
- Pipeline.Runtime.SeedBudgetToken: takes any integer; fractions and infinities are not modelled.
- Stores.InMemoryBudgetTokenStore.Reserve: adds exact integers; `Machine.ReserveIsExact` shows that rounding gives the same in every run whose maxima are safe integers.
- Machine.BudgetConservation: speaks of runs in which tokens are defined with safe integers.
- ARM on inputs that preflight refuses: a prevented cost beyond the safe range, which takes a negative policy maximum, is clipped in the model.
- The rules of `orbit/engine.ts` (normalization, patterns, IP tokens) beyond the structure around them: they are arbitrary text predicates.
- Registry fields that are not strings, booleans or lists, and null tenants, sets or signers: the code coerces them or throws a TypeError. The error details are left out, the codes are kept.
- Signature verification of custody receipts and PEM handling in `shared/custody_keys.js`: cryptographic library code.
- DecisionCore.EncodeDecisionCore: a refusal has no message, and fields that are neither strings nor absent count as absent, so an array such as ["ALLOW"], which JavaScript would turn into the text, is not encoded.
- The hashing and appending of experiment records in `app/encoding/binary_experiment.js`: input and output.
- BoundedLog.LogDirectory.WriteBoundedLog: leaves out file-system errors, for which the code reports a warning.
- The archiving of receipts in `shared/operations.js`: archive names come from the clock.
- The older USD pipeline (`arm/index.ts`, `ram0na/index.ts`, `orbit/index.ts`, `policy/index.ts`, `preflight/index.ts`, `mnde-core/index.ts`): a stateless variant with unchecked multiplication that would only add easier members.
- The user interfaces, the OIDC network flow, the sidecar processes, release tooling and benchmarks.
