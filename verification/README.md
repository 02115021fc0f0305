# Verified models of the benchmark and process-test tooling

This project models algorithms from the repository's tooling in Dafny and proves what they are for.

- **Loop canonicalizer** (`ShaderText`, `ShaderProgram`, `ShaderMeaning`, `Canonicalizer*`). The script that turns
  `for` into `loop` with the update at the bottom is a rewriter of token texts with bracket counting. It is proved
  equal to a rewrite of statements through a printer, and that rewrite is proved to keep the meaning of programs under
  a semantics with scopes, `break`, `continue`, `return` and loops that may run for ever. Values, memory and operators
  are arbitrary; called functions and indexed arrays are looked up like variables. The rewriter is proved to commute
  with erasing white space, so the results hold for whole shader files with any white space between any two tokens.
  Which loops are converted, what one loop becomes and how broken text stops the script is stated in the words and
  brackets of the text alone (`CanonicalizerWords`).
- **Weight transposer** (`WeightTranspose`, `DenseLayers`). The nested loops over the array, and the index expressions
  of the ten dense layers with the substitutions the script makes in them, are proved to fit together for an arbitrary
  accumulation step, so no rounding assumption is made.
- **Layout pass** (`LayoutPass`, `LayoutText`, `LayoutPatterns`, `LayoutSteps`, `LayoutMisreads`, `LayoutRefinement`,
  `LayoutScript`, `LayoutDeclarations`, `LayoutOrders`). The script splits the shared vector array into four arrays by
  four regular expressions on the shader's text. They are modelled on characters and proved to do to a printed program
  what four substitutions do to its tree, exactly when no name and no comparison misleads them. The substitutions are
  a data refinement of an imperative language with loops, `break`, `continue` and `return`. Made in any of the 24
  orders they are one exactly when `.yz` comes before components, and components and whole stores before whole loads.
  The declarations that the script writes are the print of two functions whose runs are what calls of them are taken
  to do.
- **Browser-runtime client** (`BrowserRuntime`, `BrowserCalls`, `BrowserMessages`). A frame reader over a pipe whose
  reads return any number of bytes, and a caller that matches replies to requests. The queue at the start of a call
  holds what arrives; a timeout is the number of messages that arrive before the deadline.
- **Event-stream readers** (`EventStream`, `EventCharacters`, `EventStandard`). The pushing thread and the pulling
  function, compared line by line and stream by stream, and both compared with section 9.2.6 of the WHATWG HTML
  Standard, whose line endings, fields and blocks are defined on their own.
- **Span flattening** (`TokenSpans`), **frame gate** (`FrameGate`, in exact arithmetic), **fixture cutting**
  (`Utf8Fixture`, RFC 3629), **weight decoding** (`QuantizedWeights`), **identifiers** (`Identifier`) and **binary
  staging** (`StagedBinaries`, `StagedLayout`).

JSON parsing, UTF-8 decoding of stream lines, exception texts, random numbers, clocks and file contents are parameters
or opaque values. `Outcomes`, `Bytes` and `Slices` hold what several modules share. Where a script updates a list, a
counter or a text in place, the model is a class or a loop proved against a function; the laws are lemmas about that
function.

Findings. A loop whose body declares a name of the update, be it a variable, a called function or an indexed array,
can change meaning when it is converted: `CanonicalizerShadowing.HarmlessExactly` says for which updates and declared
names, `ShadowingBreaks` and `CalledNameBreaks` are examples. A loop without a condition holds its condition to be
true, but becomes one with `if(!())`, which is rejected (`NoConditionBreaks`); with a condition it is converted
rightly (`ConditionExactly`). The layout pass turns `obj[0]` into `obload_j(0)`, a comparison `j[0]==v` into a store,
and the store in the update of a `for` into one that runs on into the body (`LayoutMisreads.StepsExactly`); it cuts
other swizzles such as `.xy` in two, takes the address of a call for that of an element, and makes calls of other
field targets, of compound stores and of stores with a space in front of `=` (`LayoutRefinement.ReadExactly`,
`PutExactly`, `StoreExactly`); it ends an index at its first `]`, and cannot tell its own names from the shader's
(`LayoutMisreads.NestedIndexBreaks`, `AddedNames`). The shaders of the repository have none of these. The push reader
drops `event` and `data` fields without a space after the colon, and both readers keep an event name across a block
without data, where the standard forgets it (`EventStandard`).

## Model

| member | source | states |
|---|---|---|
| ShaderText.MatchEnd | benchmarks/gpu-lexer/canonicalize-shader.py:6-13 | The loop over the depth counter returns the bracket that brings the depth from the start position back to zero, or nothing when the text ends first. |
| ShaderText.HasContinue | benchmarks/gpu-lexer/canonicalize-shader.py:27 | True exactly when some word of the text is `continue` with any letters in front of it and behind it (so `continued` counts too). |
| ShaderText.FindSite | benchmarks/gpu-lexer/canonicalize-shader.py:19-25 | The two bracket scans with every way to stop in the script order: unbalanced header, not three header parts, text ended, no `{`, unbalanced body. |
| ShaderText.Canonicalizer.Transform | benchmarks/gpu-lexer/canonicalize-shader.py:15-34 | The recursive loop over the text equals the rewrite function on every token text, errors included, and raises the global counter by the number of conversions; it terminates on every text. |
| CanonicalizerPrinting.LocateFor | benchmarks/gpu-lexer/canonicalize-shader.py:18-25 | In a printed program the depth-counting scans pick, for any `for` anywhere in any text, exactly the brackets that the grammar pairs. |
| CanonicalizerPrinting.RewriteAt | benchmarks/gpu-lexer/canonicalize-shader.py:15-34 | Wherever a printed statement stands in a text, the token rewriter replaces it by the print of the statement-level rewrite, counts its conversions and continues behind it; nested loops are rewritten inside out. |
| CanonicalizerPrinting.RewritePrinted | benchmarks/gpu-lexer/canonicalize-shader.py:15-36 | For every printable program the token rewriter returns the print of the statement-level rewrite and the number of conversions. |
| CanonicalizerPrinting.BalancedPrint | benchmarks/gpu-lexer/canonicalize-shader.py:6-13 | Both bracket kinds of a printed program are balanced. |
| CanonicalizerPrinting.PrintBottom | benchmarks/gpu-lexer/canonicalize-shader.py:28-29 | The replacement text is the print of a block with the initializer, a loop that breaks when the condition fails, the body, and the update last. |
| CanonicalizerWords.LoopRewritten | benchmarks/gpu-lexer/canonicalize-shader.py:26-33 | For every printed loop, token by token: with a word that holds `continue` in its body it stays a `for` over its rewritten body and only the body is counted; without, it becomes the block with `loop`, `if(!(…))`, `break` and the update last, and counts one more. |
| CanonicalizerWords.LeftLoopsSpell | benchmarks/gpu-lexer/canonicalize-shader.py:27-32 | Every `for` left in what is written for a printed program has in its body text a word that holds `continue`. |
| CanonicalizerWords.AllConverted | benchmarks/gpu-lexer/canonicalize-shader.py:14-34 | A printed program none of whose words holds `continue` is written without `for`, and the count is the number of its `for` words. |
| CanonicalizerWords.FlatLoop | benchmarks/gpu-lexer/canonicalize-shader.py:15-34 | In any text with one `for`, printed or not, whose header and body hold no brackets: the text written and the count, whatever white space and comments stand around the header. |
| CanonicalizerWords.MatchSpelled | benchmarks/gpu-lexer/canonicalize-shader.py:6-13 | The scan returns the first right bracket at which as many left as right brackets have been counted, and nothing exactly when there is none. |
| CanonicalizerWords.UnclosedHeader | benchmarks/gpu-lexer/canonicalize-shader.py:13-20 | A `for(` without any closing bracket behind it stops the script as unbalanced. |
| CanonicalizerWords.WrongHeader | benchmarks/gpu-lexer/canonicalize-shader.py:21 | A header with any number of `;` other than two stops it for its parts, whatever stands behind. |
| CanonicalizerWords.NothingBehind | benchmarks/gpu-lexer/canonicalize-shader.py:22-23 | A header with nothing but white space behind it stops it at the end of the text. |
| CanonicalizerWords.OtherBehind | benchmarks/gpu-lexer/canonicalize-shader.py:24 | A header followed by something else than a brace stops it for the missing body. |
| CanonicalizerWords.UnclosedBody | benchmarks/gpu-lexer/canonicalize-shader.py:25 | A body without any closing brace stops it as unbalanced. |
| CanonicalizerMeaning.TurnAgrees | benchmarks/gpu-lexer/canonicalize-shader.py:27-29 | One turn of the rewritten loop: the condition decides alike, and the update run inside the body scope changes what it would have changed after that scope was closed. |
| CanonicalizerMeaning.NeverContinues | benchmarks/gpu-lexer/canonicalize-shader.py:27 | A statement whose text does not mention `continue` never ends by continuing. |
| CanonicalizerMeaning.BottomAgrees | benchmarks/gpu-lexer/canonicalize-shader.py:27-29 | A `for` with a condition, without `continue`, whose body declares no name of the update (variables, called functions, indexed arrays) and the loop with its update at the bottom give the same outcome for every machine, state and fuel. |
| CanonicalizerMeaning.MeaningKept | benchmarks/gpu-lexer/canonicalize-shader.py:15-34 | For every machine, start state and fuel a program whose converted loops have a condition and bodies that declare no name of the update has, rewritten, the same exit and the same final state, or both have no result. |
| CanonicalizerLayout.RewriteErased | benchmarks/gpu-lexer/canonicalize-shader.py:15-34 | On every token text, good or bad, erasing white space and rewriting gives what rewriting and erasing gives: same tokens, same count, same error. |
| CanonicalizerLayout.UnchangedIfNoneConverted | benchmarks/gpu-lexer/canonicalize-shader.py:27-34 | A text in which no loop is converted comes back token by token. |
| CanonicalizerFiles.RewriteWritten | benchmarks/gpu-lexer/canonicalize-shader.py:15-36 | For every file of functions and other text without `for`, with any white space anywhere, the script succeeds, writes that file with every body rewritten, and counts the conversions of all bodies. |
| CanonicalizerFiles.FileKeepsMeaning | benchmarks/gpu-lexer/canonicalize-shader.py:15-36 | End to end on files: whatever the white space, each function of the file written ends in exactly the same ways as before, and never ends exactly when it never did. |
| CanonicalizerFiles.WrittenAgain | benchmarks/gpu-lexer/canonicalize-shader.py:15-36 | On the file it wrote the script converts nothing and changes no token, white space included. |
| CanonicalizerFiles.WordsCounted | benchmarks/gpu-lexer/canonicalize-shader.py:14-36 | In the file as written each conversion removes one `for` and adds one `loop`, one `if` and one `break`; the number of every other word stays. |
| CanonicalizerLaws.ScriptKeepsMeaning | benchmarks/gpu-lexer/canonicalize-shader.py:15-36 | The text written for one printed program is the print of a program that ends in exactly the same ways, and never ends exactly when the original never does. |
| CanonicalizerLaws.OneOutcome | benchmarks/gpu-lexer/canonicalize-shader.py:15-34 | A program has at most one outcome from a state, whatever the fuel. |
| ShaderMeaning.MoreFuel | benchmarks/gpu-lexer/canonicalize-shader.py:15-34 | A result found with some fuel stays the result with more fuel. |
| CanonicalizerLaws.CanonAgain | benchmarks/gpu-lexer/canonicalize-shader.py:15-34 | The rewrite of a rewritten program changes nothing and converts nothing. |
| CanonicalizerLaws.RewriteAgain | benchmarks/gpu-lexer/canonicalize-shader.py:15-36 | The canonicalizer accepts its own output, leaves every token of it alone and counts zero; the output is balanced. |
| CanonicalizerLaws.RemainingContinue | benchmarks/gpu-lexer/canonicalize-shader.py:27-32 | Every `for` left in the output has `continue` in its body text. |
| CanonicalizerLaws.ConvertedHoldNoFor | benchmarks/gpu-lexer/canonicalize-shader.py:27-32 | In such an output any statement that does not mention `continue` prints without `for`. |
| CanonicalizerLaws.ConvertedLoopHoldsNoFor | benchmarks/gpu-lexer/canonicalize-shader.py:27-30 | A converted loop holds no `for`, neither in its header nor anywhere in its body. |
| CanonicalizerLaws.EachCountedOnce | benchmarks/gpu-lexer/canonicalize-shader.py:14-30 | For every word: each conversion removes one `for`, adds one `loop`, one `if` and one `break`, and keeps the number of every other word. |
| CanonicalizerShadowing.ShadowedUpdate | benchmarks/gpu-lexer/canonicalize-shader.py:28-29 | For every loop, machine, state and assignment, when a turn ends normally: the original update computes with the names outside the body, the rewritten one with the names the body declared, and it changes nothing outside when the body declared the assigned name. |
| CanonicalizerShadowing.HarmlessExactly | benchmarks/gpu-lexer/canonicalize-shader.py:27-29 | For every update that is an assignment or a call without `&&` and `||`, and all names: every converted loop with that update whose body declares these names keeps its meaning, on every machine, state and fuel, if and only if the update uses none of the names, as a variable, a called function or an indexed array. |
| CanonicalizerShadowing.ShadowingBreaks | benchmarks/gpu-lexer/canonicalize-shader.py:28-29 | A body that declares a name of the update: a printable three-part loop that ends after one turn, and whose rewriting runs for ever. |
| CanonicalizerShadowing.CalledNameBreaks | benchmarks/gpu-lexer/canonicalize-shader.py:28-29 | A body that declares the function which the update calls, `for(var i=0;i<n;i=step(i)){let step=2;}`: on the machine that records what operators are given both loops end, in different states. |
| CanonicalizerShadowing.NoConditionBreaks | benchmarks/gpu-lexer/canonicalize-shader.py:28-29 | `for(;;){break;}` is converted; on every machine, from every state and with every fuel it ends, and its rewriting is rejected. |
| CanonicalizerShadowing.ConditionExactly | benchmarks/gpu-lexer/canonicalize-shader.py:27-29 | On every machine and from every state: all converted loops with this condition, whose bodies declare no name of the update, keep their meaning if and only if there is a condition. |
| WeightTranspose.TransposeWeights | benchmarks/gpu-lexer/transpose-shader.py:37-43 | For any in-range regions, overlapping ones included, the nested loops leave at every position the word that the last region covering it moves there, and the source array is unchanged. |
| WeightTranspose.ExactTranspose | benchmarks/gpu-lexer/transpose-shader.py:37-43 | For pairwise disjoint regions each cell (row, column) stands at (column, row) of its region and every position outside all regions is unchanged. |
| WeightTranspose.SameValues | benchmarks/gpu-lexer/transpose-shader.py:43 | The script assertion: for disjoint in-range regions the result has the same multiset of words as the input. |
| WeightTranspose.FromInverse | benchmarks/gpu-lexer/transpose-shader.py:38-42 | Transposing the flipped region brings every position back. |
| WeightTranspose.SourceInjective | benchmarks/gpu-lexer/transpose-shader.py:38-42 | No two positions of the result take the same word. |
| WeightTranspose.PickedOnce | benchmarks/gpu-lexer/transpose-shader.py:43 | Values picked from pairwise distinct positions form the same multiset. |
| DenseLayers.LayerText.ReplaceAll | benchmarks/gpu-lexer/transpose-shader.py:6-31 | Replacing rule by rule in the stored text of a layer applies all rules in order to each of its expressions. |
| DenseLayers.RewriteHalves | benchmarks/gpu-lexer/transpose-shader.py:14-34 | The three rules for a row read in two halves, in either shader, give the strided reads at base and base+32 and nothing else. |
| DenseLayers.RewriteHidden | benchmarks/gpu-lexer/transpose-shader.py:18-35 | The five rules for the 80-wide rows, in the script order for either shader (whole `let` lines in the one, text anywhere for the first base in the other), give the strided reads and the moved base of the sixteen gate weights. |
| DenseLayers.ReplacedEverywhere | benchmarks/gpu-lexer/transpose-shader.py:6-9 | A replacement reaches every place of an expression and changes nothing else. |
| DenseLayers.EntryReads | benchmarks/gpu-lexer/transpose-shader.py:10-35 | For each of the ten layers and each lane, the original and the rewritten expression of every access name the same cell of the row of that lane, before and after the transposition. |
| DenseLayers.RewrittenLayersAgree | benchmarks/gpu-lexer/transpose-shader.py:10-43 | Every dense layer with rewritten expressions on transposed weights gives the result of the original on the original weights, for an arbitrary accumulate step: same weights, same order. |
| DenseLayers.OtherWeightsStay | benchmarks/gpu-lexer/transpose-shader.py:37-43 | All weights outside the six regions (embeddings, convolutions, biases) stay where they were. |
| DenseLayers.RegionsFit | benchmarks/gpu-lexer/transpose-shader.py:39 | The six regions of the script are pairwise disjoint and lie within the 41321 words. |
| LayoutText.SubE | benchmarks/gpu-lexer/optimize-shader.py:10-13 | Wherever an expression is printed, each regular expression does to its text what the substitution does to its tree; the match of `j[i]` ends at the bracket that the grammar pairs. |
| LayoutText.SubStmt | benchmarks/gpu-lexer/optimize-shader.py:10-13 | The same for a statement in front of any text, for each of the four regular expressions: loads and stores in headers, bodies, indexes and arguments, and nothing else. |
| LayoutSteps.ScriptOnFile | benchmarks/gpu-lexer/optimize-shader.py:10-13 | In any order of the steps the regular expressions do to the text of a file of functions what the substitutions do to the trees of all bodies, with everything between the functions as it was. |
| LayoutMisreads.StmtBreaks | benchmarks/gpu-lexer/optimize-shader.py:12-13 | A program that reads an array whose name ends in `j` is written wrongly by the load pattern, and one with a comparison behind a whole element or a whole store in a `for` update by the store pattern, wherever it stands and whatever follows (for the latter with a `;` somewhere behind). |
| LayoutMisreads.StepsExactly | benchmarks/gpu-lexer/optimize-shader.py:10-13 | For every order: each step does to the text what it does to the tree if and only if no array's name ends in `j` and, when whole stores come before whole loads, nothing but a store statement looks like one. |
| LayoutMisreads.NestedIndexBreaks | benchmarks/gpu-lexer/optimize-shader.py:13 | An index that reads an array ends at its inner bracket: `j[a[0]]` becomes `load_j(a[0)]`. |
| LayoutMisreads.AddedNames | benchmarks/gpu-lexer/optimize-shader.py:6-9 | The text of a use of an added name is the text of an access to the added array, so the script cannot tell them apart. |
| LayoutRefinement.SameValue | benchmarks/gpu-lexer/optimize-shader.py:10-13 | After the substitutions every source expression has the same value on the four arrays as the original on the vector array, or both are undefined. |
| LayoutRefinement.SamePut | benchmarks/gpu-lexer/optimize-shader.py:11 | Assignments to locals, other arrays, their fields and single components change corresponding states alike. |
| LayoutRefinement.SameStore | benchmarks/gpu-lexer/optimize-shader.py:8 | Storing four components one after the other is storing the vector, at every index, out-of-range ones included. |
| LayoutRefinement.LayoutRefines | benchmarks/gpu-lexer/optimize-shader.py:10-13 | Data refinement on trees: from corresponding states a program and its rewriting end by the same exit in corresponding states, fail together, or run for ever together; loops, `for` updates, `break`, `continue` and `return` included. |
| LayoutRefinement.ReadExactly | benchmarks/gpu-lexer/optimize-shader.py:10-13 | An expression of the shader has the same value after the substitutions on all machines and states if and only if each field of a whole element is `.yz`, one letter, or starts with none of `xyzw`, and no address of an element is taken but that of a single component. |
| LayoutRefinement.PutExactly | benchmarks/gpu-lexer/optimize-shader.py:10-13 | A target changes corresponding states alike on all machines, values and states if and only if it is no whole element, no field of one other than a single component, and its indexes keep their values. |
| LayoutRefinement.StoreExactly | benchmarks/gpu-lexer/optimize-shader.py:12-13 | A statement that stores a local in a whole element keeps its effect on all machines and states if and only if its operator is `=` with no space in front. |
| LayoutScript.OptimizesShader | benchmarks/gpu-lexer/optimize-shader.py:5-15 | For every shader of source functions that declares the array once the script succeeds, and writes the declarations (what they are is `LayoutDeclarations.DeclarationsText`) and every body with the four substitutions made on its tree. |
| LayoutScript.NothingIndexed | benchmarks/gpu-lexer/optimize-shader.py:14 | In what it writes `j[` is nowhere, so the check at the end of the script never fails on such a shader. |
| LayoutDeclarations.DeclarationsText | benchmarks/gpu-lexer/optimize-shader.py:6-9 | The text written for the declaration is the print of four arrays named `jx`, `jy`, `jz`, `jw`, of a function that returns the vector of their elements in this order, and of one that stores the four components in them. |
| LayoutDeclarations.LoadDefined | benchmarks/gpu-lexer/optimize-shader.py:7 | Running the printed body of `load_j` on its argument gives, on every split state and at every index, what the semantics takes a call of it to give. |
| LayoutDeclarations.StoreDefined | benchmarks/gpu-lexer/optimize-shader.py:8 | Running the four printed assignments of `store_j` on its arguments leaves what the semantics takes a call of it to leave, and fails when it fails, at every index. |
| LayoutDeclarations.ShaderKeepsMeaning | benchmarks/gpu-lexer/optimize-shader.py:5-15 | End to end on texts: the script succeeds on a shader that declares the array once, writes in the place of the declaration the printed arrays and functions whose runs are the calls of the new bodies, leaves every other text in front of a body as it was, and each function written does on the array in four parts what the function of the shader did, for every machine, state and fuel. |
| LayoutPatterns.PairsSpelled | benchmarks/gpu-lexer/optimize-shader.py:10 | `j[i].yz` is replaced by `vec2<f32>(jy[i],jz[i])`, for every index text without a closing bracket, and the search goes on behind it. |
| LayoutPatterns.PartsSpelled | benchmarks/gpu-lexer/optimize-shader.py:11 | `j[i].x` is replaced by `jx[i]`, and so for `y`, `z` and `w`. |
| LayoutPatterns.WholesSpelled | benchmarks/gpu-lexer/optimize-shader.py:12 | `j[i]=v;` is replaced by `store_j(i,v);`, for every value text without `;`. |
| LayoutPatterns.LoadsSpelled | benchmarks/gpu-lexer/optimize-shader.py:13 | `j[i]` is replaced by `load_j(i)`. |
| LayoutPatterns.OthersStay | benchmarks/gpu-lexer/optimize-shader.py:10-13 | Nothing else is replaced: text that starts no index, an empty or unclosed index, an index without the tail of the pattern. |
| LayoutPatterns.StopsAtIndex | benchmarks/gpu-lexer/optimize-shader.py:14 | A text without the declaration whose indexes are never closed, or all empty, is left alone, and the script stops exactly when it holds one. |
| LayoutOrders.SamePass | benchmarks/gpu-lexer/optimize-shader.py:10-13 | Every order that meets the condition turns every well-formed program into the same program as the script's order. |
| LayoutOrders.SameText | benchmarks/gpu-lexer/optimize-shader.py:10-13 | And the regular expressions in such an order write the same text for every source file. |
| LayoutOrders.OrderMatters | benchmarks/gpu-lexer/optimize-shader.py:10-13 | For each order of the four substitutions and every machine: the pass refines all source programs if and only if `.yz` precedes components, and components and whole stores precede whole loads. |
| BrowserRuntime.Runtime.Ready | scripts/test-browser-runtime.py:34-36 | Takes one message and succeeds exactly when it announces readiness. |
| BrowserRuntime.Runtime.Exact | scripts/test-browser-runtime.py:42-49 | Whatever sizes the reads of the pipe have: exactly the first bytes asked for, or failure with the pipe drained when fewer come. |
| BrowserRuntime.Runtime.ReadFrame | scripts/test-browser-runtime.py:52-58 | One frame or the reason to stop, in the order of the checks: head, limits, body, JSON, pixels, attaching the pixel count. |
| BrowserRuntime.Runtime.Read | scripts/test-browser-runtime.py:41-60 | For every byte stream and every short-read schedule the queue receives one and the same list of messages. |
| BrowserRuntime.Runtime.Call | scripts/test-browser-runtime.py:62-76 | The id is the next number, the request is sent with it, and with its parameters, or `{}` for null and empty ones; result, queue and events are those of the first reply, error or timeout, with all earlier messages appended to the events. A result is that of the first message whose id is this number, behind messages with other ids or none. |
| BrowserRuntime.FirstOfEncoded | scripts/test-browser-runtime.py:52-58 | A written frame in front of any bytes is read back as its message, leaving those bytes. |
| BrowserRuntime.EncodedDelivered | scripts/test-browser-runtime.py:51-58 | Any written frames in front of any bytes are delivered in order before whatever those bytes deliver. |
| BrowserRuntime.RoundTrip | scripts/test-browser-runtime.py:41-60 | A concatenation of legal frames is delivered as those messages followed by one disconnect error. |
| BrowserRuntime.LongestPrefix | scripts/test-browser-runtime.py:41-60 | Every byte stream is a longest run of complete legal frames and a tail that starts with none; the reader delivers those frames in order and then exactly one transport error. |
| BrowserRuntime.LaterBytes | scripts/test-browser-runtime.py:51-58 | What was delivered before the stream ran dry is never changed by bytes that come later. |
| BrowserMessages.ReaderSteps | scripts/test-browser-runtime.py:51-60 | For every stream of at least eight bytes, in numbers: two lowest-first lengths, the limits 16777216 and 134217728, and what is delivered first for each way a frame can be good, short, too large or no JSON. |
| BrowserMessages.FramesDelivered | scripts/test-browser-runtime.py:41-60 | Of written frames each message is delivered in order as its parsed body with all its fields; with pixels also `pixel_bytes`, their number; behind them comes one object whose one field is `transport_error`. |
| BrowserCalls.PartitionConserves | scripts/test-browser-runtime.py:69-76 | Sorting a run of messages into replies and events loses and invents none, and the i-th reply carries the i-th id. |
| BrowserCalls.CallsConserve | scripts/test-browser-runtime.py:62-76 | Over any run of successful calls the results are the replies of the messages taken, call by call, and the events are exactly all other messages in arrival order. |
| BrowserCalls.MakeCalls | scripts/test-browser-runtime.py:62-76 | Calls made on the client one after the other, up to the first failure: each request is sent with the next id, the results are those of the replies to these ids, and the events added are exactly the other messages taken. |
| BrowserCalls.AwaitFinds | scripts/test-browser-runtime.py:69-76 | A call succeeds with the first message that carries its id when only readable messages precede it and enough arrive in time. |
| BrowserMessages.CallOutcome | scripts/test-browser-runtime.py:69-76 | Every call, by the fields of the messages: behind the messages that pass it times out, or the next message decides as no object, transport error, error, reply without result, or result. |
| BrowserMessages.CallFinds | scripts/test-browser-runtime.py:69-76 | The first message whose `id` is the number of the call gives it its result, and the messages in front are set aside. |
| BrowserMessages.OthersPass | scripts/test-browser-runtime.py:73 | A message without `id`, or with another number, a text, a list, an object or null there, is set aside and the call goes on. |
| BrowserMessages.OneId | scripts/test-browser-runtime.py:73 | No message answers two ids. |
| BrowserMessages.RunInOrder | scripts/test-browser-runtime.py:62-76 | Replies whose ids are the numbers of a run in order, with any events between them, give the calls of the run their results, each its own. |
| BrowserCalls.CallsSucceed | scripts/test-browser-runtime.py:62-76 | Whatever is mixed in between and whatever follows, a run succeeds when readable messages hold enough good replies in call order. |
| BrowserCalls.FramesAnswerCalls | scripts/test-browser-runtime.py:41-76 | A run of calls on what the reader delivers of written frames, and one disconnect error behind them, succeeds. |
| BrowserCalls.ReadAndCall | scripts/test-browser-runtime.py:41-76 | End to end: the reader thread empties a pipe that holds written frames, in reads of any sizes, then the client makes its calls; all succeed, the i-th with the result of the reply that carries the i-th id, and the events added are the other messages taken. |
| EventStream.Events.Read | scripts/test-mesh-notifications.py:48-69 | The reader thread puts into queue and list exactly the items of the stream; a bad line or bad JSON ends it with the exception, and the end marker always comes last. |
| EventStream.Response.NextEvent | scripts/test-user-interactions.py:26-38 | One call returns the next event, or fails when the stream closes, a line is not text or the JSON is bad, and leaves exactly the unread lines. |
| EventCharacters.SpaceTable | scripts/test-user-interactions.py:38 | Exactly the listed 29 character codes are stripped in front of data. |
| EventCharacters.NameRead | scripts/test-user-interactions.py:35-36 | A name between two visible ASCII characters is read whole, with no, one or more spaces and tabs around it. |
| EventCharacters.DataRead | scripts/test-user-interactions.py:37-38 | Data that starts with a visible ASCII character, or is empty, is read whole, its end included, with any spaces and tabs ahead. |
| EventCharacters.NextVisible | scripts/test-user-interactions.py:26-38 | One call on a named event with visible data lines: the name with the parsed lines, or the error for bad JSON, an undecodable line or the end, and the rest unread. |
| EventCharacters.VisibleRoundTrip | scripts/test-user-interactions.py:26-38 | Any list of events whose names and lines start (names also end) with visible ASCII characters or are empty, comments and blank blocks is returned by repeated calls as it was written, and then the stream is found closed. |
| EventStream.FieldsAgree | scripts/test-mesh-notifications.py:57-61 | The two readers take the same from a line if and only if the line is canonical: a space after the colon, no white space around a name or ahead of data. |
| EventStream.SameNext | scripts/test-user-interactions.py:26-38 | On canonical lines both readers reach the same next event from any point within a block. |
| EventStream.PullMatchesPush | scripts/test-user-interactions.py:26-38 | On every canonical stream repeated pull calls return exactly the events the push reader records, and fail where it stops. |
| EventStream.CommentsInvisible | scripts/test-mesh-notifications.py:57-65 | Lines that are no field can be removed anywhere, inside blocks too, without changing what is read. |
| EventStream.StreamRoundTrip | scripts/test-mesh-notifications.py:48-69 | Encoding any list of events, comments and blank blocks and reading it back gives those events in order and no error; data may span several lines. |
| EventCharacters.ValueLines | scripts/test-mesh-notifications.py:53-56 | Without event framing every line is a value, delivered in order up to the first that is not text or does not parse. |
| EventStream.PullRoundTrip | scripts/test-user-interactions.py:26-38 | The pull reader, called again and again on such a stream, returns the same events and then finds it closed. |
| EventStandard.FieldsStandard | scripts/test-mesh-notifications.py:57-60 | The push reader takes from a line what the standard takes (field before the first colon, one space dropped, a bare word is a field without value) if and only if no event or data field lacks its colon and space. |
| EventStandard.LinesStandard | scripts/test-mesh-notifications.py:54-55 | Stripping each raw line gives the lines of the standard (ended by CR LF, LF or CR) if and only if every raw line has one ending and no CR inside. |
| EventStandard.PullFieldsStandard | scripts/test-user-interactions.py:31-38 | The pull reader takes from a line what the standard takes if and only if the line is tidy: no bare `event` or `data`, and white space only as one space behind the colon; a missing space does not matter. |
| EventStandard.StandardUnlessKept | scripts/test-mesh-notifications.py:54-65 | On every stream of lines with one ending, each of which the push reader reads like the standard, it reports what section 9.2.6 of the WHATWG HTML Standard prescribes for the whole text if and only if no event without a name of its own follows a named block without data. |
| EventStandard.PullStandardUnlessKept | scripts/test-user-interactions.py:26-38 | The same for repeated calls of the pull reader on every stream of lines that it reads like the standard, `data:1` included. |
| EventStandard.KeptNameExample | scripts/test-mesh-notifications.py:61-65 | A stream on which the reader keeps a name that the standard forgets. |
| EventStandard.UnspacedExample | scripts/test-mesh-notifications.py:59-60 | A stream without any name on which the standard has an event and the reader none: `data:1`. |
| TokenSpans.SpanList.AddSpan | benchmarks/gpu-lexer/benchmark-shiki.py:25-30 | The closure extends the last span or appends one, or does nothing for an empty range. |
| TokenSpans.Highlight | benchmarks/gpu-lexer/benchmark-shiki.py:22-38 | The nested loops compute the flattening of all lines, with gaps filled and the rest of the code covered. |
| TokenSpans.Validate | benchmarks/gpu-lexer/benchmark-shiki.py:39-46 | Accepts exactly the spans that follow each other from 0 to the end of the code, with every token text equal to its slice; reports a broken chain of spans first, then one that ends elsewhere, then a token text. |
| TokenSpans.FlatCovers | benchmarks/gpu-lexer/benchmark-shiki.py:22-38 | Ordered tokens give non-empty spans that cover the code exactly, agree at every offset with the token style or the default in gaps, and never repeat a style in neighbours. |
| TokenSpans.MergedCoverUnique | benchmarks/gpu-lexer/benchmark-shiki.py:25-30 | Two covers of the same styles without repeated neighbours are equal. |
| TokenSpans.MergedCoverShortest | benchmarks/gpu-lexer/benchmark-shiki.py:25-30 | No cover of the same styles has fewer spans than one without repeated neighbours. |
| TokenSpans.FlatIsTheShortest | benchmarks/gpu-lexer/benchmark-shiki.py:22-38 | The result for ordered tokens is the one shortest cover with the styles of the tokens. |
| TokenSpans.ValidExactlyIfOrdered | benchmarks/gpu-lexer/benchmark-shiki.py:22-42 | For any tokens whatever, the flattened spans pass the span check if and only if the tokens are in order, do not overlap and stay inside the code. |
| TokenSpans.FlatSpelled | benchmarks/gpu-lexer/benchmark-shiki.py:22-38 | For tokens in order inside the code, in offsets and colours: the spans go from 0 to the end without gap, overlap or empty span, neighbours differ, and every position has the colour and font style of its token, the foreground and 0 where they are missing, and the foreground between tokens. |
| TokenSpans.ChainSpelled | benchmarks/gpu-lexer/benchmark-shiki.py:40-42 | The span check accepts exactly spans of which the first starts at 0, the last ends at the end, each starts where the one in front ends, and none ends before it starts. |
| FrameGate.PercentileLaws | scripts/test-client-frame-budget.py:39-44 | The percentiles are samples in ascending order, the maximum bounds all samples, and at most n-1-floor(0.95n) samples exceed the 95th percentile. |
| FrameGate.PercentileBoundsOverBudget | scripts/test-client-frame-budget.py:39-44 | A 95th percentile below the budget bounds the number of frames that are not below it. |
| FrameGate.SortAscends | scripts/test-client-frame-budget.py:42 | Sorting gives an ascending list. |
| FrameGate.SortLength | scripts/test-client-frame-budget.py:42 | Sorting keeps the multiset of values. |
| FrameGate.EvaluateAll | scripts/test-client-frame-budget.py:117-148 | The loop reports every case in order, or stops at the first case that cannot be verified. |
| FrameGate.EvaluateSpelled | scripts/test-client-frame-budget.py:117-148 | A case is reported if and only if it has two frames, all readings, ascending times, CPU within the whole frame, continuity everywhere and one continuing frame before a later completion; the report holds name, index, first frame, the three statistics, the rate over the continuing intervals and both counts. |
| FrameGate.ProblemSpelled | scripts/test-client-frame-budget.py:117-139 | Every other case fails with the problem of the first check that it does not meet, in the order of the script. |
| FrameGate.StatisticsSpelled | scripts/test-client-frame-budget.py:39-44 | The statistics are the number of samples and, of the samples in ascending order, those at n/2, 95n/100 and 99n/100 (rounded down) and the last. |
| FrameGate.GapsSpelled | scripts/test-client-frame-budget.py:136 | The intervals are the differences of completions behind exactly the continuing frames, in order. |
| FrameGate.GapsForceRate | scripts/test-client-frame-budget.py:136-146 | Continuing intervals below 1000/target already mean more frames per second than the target. |
| FrameGate.VerdictMeans | scripts/test-client-frame-budget.py:117-147 | A measured case passes if and only if every whole frame is below the budget and every continuing interval below the cadence, which is if and only if both counts are zero. |
| FrameGate.GapsSpan | scripts/test-client-frame-budget.py:136 | Continuing and idle gaps together are the time from the first completion to the last. |
| Utf8Fixture.MakeSweep | benchmarks/gpu-lexer/make-sweep.py:8-20 | The loops produce, for the sizes 8 to 8192 and each source, the row with padding and bytes of the fixture. |
| Utf8Fixture.RowsSpelled | benchmarks/gpu-lexer/make-sweep.py:8-20 | Row by row: the sizes 8, 16, … 8192 and for each all sources in order; every row holds valid UTF-8 of its size that ends in as many spaces as its padding says, behind the longest whole-character front part of a valid source. |
| Utf8Fixture.FixtureExact | benchmarks/gpu-lexer/make-sweep.py:12-17 | For every source, valid or not, and every size the fixture is valid UTF-8 of exactly that many bytes. |
| Utf8Fixture.FixtureKeepsPrefix | benchmarks/gpu-lexer/make-sweep.py:12-17 | For a valid source the fixture is the longest front part of whole characters that fits, then spaces, at most three when the source is long enough. |
| Utf8Fixture.FixtureSpelled | benchmarks/gpu-lexer/make-sweep.py:12-17 | For any source: what can be decoded of the first bytes, encoded again, and then spaces. |
| Utf8Fixture.StrayDropped | benchmarks/gpu-lexer/make-sweep.py:13 | A byte that starts no character is dropped, and the text on both sides of it is read. |
| Utf8Fixture.FrontDropped | benchmarks/gpu-lexer/make-sweep.py:13 | So is the front of a character whose later bytes are missing, and the next character is read. |
| Utf8Fixture.EncodeSpelled | benchmarks/gpu-lexer/make-sweep.py:17 | The bytes of a character by their values: how many, in which ranges, and that their low bits are the character. |
| Utf8Fixture.EncodedValid | benchmarks/gpu-lexer/make-sweep.py:13-17 | The encoding of any text is valid and decodes to that text. |
| Utf8Fixture.ValidDecodes | benchmarks/gpu-lexer/make-sweep.py:13 | Valid bytes decode to a text that encodes to them. |
| QuantizedWeights.Decode | benchmarks/gpu-lexer/extract.py:29-36 | The loops over segments and characters compute the decoding, with the slices of the script. |
| QuantizedWeights.AlphabetBijective | benchmarks/gpu-lexer/extract.py:33-35 | Characters of the alphabet and the levels -32 to 31 correspond one to one. |
| QuantizedWeights.WeightSpelled | benchmarks/gpu-lexer/extract.py:29-36 | With ascending ends the weight at every position of the text is the level of the character there times the scale of the first segment that ends behind it. |
| QuantizedWeights.DecodeEncoded | benchmarks/gpu-lexer/extract.py:29-36 | Decoding the encoding of any list of tensors gives every level times the scale of its own tensor. |
| QuantizedWeights.LengthIsLastEnd | benchmarks/gpu-lexer/extract.py:31-37 | For any text and any table the decoder gives at least as many weights as the last end says (within the text), and exactly as many if and only if the ends ascend. |
| Identifier.Identify | scripts/test-chat-navigation.py:20-27 | The 26-step loop computes the last 26 base-32 digits, highest first. |
| Identifier.DigitsSpelled | scripts/test-chat-navigation.py:21-26 | Each character is the one of the alphabet without I, L, O and U at the base-32 digit of its place, highest place first. |
| Identifier.IdentifierReads | scripts/test-chat-navigation.py:20-27 | For every 128-bit number: 26 alphabet digits that read back to the number, the first at most `7`. |
| Identifier.IdentifiersOrdered | scripts/test-chat-navigation.py:20-27 | Identifiers compare as strings exactly as their numbers do. |
| StagedBinaries.Stager.StageBinaries | scripts/package-macos-client.py:83-123 | The loops over components and helpers carry out the plan in order: folders and links are made only where nothing is, files are written over files or through links, and the staging stops at the first action that cannot be done. |
| StagedBinaries.Stager.StageHelper | scripts/package-macos-client.py:89-122 | One helper: folders, binary or alias link, launcher, icon, Info.plist, entry point, siblings. |
| StagedBinaries.RelPathLeads | scripts/package-macos-client.py:99 | A relative link computed from one directory to a target leads from that directory to the target. |
| StagedBinaries.PathTextDetermines | scripts/package-macos-client.py:83-123 | Different paths of single components are different texts, so no two places are one place in the file system. |
| StagedBinaries.PlannedSegments | scripts/package-macos-client.py:83-123 | Every place that a good table plans is a path of single components. |
| StagedBinaries.StagingSucceeds | scripts/package-macos-client.py:83-123 | For every good table the staging never creates a path twice, and each planned path exists with its node. |
| StagedLayout.HelperStaged | scripts/package-macos-client.py:89-118 | For every good table and each helper, path by path: two folders, binary, launcher for an alias, icon, Info.plist with role, executable, reused name, icon and local network, and the entry point with its relative link. |
| StagedLayout.AliasStaged | scripts/package-macos-client.py:96-99 | A helper that reuses a Station binary holds the link `../../../ZorkStation.app/Contents/MacOS/` with the name from the table. |
| StagedLayout.SiblingStaged | scripts/package-macos-client.py:119-121 | Every other component and alias stands beside its binary as the link `../../../../MacOS/` with its name. |
| StagedLayout.ComponentStaged | scripts/package-macos-client.py:86-88 | Every component that is no helper is a binary in the main folder. |
| StagedLayout.NothingElse | scripts/package-macos-client.py:83-123 | No other path is created. |
| StagedLayout.PutThrough | scripts/package-macos-client.py:101-105 | A file copied onto a link lands where the link leads: on a file or in a folder, not on a folder, and nowhere for a link to itself. |
| StagedLayout.ProductStaged | scripts/package-macos-client.py:27-30 | With the tables of the script: the three plain binaries, Supervisor and Station with their Info.plist, binaries and entry points, and the service watch with its launcher and the link to the Station binary. |
| StagedBinaries.EntryResolves | scripts/package-macos-client.py:117-118 | Every entry point in the main folder leads in one step to its binary, or to the launcher for an alias. |
| StagedBinaries.SiblingResolves | scripts/package-macos-client.py:119-121 | In every helper each sibling name leads in two steps to the binary, or to the launcher for an alias. |
| StagedBinaries.OwnResolves | scripts/package-macos-client.py:96-101 | The name of a helper inside its own bundle leads to its binary, or for an alias to the Station binary it reuses. |
| StagedBinaries.ProductIsGood | scripts/package-macos-client.py:27-30 | The tables of the script are good. |

## Left out

- CanonicalizerMeaning.MeaningKept: for one given program the condition on declared names is sufficient, not
  necessary, because a body may never reach its declarations, so the exact condition of one program depends on its
  runs; `HarmlessExactly` is exact for the update and the declared names, over all bodies and machines, and leaves out
  updates with `&&` or `||`, whose right operand may never be evaluated.
- ShaderMeaning.MoreFuel: the semantics has no `switch`, no `continuing` block, no pointers to local variables and no
  barriers; the canonicalized shaders use the first three nowhere, and each lane is a sequential program here.
- CanonicalizerFiles.FileKeepsMeaning: works on tokens, not characters; comments may stand between statements and must
  hold no bracket, `;` or `for`; `else if` is written as `else` with a block, and declarations without a value or with
  a type are not in the grammar; the shaders of the repository have none of these. Expressions carry no precedence:
  every tree that prints a text counts as a reading of it.
- LayoutRefinement.LayoutRefines: the locals of a function share one scope, calls have no effects, addresses are
  values of the machine, and one lane runs alone, so the barriers around the shared array are not modelled; names of
  parameters are part of the text in front of a body.
- LayoutText.SubStmt: text without comments; as in the shader that the script reads, white space stands between
  statements, around operators and in front of brackets of statements only, declarations have a value and no type, and
  an index stands behind a name. Expressions carry no precedence: every tree that prints a text is a reading of it.
- LayoutMisreads.StepsExactly: says when each step is right on the text that the steps before it should have left, not
  which wrong steps are wrong together.
- DenseLayers.RewrittenLayersAgree: index expressions are unbounded integers, all of which stay below 41321; the
  assertions that each text occurs exactly once are not modelled, because the shader text around the layers is not.
- FrameGate.VerdictMeans: exact arithmetic instead of floating point; the checks of report metadata before the loop
  over the cases are guards that one branch settles.
- QuantizedWeights.DecodeEncoded: exact arithmetic instead of 64-bit products rounded to 32 bits.
- StagedBinaries.Stager.StageBinaries: copying onto an existing folder stops the model where the copy commands would
  copy into it; parent folders are not recorded, and of Info.plist neither display names nor versions are.
- EventStandard.StandardUnlessKept: bytes that are not UTF-8, which stop the readers, and a leading byte order mark,
  which hides the first line from them, are outside its streams; `id` and `retry` fields are read and ignored, because
  they show in no event.
- BrowserRuntime.Runtime.Call: writing to the process, its environment and trace output are not modelled beyond the
  list of sent requests; a message that is no JSON object fails the call with one error for all its kinds.
- The change of one `select` into a branch that produces the validated shader: a single textual replacement.
- Process launching, HTTP, sockets, signing, timing waits and the protocols exercised by the process tests.
- Build-storage pruning, boundary checks, report generators and packaging metadata: guards and formatting.
