# Verified models of the bytecode machine, the markup parsers, the square root and the browser

Dafny models of the four parts of this repository whose answers have to match a simple
specification although they are computed by stateful code, with proofs of what the code does.
`dafny verify dfyconfig.toml` checks everything.

Each stateful part appears twice: as a class whose fields are updated in place, with the loops and
the recursion of the source, and as functions on values. Every method of the classes is proved to
compute what the functions say; the theorems are proved about the functions, for all inputs.

**Bytecode machine** (`virtual-stack-machine.cpp/.h`; modules `Vm*`). A pointer is an index into
the sequence of all objects of its class, null is `None`. `VmSemantics` is the interpreter as
functions on the whole machine state, `VmMachine` the same as a class. A run ends in a status:
`Running` (it came back), `Thrown` (a call of something that is no function), `Wrong` (undefined
behaviour: an access outside the stack, the use of something uninitialized, a wild pointer) or `Overflow`
(`codeInterpret` calls itself, and `depth` bounds that native recursion). `VmProgram` holds the
language the emitted code is for (`x = e` and `x = f(e1, ..., en)` at the top, functions whose body
is a list of local assignments and one return), its code generator and its evaluator; names are
looked up lazily by the machine and eagerly by the evaluator. The evaluator keeps track of the
functions that wait for a call to return, so it covers every chain of calls that does not come back
to itself, in whatever order the functions are defined; as the language has no branches, a chain
that does never ends. `VmSetup` is `generateCode` for an arbitrary program, `VmMain` the whole way
from a new context to its globals. `VmBinding`, `VmBoundRuns`, `VmParameters` and `VmCallTree` say
when parameters can be relied on, `VmReentry` holds a run in which they cannot. `VmThrows` says in
which exception a run ends that comes to the call of an undefined name, `VmCorners` what becomes of
the name of a function that is assigned or added and of code behind a return. `VmLoading` ends with
the sample program of the source: its instructions come out as listed there, and a ends as 20.

Three places are modelled as they are meant: `pushDatum` (line 140) copies the datum into the slot as
its sisters do, `Symbol.entry.value` starts as null, and the assignment to an existing global (line 65)
copies the value. Kept as they are: CALL leaves the function slot under its result, RETURN does not
leave the loop, parameter symbols are shared by all calls of a script, a local's slot number is eight
bits wide. The `u` of a datum is a struct: a number read from a literal still points to the literal's
atom, so calling it throws, while calling a computed number reads an uninitialized pointer; ADD reads
0 from a function. The `slot` of a symbol that was never bound is uninitialized.

**HTML parser** (`parser/htmlParser.cpp`, `skia/jsGUI/htmlParser.h`; modules `Html*`). The functions
work on the live text, that is the lookahead character and what is unread. `Hang` is a string scan
that never returns, `LengthError` the exception of a slice of negative length. `HtmlCanonical` says
which sources the parser is meant for: white space and attributes without values are allowed, since
the theorems say exactly what they do to the slices, and so are quoted strings and stray close tags
in the text. Broken begin tags and missing close tags have lemmas of their own. `HtmlDom` relates the object tree filled in
place to a tree value.

**XML parser** (`parser/xmlParser.cpp`; modules `Xml*`), in the same style. A child's close tag is
left as current token and read again by the parent, which is why the round trip holds exactly for
trees in which no child but the last of an element bears the element's own name. `XmlText` says
character by character what becomes of a text: white space goes, and each name gets a blank in front.

**Square root** (`cmake/MathFunctions/mysqrt.cxx`; module `Newton`) over exact reals, with the table
as six-digit decimals, which is how `MakeTable.cxx` prints it.

**Browser** (`skia/jsGUI/SimpleBrowser.cpp`; modules `LevelOrder`, `Browser*`). Loading a page,
building its draw tree and id index, `setAttribute`, painting and hit test. The canvas is the
sequence of what is drawn on it; `BrowserCanvas` says what has to be on it, and what a click finds there. Scripts and `onclick` evaluation are treated as no-ops that succeed.

Properties that turned out false are stated with the exact condition under which they hold:
the end of an HTML parse, HTML slices at the end of the source and behind untidy begin tags, the XML
round trip, parameter binding (over whole runs, with a function called with itself as a run in which
it fails), a call as the value of a local assignment, the texts that come back from XML, the id index after a change of an id, and how far
ten passes bring the square root of an argument outside the table.

## Model

| member | source | states |
|---|---|---|
| VmMachine.Context.FindSymbol | virtual-stack-machine.cpp:250-260 | walking the chain of a scope and then those of its parents finds the same symbol as the recursive lookup: the first with the atom, nearest scope first |
| VmMachine.Context.Resolve | virtual-stack-machine.cpp:167-248 | a name becomes its symbol, a symbol the value in its property, in itself or in the slot of the innermost active frame of its scope; a name out of scope stays a name |
| VmMachine.Context.Add | virtual-stack-machine.cpp:72-82 | both operands are resolved where they lie on the stack, and their sum replaces them; a function counts as 0, a name as undefined behaviour |
| VmMachine.Context.AssignTo | virtual-stack-machine.cpp:41-70 | the four targets of an assignment: new global, new local kept on the stack, property or global, argument or local slot |
| VmMachine.Context.BindArgs | virtual-stack-machine.cpp:113-120 | the loop over the parameter symbols resolves each argument and binds each symbol, as far as there are arguments |
| VmMachine.Context.Enter | virtual-stack-machine.cpp:94-120 | the function slot is resolved; a name, a symbol without a frame and a number read from a literal throw; otherwise the new frame and scope are those the functions describe |
| VmMachine.Context.Leave | virtual-stack-machine.cpp:125-129 | the frame is taken down, the stack cut back to the arguments, a result pushed |
| VmMachine.Context.Exec | virtual-stack-machine.cpp:28-132 | one instruction changes the context exactly as on values, calls included |
| VmMachine.Context.CodeInterpret | virtual-stack-machine.cpp:15-135 | the whole loop, at any nesting of calls, leaves the state and the result that the functions give |
| VmMachine.Context.AddParameters | virtual-stack-machine.cpp:303-306 | the parameter symbols of a script, new ones, chained with the first parameter at the head |
| VmMachine.Context.LoadFn | virtual-stack-machine.cpp:286-325 | one function: script, parameter symbols, function object, and its property symbol at the head of the outermost scope |
| VmMachine.EmitScript | virtual-stack-machine.cpp:286-302 | a new script of the fixed size holds exactly the bytes of its instructions |
| VmMain.RunProgram | virtual-stack-machine.cpp:7-14 | `main` for any program: a new context ends with exactly the globals the evaluator gives the program; if the program comes to the call of an undefined name instead, that name is what is thrown |
| VmEmit.ScriptBuffer.Emit1 | virtual-stack-machine.cpp:261-266 | one byte more at the end, nothing else changed |
| VmEmit.ScriptBuffer.Emit2 | virtual-stack-machine.cpp:267-273 | two bytes more at the end, nothing else changed |
| VmEmit.ScriptBuffer.EmitAll | virtual-stack-machine.cpp:281-285 | a list of instructions that fits is appended in order |
| VmEmit.FetchEncoded | virtual-stack-machine.cpp:24-33 | the fetch at the place of an emitted instruction reads that instruction and its size, whatever stands around it |
| VmEmit.RunEncoded | virtual-stack-machine.cpp:17-33 | emit/fetch round trip: the loop over emitted bytes executes exactly the emitted list, in order, and ends at its end |
| VmIsolation.RunKeeps | virtual-stack-machine.cpp:15-135 | depth-checked code never touches what lies below its own slots, nor the links and the frames it found |
| VmIsolation.CallIsolation | virtual-stack-machine.cpp:94-131 | a call gives back frame link and static link, leaves every slot below the function slot alone, and cuts the stack back to that slot and at most a result, at any nesting |
| VmRuns.RunInduction | virtual-stack-machine.cpp:22-133 | what every instruction keeps in all the states it visits, every run keeps |
| VmBinding.BindArgsBinds | virtual-stack-machine.cpp:115-120 | binding changes scope and slot of the parameters it reaches, in turn, and nothing else of any symbol |
| VmBinding.EnterBoundIff | virtual-stack-machine.cpp:103-120 | a call leaves all active frames in possession of their parameters if and only if it does not take them from an older frame of the same script |
| VmBinding.ParametersStayBound | virtual-stack-machine.cpp:111-124 | in every state of a run in which no call takes the parameters of an active frame, every active frame owns its parameters; no parameter chain gets longer |
| VmBinding.TakesReenters | virtual-stack-machine.cpp:111-119 | only a call that enters a script of which a frame is active can take parameters |
| VmBoundRuns.RunBoundIff | virtual-stack-machine.cpp:94-131 | for any run: all visited states, and all states visited calls enter, have their active frames in possession of their parameters if and only if no visited call takes those of an active frame |
| VmBoundRuns.EndedRunBoundIff | virtual-stack-machine.cpp:94-131 | for a run that comes to its end, with no empty script, the visited states alone are so if and only if no visited call takes the parameters of an active frame |
| VmBoundRuns.CallsBegin | virtual-stack-machine.cpp:22-131 | in a run that comes to its end every visited call is entered, and the state in which its callee begins is visited |
| VmBinding.ParameterReadsArgument | virtual-stack-machine.cpp:203-222 | in a sound state a bound parameter without a value of its own resolves to the owning frame's argument, from any frame above it |
| VmParameters.AssignBareIff | virtual-stack-machine.cpp:36-70 | an assignment leaves all parameters arguments without a value of their own if and only if it is not one to a parameter outside all calls |
| VmParameters.ParametersStayBare | virtual-stack-machine.cpp:15-135 | in every state of a run without such an assignment all parameters are arguments without a value of their own, however calls nest and reenter |
| VmParameters.ParametersReadTheirArguments | virtual-stack-machine.cpp:203-222 | in every state of a run in which no call takes parameters of an active frame and no assignment sets one outside all calls, every active frame with enough arguments reads its own under its parameters |
| VmCallTree.MeaningIsTame | virtual-stack-machine.cpp:94-131 | the run of a program the evaluator gives a meaning never enters an active script again and never assigns to a parameter outside all calls |
| VmReentry.SelfApplicationReenters | virtual-stack-machine.cpp:98-124 | a function that calls its own argument, called with itself: the run reaches a sound state with all parameters bound, whose call takes the parameter from the active frame, and ends in the exception of calling the literal 7 |
| VmThrows.ProgramThrows | virtual-stack-machine.cpp:94-101 | a program whose statements have meanings up to a call of an undefined name, directly or in the tail call of functions called, ends in the exception for exactly that name |
| VmThrows.UndefinedCallThrows | virtual-stack-machine.cpp:99-101 | written out for a call in the main program: the statements before it have a meaning, its arguments have values, its name is neither a global by then nor a function |
| VmThrows.UndefinedTailThrows | virtual-stack-machine.cpp:99-101 | written out for the tail call of a function that is called |
| VmThrows.NoFunctionThrows | virtual-stack-machine.cpp:98-101 | what CALL makes of every function slot that resolves to no function: the name thrown, or undefined behaviour |
| VmCorners.FunctionOverwritten | virtual-stack-machine.cpp:59-63 | assigning to the name of a function leaves it reading the number, and every other name what it read before |
| VmCorners.FunctionAddsNothing | virtual-stack-machine.cpp:72-82 | in a sum the name of a function counts 0 |
| VmCorners.RunGoesOnBehindReturn | virtual-stack-machine.cpp:83-92 | code behind a return is run, on the state without the result |
| VmCorners.BytesSkipped | virtual-stack-machine.cpp:28-133 | a byte that is no opcode is skipped, and so is a RETURN that announces no value |
| VmCorners.OutOfScopeStays | virtual-stack-machine.cpp:203-248 | a parameter or local whose scope no active frame has resolves to itself |
| VmLoading.SampleSum | virtual-stack-machine.h:9-17 | the first statement of the sample program as bytes, with the opcodes numbered as in the header |
| VmLoading.SampleCallBytes | virtual-stack-machine.h:9-17 | the call in the second, with its operand |
| VmLoading.SampleReturnBytes | virtual-stack-machine.h:9-17 | the return of its function |
| VmExpressions.ExprRuns | virtual-stack-machine.cpp:30-34 | emitted expression code leaves one datum that denotes the evaluator's value, though names are looked up only when popped |
| VmExpressions.ArgsRun | virtual-stack-machine.cpp:309-311 | the code of n arguments leaves n such data in order |
| VmBodies.LetRuns | virtual-stack-machine.cpp:35-70 | a local assignment overwrites the slot of its name or makes the slot behind the locals its own |
| VmBodies.LetsRun | virtual-stack-machine.cpp:35-70 | all assignments of a body: each name ends up with the evaluator's value in its slot, nothing older is touched |
| VmBodies.LocalSlots | virtual-stack-machine.cpp:44-51 | between statements the stack pointer is vars + nvars, the slots 0 to nvars - 1 belong one to one to the declared names, and each holds the value last assigned |
| VmCalls.EnterRuns | virtual-stack-machine.cpp:94-120 | entering a function resolves all its arguments to their numbers although its parameters are rebound meanwhile |
| VmCalls.CalleeStarts | virtual-stack-machine.cpp:108-120 | the callee starts with its parameters, bound to the arguments, as its only locals |
| VmRefinement.FnRuns | virtual-stack-machine.cpp:94-130 | CALL comes back with the number the evaluator gives for the function and its arguments, through any chain of different functions |
| VmRefinement.TopRuns | virtual-stack-machine.cpp:281-313 | a top-level statement sets its global to the evaluator's number and keeps all others |
| VmRefinement.InterpreterRefinesEvaluator | virtual-stack-machine.cpp:15-135 | interpreting the bytes of a program ends with exactly the evaluator's globals |
| VmLoading.LoadedAtTop | virtual-stack-machine.cpp:315-325 | loading functions into a fresh context makes their names, and only them, known, each with parameters of its own |
| VmLoading.ProgramRuns | virtual-stack-machine.cpp:7-14 | from a fresh context to the final globals: every name has the evaluator's number, nothing else is a global |
| VmLoading.SampleEndsWithTwenty | virtual-stack-machine.cpp:274-325 | the sample program, with a stack of 1000, leaves a as 20 |
| VmLoading.LoadedIsSound | virtual-stack-machine.cpp:286-325 | every loaded program, whatever its functions, meets the conditions of the theorems on parameter binding, and none of its scripts is empty |
| VmLoading.ProgramKeepsParameters | virtual-stack-machine.cpp:7-14 | from a fresh context, in every state of the run of a program with a meaning, no call reenters and every active frame reads its own arguments |
| VmLimits.EmittedCodeIsChecked | virtual-stack-machine.cpp:274-326 | all code emitted in these shapes is depth-checked, so call isolation applies to it |
| VmLimits.NewLocalReadsIff | virtual-stack-machine.cpp:46-51 | a new local reads its value if and only if the stack pointer stands at vars + nvars, of which the second is cut to eight bits, or the slot there happens to hold the same |
| VmLimits.LetOfCallIff | virtual-stack-machine.cpp:36-70 | a call as the value of a local assignment: afterwards the name reads the number returned if and only if it had a slot before; either way the stack pointer is one slot past the locals |
| VmLimits.LocalAfterLetOfCallIff | virtual-stack-machine.cpp:46-51 | a new local declared in that state reads its value if and only if the datum left below the stack pointer has the same value |
| VmLimits.LetOfCallReadsTheFunction | virtual-stack-machine.cpp:98-129 | a new name assigned a call is the function instead of the number returned, whatever is active and bound |
| HtmlMachine.HtmlParser.GetStrChar | parser/htmlParser.cpp:35-42 | the next character and both cursors one on, or EOF and nothing moved |
| HtmlMachine.HtmlParser.GetTok | parser/htmlParser.cpp:43-93 | the tokenizer's loops return the token of the live text and leave the live text behind it, or never return |
| HtmlMachine.HtmlParser.ScanString | parser/htmlParser.cpp:54-64 | a string scan hangs if and only if no quote follows from its second character on |
| HtmlMachine.HtmlParser.ParseAttributes | parser/htmlParser.cpp:107-131 | the attribute loop: first value of a key wins, content start behind the last value, stops at the first error |
| HtmlMachine.HtmlParser.Close | parser/htmlParser.cpp:158-167 | the slice between the two cursors, or the length error |
| HtmlMachine.HtmlParser.ParseTag | parser/htmlParser.cpp:101-168 | the element is filled in place with what the grammar says, its new descendants being fresh and distinct objects |
| HtmlMachine.HtmlParser.ParseHtml | parser/htmlParser.cpp:178-191 | the result depends on the source alone, not on what earlier parses left in the tokenizer |
| HtmlMachine.HtmlParser.ParseHtmlToDOM | parser/htmlParser.cpp:170-177 | the same for a fragment parsed into an element that is in a tree already |
| HtmlDom.AppendChild | skia/jsGUI/htmlParser.h:19-25 | one more child at the end of a list of distinct object trees: the list holds one more value |
| HtmlRoundTrip.PassText | parser/htmlParser.cpp:141-157 | text without tags and quotes is passed over, up to the tag or quote behind it |
| HtmlRoundTrip.PassMark | parser/htmlParser.cpp:139-157 | quoted strings, close tags of another name and, in a script, anything like a tag are passed over |
| HtmlRoundTrip.PassAttributes | parser/htmlParser.cpp:106-131 | the attribute loop on printed attributes: the attribute map, and the content start behind the last value |
| HtmlRoundTrip.ParseElement | parser/htmlParser.cpp:101-168 | any canonical element anywhere in a source: where the parser stops, and the tree, slice and texts it leaves |
| HtmlRoundTrip.MissingValue | parser/htmlParser.cpp:117-124 | an attribute with an equals sign and no quoted value: the element keeps the attributes listed before, and gets no content |
| HtmlRoundTrip.StrayInTag | parser/htmlParser.cpp:107-136 | the same for any other token that stands where a key or the `>` is due, and for the end of the source |
| HtmlRoundTrip.UnclosedElement | parser/htmlParser.cpp:139-167 | an element of text whose close tag is missing: the slice lacks as many characters as the close tag has and one more, or the length error |
| HtmlRoundTrip.BadTagEnds | parser/htmlParser.cpp:66-76 | a `<` without a name behind it ends a content like the end of the source |
| HtmlTheorems.RoundTrip | parser/htmlParser.cpp:178-191 | a printed html element with something behind it parses to the tree it stands for |
| HtmlTheorems.RoundTripIff | parser/htmlParser.cpp:178-191 | for every canonical html element and whatever follows: names, attribute maps, child order, texts and slices all come back if and only if every begin tag is tidy and what follows begins with a token, or nothing follows and the root makes up for the lost character; it hangs if and only if what follows opens an unclosed string, and throws if and only if nothing follows and there is nothing to cut |
| HtmlTheorems.RoundTripAtEnd | parser/htmlParser.cpp:158-167 | with nothing behind it the root's own slice is one character short, or the length error when empty |
| HtmlTheorems.ElementIff | parser/htmlParser.cpp:178-191 | any source: an element called html if it opens with an html tag and the parse ends, null otherwise, unless the first token never ends |
| HtmlTheorems.TidyIff | parser/htmlParser.cpp:106-167 | slices and leaf texts of the whole tree are what stands between the tags if and only if every begin tag in it is tidy |
| HtmlTheorems.Locality | parser/htmlParser.cpp:101-168 | in any two sources with something behind it, an element is parsed to the same tree, stopping right behind its own close tag |
| HtmlTheorems.SliceExactIff | parser/htmlParser.cpp:101-168 | any canonical element, with anything or nothing behind it: the slice is the content if and only if something follows and the begin tag is tidy, or nothing follows, the begin tag has one character too many and the content is nothing but `>` |
| HtmlTheorems.TreeAtEndIff | parser/htmlParser.cpp:158-191 | from the very end of a source the wanted tree comes back under exactly that second condition |
| HtmlTheorems.SliceExactIffFollowed | parser/htmlParser.cpp:158-167 | with a tidy begin tag the slice is exact if and only if something follows the close tag, at any depth and with same-named descendants |
| HtmlTheorems.FragmentReplaced | parser/htmlParser.cpp:170-177 | a fragment of elements becomes the element's child list, its name and attributes kept, its slice one character short |
| HtmlTheorems.FragmentOfText | parser/htmlParser.cpp:170-177 | a fragment of text alone loses its last character, the empty fragment throws |
| HtmlTheorems.AttributeMapIsFirst | parser/htmlParser.cpp:117-127 | of several attributes with one key the first counts, "true" where it has no value, and no other key is stored |
| HtmlTrees.TreeRoundTripIff | parser/htmlParser.cpp:178-191 | print, then parse: every tree of names, quotable values and plain texts comes back in names, attributes, texts and child order, and as a whole if and only if its slices are the printed contents |
| HtmlTermination.UnclosedIff | parser/htmlParser.cpp:54-64 | a token scan fails to end if and only if it opens a string that nothing closes from its second character on |
| HtmlTermination.TagHangsIff | parser/htmlParser.cpp:101-168 | a call of `parseTag`, on any input, fails to end if and only if one of the scans it makes opens a string that nothing closes; then the token stream ahead holds such a scan |
| HtmlTermination.ParseHtmlHangsIff | parser/htmlParser.cpp:178-191 | the scans of a parse are the token stream from the start on, and the parse fails to end if and only if one of them opens a string that nothing closes; a source whose token stream has no such string is always parsed |
| XmlMachine.XmlParser.GetTok | parser/xmlParser.cpp:18-54 | the tokenizer's loops return the token of the live text, or throw |
| XmlMachine.XmlParser.ParseXml | parser/xmlParser.cpp:79-113 | the loop and its recursion build the node the grammar says |
| XmlMachine.ParseDocument | parser/xmlParser.cpp:115-126 | the whole of `main`, up to printing |
| XmlText.NormalIdempotent | parser/xmlParser.cpp:100-107 | what is rebuilt from the tokens of a text rebuilds to itself, even where a name and following digits merge |
| XmlText.RebuildAcross | parser/xmlParser.cpp:100-107 | rebuilding goes on across any boundary that does not continue a name |
| XmlText.NormalIsSpaced | parser/xmlParser.cpp:100-107 | any text: its characters but the white space come back, with a blank in front of each at which a name begins, unless it is the first |
| XmlText.NormalIff | parser/xmlParser.cpp:100-107 | a text comes back as it is if and only if its white space is single blanks inside it, each in front of a letter, and every name but one at the start has a blank in front |
| XmlText.WordsComeBack | parser/xmlParser.cpp:100-107 | words of letters and digits that begin with a letter, one blank between any two, come back as they are |
| XmlRoundTrip.ParseGood | parser/xmlParser.cpp:79-113 | where same-named children stand last, the tree comes back with the close tags that are still unread |
| XmlRoundTrip.ParseBad | parser/xmlParser.cpp:85-94 | where they do not, another tree comes back, or an error |
| XmlRoundTrip.RoundTripIff | parser/xmlParser.cpp:115-126 | a source, whatever follows it, parses to the tree it stands for if and only if no child but the last of an element bears the element's own name, and what follows begins with a token unless close tags are still unread |
| XmlRoundTrip.TreeRoundTripIff | parser/xmlParser.cpp:79-126 | print, then parse: the same tree, under exactly that condition, for every tree whose texts are clean in the sense of `XmlText.NormalIff` |
| XmlRoundTrip.DocumentIff | parser/xmlParser.cpp:115-126 | any source: an answer is a tree if and only if the source opens with an xml tag, and there is an answer whenever every tag in the source has a name |
| XmlRoundTrip.LexThrowsIff | parser/xmlParser.cpp:30-45 | a token scan throws if and only if it meets a tag without a name |
| XmlRoundTrip.UnclosedElement | parser/xmlParser.cpp:84-113 | an element of text whose close tag is missing is parsed to the tree it would have been |
| Newton.MySqrt | cmake/MathFunctions/mysqrt.cxx:8-30 | ten passes from the table or from x, each of them the Newton step; the guard never fires |
| Newton.TableIsRounded | cmake/MathFunctions/MakeTable.cxx:16-22 | the table holds the roots of 0 to 9, rounded to five decimals, and a closing zero |
| Newton.ClosedForm | cmake/MathFunctions/mysqrt.cxx:21-28 | (r - s)(r0 + s)^(2^k) = (r + s)(r0 - s)^(2^k) after k passes |
| Newton.FromAboveNeverUp | cmake/MathFunctions/mysqrt.cxx:21-28 | from the first pass on the value is no smaller than the root and never goes up |
| Newton.ErrorFromX | cmake/MathFunctions/mysqrt.cxx:14-28 | started from x, k passes leave an error of at most ((x - 1) / 2^k)^2 |
| Newton.ErrorOutsideTable | cmake/MathFunctions/mysqrt.cxx:14-30 | below 1 and from 10 on: 0 <= r^2 - x <= ((x - 1) / 1024)^2 |
| Newton.FarFromRootIff | cmake/MathFunctions/mysqrt.cxx:14-28 | k passes from x = s^2 end at c s or above if and only if (c + 1)(s - 1)^(2^k) >= (c - 1)(s + 1)^(2^k) |
| Newton.CallFarFromRootIff | cmake/MathFunctions/mysqrt.cxx:14-30 | for which arguments outside the table the result is off by a factor c or more: a condition on the root alone, with exponent 1024 |
| Newton.FarStaysFar | cmake/MathFunctions/mysqrt.cxx:20-30 | from 1 on that condition has one threshold: what holds of a root holds of all larger ones |
| Newton.FarStaysFarBelow | cmake/MathFunctions/mysqrt.cxx:20-30 | and below 1 as well: what holds of a root holds of all smaller ones |
| Newton.LargeArgumentsMissed | cmake/MathFunctions/mysqrt.cxx:20-30 | from 2^22 on the result is at least twice the root |
| Newton.SmallArgumentsMissed | cmake/MathFunctions/mysqrt.cxx:20-30 | up to 2^-22 the result is at least twice the root |
| Newton.MediumArgumentsMet | cmake/MathFunctions/mysqrt.cxx:20-30 | outside the table from 1/(3 2^20) to 3 2^20 the result is at least the root and less than twice the root |
| Newton.ErrorFromTable | cmake/MathFunctions/mysqrt.cxx:15-28 | from the table the error is at most 63 times 1/5 squared k times over |
| Newton.ErrorOfTableResult | cmake/MathFunctions/mysqrt.cxx:15-30 | so a result served by the table has 0 <= r^2 - x <= 63 / 5^1024 |
| Newton.ExactIff | cmake/MathFunctions/mysqrt.cxx:21-28 | a value is the exact root if and only if the starting value was |
| Newton.ExactArguments | cmake/MathFunctions/MakeTable.cxx:16-21 | the result is exact for 1, 4, 9 and the squares of the table entries for 5, 6 and 8 that their own cell serves, and for nothing else |
| LevelOrder.WorklistIsLevels | skia/jsGUI/SimpleBrowser.cpp:154-178 | a worklist that appends the children of each visited node meets the nodes level by level |
| LevelOrder.DepthsRise | skia/jsGUI/SimpleBrowser.cpp:272-287 | nothing met later lies higher up |
| LevelOrder.EveryNodeOnce | skia/jsGUI/SimpleBrowser.cpp:272-287 | every node is met exactly once, at its own depth: a permutation of document order |
| BrowserCanvas.ClickAgreesWithPaint | skia/jsGUI/SimpleBrowser.cpp:154-288 | the rectangle painted for a component covers the point if and only if the component holds it; the hit is the last in the order of painting that holds the point, hence of greatest depth; no hit means no component holds it; where all have a background the hit is the component of the last rectangle on the canvas that covers the point |
| BrowserCanvas.PaintShows | skia/jsGUI/SimpleBrowser.cpp:154-178 | on the canvas each component has its background, 40 below its place, and its text, at the stated place, size and colour, each once if it has one, the text behind the background, and all of it before anything of a later component |
| BrowserCanvas.ShownIsPainted | skia/jsGUI/SimpleBrowser.cpp:154-178 | no other canvas has all that: it is determined by what must be on it |
| BrowserCanvas.ToolbarIsClear | skia/jsGUI/SimpleBrowser.cpp:163-281 | if no component lies above the page, no rectangle begins above 40 and no click above 40 hits anything |
| BrowserDraw.WorklistsAgree | skia/jsGUI/SimpleBrowser.cpp:154-178 | the worklist over the component objects meets, place by place, components that look as the worklist over the tree of looks says |
| Browser.SimpleBrowser.DomToDiv | skia/jsGUI/SimpleBrowser.cpp:508-552 | a new component with the element's style; the element is registered under its id unless the id is taken |
| Browser.SimpleBrowser.ParseDOM | skia/jsGUI/SimpleBrowser.cpp:554-581 | the components of an element, new objects throughout, come behind its parent's children; its ids are registered in document order |
| Browser.SimpleBrowser.DrawRoot | skia/jsGUI/SimpleBrowser.cpp:353-362 | a draw tree that mirrors the page without scripts, and the index with the page's ids added |
| Browser.SimpleBrowser.LoadContent | skia/jsGUI/SimpleBrowser.cpp:328-347 | after a load the page, its draw tree and an exact index are in place; an empty content only clears the index |
| Browser.SimpleBrowser.GetElementById | skia/jsGUI/SimpleBrowser.cpp:438-445 | with an exact index: null if and only if no element of the page has the id, otherwise the first in document order that has it |
| Browser.SimpleBrowser.SetAttribute | skia/jsGUI/SimpleBrowser.cpp:401-414 | the attribute is set in place, the page drawn again, and an exact index stays exact if and only if the key is not "id", or the id stays the same or is unknown |
| Browser.SimpleBrowser.OnPaint | skia/jsGUI/SimpleBrowser.cpp:147-179 | the canvas pictures all components of the draw tree, level by level: backgrounds and texts, with places, sizes and colours, in their order |
| Browser.SimpleBrowser.FindDiv | skia/jsGUI/SimpleBrowser.cpp:270-288 | the component found holds the point, 40 below its place, and is the last in the order of painting that does; if none is found, no rectangle on the canvas covers the point; where all components have a background it is that of the last rectangle that does |
| BrowserIndex.FreshIndexIsExact | skia/jsGUI/SimpleBrowser.cpp:549-550 | registering a page into an empty index gives exactly its ids, each leading to the first element that has it |
| BrowserIndex.LookupIsFirst | skia/jsGUI/SimpleBrowser.cpp:438-445 | an id is in an exact index if and only if an element has it, and leads to the first that does |
| BrowserIndex.RegisterAllFirst | skia/jsGUI/SimpleBrowser.cpp:549-550 | registering into any index keeps what is there and adds first elements only |
| BrowserIndex.PageAfterSet | skia/jsGUI/SimpleBrowser.cpp:409-412 | a changed attribute leaves the elements of the page and their order as they were |
| BrowserIndex.ExactAfterSetIff | skia/jsGUI/SimpleBrowser.cpp:401-414 | after one call on an indexed element: exact if and only if the key is not "id" or the value is the same id |
| BrowserIndex.ExactAfterRedrawIff | skia/jsGUI/SimpleBrowser.cpp:383-397 | after any change of the page, the index that is not cleared is exact if and only if all it holds still comes first |
| BrowserIndex.IndexStaysExact | skia/jsGUI/SimpleBrowser.cpp:401-414 | any number of calls on other keys than "id" leave the index as it was, and exact |
| BrowserTheorems.CanonicalPageLoads | skia/jsGUI/SimpleBrowser.cpp:344-346 | a canonical page can be loaded and drawn: every element has its children set |
| BrowserTheorems.ComponentsFollowThePage | skia/jsGUI/SimpleBrowser.cpp:554-581 | index entries, components and drawn elements correspond one to one, in document order: the entry leads to the element's own object, the component lies at the element's depth and has its style and its leaf text, none where there are child elements or at the root |
| BrowserTheorems.PageShowsItsTexts | skia/jsGUI/SimpleBrowser.cpp:554-581 | from the source: the components of a canonical page with tidy begin tags have exactly the texts printed for its elements, in document order, scripts apart |

## Left out

- VmLoading.ProgramRuns: numbers are unbounded integers; the wrap-around of the 64-bit sum is not modelled.
- VmRefinement.InterpreterRefinesEvaluator: programs without recursion, which never ends in this language, without functions as values, and without assignment to globals inside functions, where the machine writes to a frame slot by an uninitialized number.
- Newton.ErrorFromTable: exact reals; rounding of doubles is not modelled.
- Browser.SimpleBrowser.LoadContent: begins with the content; reading files and fetching addresses is left out, and the page must have a root and no element with a broken begin tag, on which the source dereferences a null pointer.
- Browser.SimpleBrowser.SetAttribute: called with the element's id; the JavaScript object in between is left out.
- Browser.SimpleBrowser.ParseDOM: scripts and `onclick` code are no-ops that succeed; the QuickJS engine is not part of this model.
- `js_setInnerHtml` as a method; its two halves are `HtmlMachine.HtmlParser.ParseHtmlToDOM` and `BrowserIndex.ExactAfterRedrawIff`.
- How `domToDiv` reads numbers and colours from attribute texts (`stoi`, `getColor`): a function from attributes to style is a parameter.
- Fonts, windows, the address bar and the drawing library behind the canvas.
- Bytes beyond 7-bit ASCII, whose class depends on the C library.
- Printing, logging, error texts, and memory that is never freed.
- The unused fields of the machine's classes, such as `Scope.props` and `Atom.fval`.
- Socket, event-loop, curl, terminal and plug-in programs, the QuickJS examples, the JIT prototype and the build files.
