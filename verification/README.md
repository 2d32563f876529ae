# fidi: a Dafny model of its request language, scheduler and linter

fidi mocks service nodes.  A request names nodes and nested downstream calls.  An instance parses
only its own level, keeps every nested call as unparsed text, makes its calls group by group in
sequence order, and posts its node definitions plus the kept text to the next instance, which does the
same.  The linter reads the same text recursively and draws the calls as a graph.

The project models that pipeline from characters to calls, and proves that the pieces fit: cutting a
request up one level per hop, gluing it back together at every receiver and running it in any order
that the scheduler allows makes exactly the calls that the whole nested request denotes.

`dafny verify dfyconfig.toml` checks everything.

## How the files fit together

- Text: `Lexical`, `Scanner` (the token language as a function of the text), `FlexLexer` (the scanner
  object with its start condition and bracket counter), `Blobs`, `Comments`, `ScanSteps`, `Gaps`.
- Grammar and actions: `Grammar` (syntax trees, parser, completeness), `Actions` (the driver callbacks
  on values), `Drivers` (the driver object), `Parsers` (the parser object, driving scanner and driver).
- Round trips: `AttributeText`, `Layout` (documents with white space and comments between any two
  lexemes), `RoundTrip`, `NodeGlob` (definitions that travel as text).
- Many instances: `Hops` (the tree of requests that the instances discover), `Fleet` (runs of the whole
  fleet).
- The gate: `Numbers` (`std::stoi`, `std::stol`), `Sanity` (the checks in front of execution), `Accepted`
  (what checks and addresses mean for a text that was accepted).
- One instance: `Heap` (the priority queue), `Scheduler` (all interleavings of the group loop and the
  tasks), `TaskManager` (what is asked of the task manager), `AppDrivers` (the `Execute` loops), `Service`
  (the request handler and the unresponsive window).
- Linter: `Labels`, `LintWalk`, `LintGraph`, `LintDrivers`.
- `AsWritten`: what the numbers and words of a document come to, said of the document itself.
- `Example`: one request from its text to its calls, spelled out.  `LintExample`: what the linter writes for it.
- `Witnesses`: small inputs, as text, for which the code does not do what one might expect.
- `Sequences`, `Sums`, `Ordered`: facts about sequences, sums of multisets and map iteration order.

There are two kinds of well-formed documents.  `Layout.GoodDocument` is lexical: names are
identifiers and not `source`, destinations are not `repeat` or `sequence`, strings have no inner double
quote, numbers fit an int.  `Layout.SoundDocument` adds what the scanner needs to hand everything on as it
was written: strings have no NUL, and the text of each call balances its brackets and has no NUL.  The
scanner counts brackets in strings and comments too, and passes strings and blobs on as C strings.
`RoundTrip.PrintThenParse` shows that this is exactly what it takes for a document to come back from one
instance.  `RoundTrip.NestedQuietIsVerbatim` gives a condition on each string and comment that is enough.

The theorems about the fleet hold for every valid run and those about the linter for every valid walk.
Both exist: `Fleet.RunExists` builds a run for every input, and `LintDrivers.Lint` ends with a walk exactly
on the inputs whose nested requests are all in the language.

## Where the code and its documentation differ

The model follows the code.

- A call without `sequence` has number 0 (src/fidi_parser.yy:141), although docs/index.h:423-424 and
  docs/fidi_request.5:169 say 1.  It therefore runs before the calls numbered 1.
- Duplicate attributes and duplicate node attributes keep the first value; the last `repeat`, the last
  `sequence` and the last request of an input win.
- Only `hostname` loses its quotes.  The quote check in `SanityChecks` can therefore never fire, and a URL
  is used with the quotes of the string it was written as (`Accepted.UrlKeepsQuotes`).
- A path that begins with a digit runs into the port, and a hostname with a colon or slash is not read as it was
  written (`Accepted.UrlIsRead`).
- Brackets in strings and comments count while a nested request is cut out
  (`Witnesses.BracketInStringBreaks`).
- Strings and blobs are built from `yytext` as C strings, so a NUL cuts them off: a receiver may refuse what
  was well-formed (`Witnesses.NulInCommentIsRefused`), a node definition may be passed on as text that no
  instance accepts (`Witnesses.CutStringBreaksTheGlob`), or as text with a call of its own in it
  (`Witnesses.GlobCanCarryCalls`).
- `unresponsive_for_sec` and `unresponsive_for_usec` are converted by `Execute` without having been
  checked; a word there makes the conversion throw (`Witnesses.UncheckedKeyAborts`).
- A node that is itself called `Source` and makes calls gets a second preamble and closing brace in the
  linter's output (`LintGraph.OneGraph`, `Witnesses.SourceIsFramedTwice`).
- The linter draws calls of requests that no instance would execute, because they are refused at the gate
  (`Witnesses.LintDrawsMoreThanIsCalled`).

## Model

| member | source | states |
|---|---|---|
| Lexical.DecimalInjective | src/fidi_lint_driver.cc:140 | `std::to_string` is injective on the numbers it prints |
| Lexical.DecimalValue | src/fidi_parser.yy:134 | a number printed by the grammar action reads back as the same number |
| Lexical.FirstDigitCounts | src/fidi_scanner.ll:123 | a numeral is read in base ten, first digit first, '0' to '9' |
| Numbers.DecimalIsInt | src/fidi_driver.cc:122 | a printed number up to the int maximum converts to itself with nothing left over, and a larger one is out of range |
| Numbers.DecimalIsLong | src/fidi_app_driver.cc:145-159 | the same for long |
| Ordered.LexLeMeans | src/fidi_driver.h:277 | map keys are visited in dictionary order: a prefix first, else the first difference decides |
| FlexLexer.FidiFlexLexer.constructor | src/fidi_flex_lexer.h:98-107 | a new scanner is in INITIAL with bracket count 0 and has the tokens of the whole text to deliver |
| FlexLexer.FidiFlexLexer.Yylex | src/fidi_scanner.ll:91-134 | each call returns the next token of the token language and keeps the invariant that EDGEATTR holds exactly when the bracket count is positive; the end of input is reported only when no token is left |
| FlexLexer.FidiFlexLexer.SkipBlanks | src/fidi_scanner.ll:97 | taking a run of blanks in one match changes no token still to come |
| FlexLexer.FidiFlexLexer.NestedRequest | src/fidi_scanner.ll:111-119 | from the opening bracket the scanner returns the blob that the token language has there, or nothing more if the bracket never closes |
| FlexLexer.FidiFlexLexer.EdgeAttribute | src/fidi_scanner.ll:113-119 | the text assembled in pieces is exactly the text up to the position where the depth first reaches zero, and is returned up to its first NUL |
| FlexLexer.FidiFlexLexer.PlainText | src/fidi_scanner.ll:113 | a run without brackets is taken in one match and moves no closing position |
| Blobs.BlobExtent | src/fidi_scanner.ll:111-119 | a blob has length n if and only if n characters bring the depth to zero and every shorter prefix keeps it positive |
| Blobs.DepthCounts | src/fidi_scanner.ll:111-115 | the depth is the number of opening brackets less the number of closing ones |
| Blobs.IntactBlob | src/fidi_scanner.ll:111-119 | a text between brackets is cut out whole and free of NUL if and only if it balances its own brackets without a NUL in it |
| Comments.CommentExact | src/fidi_scanner.ll:84 | the COMMENT pattern accepts exactly the texts that open with the mark and whose first closing mark from index 2 on ends the text |
| Comments.LongestIsShortest | src/fidi_scanner.ll:84 | at most one prefix of a text matches COMMENT, so longest match takes the shortest comment |
| ScanSteps.ScanWord | src/fidi_scanner.ll:94-110 | an identifier in front of anything that does not extend it is one token, a keyword where the start condition says so |
| ScanSteps.ScanNumeral | src/fidi_scanner.ll:123-124 | a numeral in front of anything but a digit is one NUMBER with its value |
| ScanSteps.ScanQuoted | src/fidi_scanner.ll:125-126 | a quoted text is one STRING, quotes included, up to its first NUL |
| ScanSteps.ScanComment | src/fidi_scanner.ll:98 | a comment leaves no token and does not disturb what follows |
| ScanSteps.ScanBlob | src/fidi_scanner.ll:111-119 | an intact text in brackets after a call header is one BLOB with its closing bracket, and scanning goes on in INITIAL |
| ScanSteps.ScanPrefix | src/fidi_driver.cc:98 | the text that `HandleEdge` puts in front of a blob scans to one opening bracket |
| Grammar.ParseComplete | src/fidi_parser.yy:121-147 | parsing inverts writing a syntax tree as tokens, whatever follows |
| Grammar.ParseExact | src/fidi_parser.yy:121-147 | the parser accepts exactly the token sequences of the error-free grammar, and its tree is the only derivation |
| Grammar.InvalidIsRefused | src/fidi_parser.yy:121-147 | a character that is passed up as it is, or the word source, anywhere in the tokens makes the input rejected |
| AsWritten.IllegalIsRefused | src/fidi_scanner.ll:127-134 | behind any rules in any layout, a character with no place in the language makes an instance refuse the text, whatever follows |
| AsWritten.SourceIsRefused | src/fidi_scanner.ll:94 | so does the word source in the place of a name |
| AsWritten.OpenCommentIsRefused | src/fidi_scanner.ll:99-106 | so does a comment that is not closed |
| AsWritten.OpenStringIsRefused | src/fidi_scanner.ll:125-134 | so does a string that is not closed |
| AsWritten.OthersAreSkipped | src/fidi_scanner.ll:96-124 | in a call header such a character is skipped |
| Actions.FirstDefinitionWins | src/fidi_parser.yy:129 | a map built by the list actions holds the first value given for each key |
| Actions.EdgePairLastWins | src/fidi_parser.yy:141-147 | repeat and sequence are the last ones written, and zero if none is |
| AsWritten.SubcallIsWritten | src/fidi_parser.yy:140-147 | destination, repetition and sequence number of a call are the last ones written, zero if none is |
| Actions.NodesAreMerged | src/fidi_driver.cc:63-83 | after any input, a node's attributes are the first-wins union of all its definitions with the quotes gone from the hostname |
| Actions.NodeValueIsFirst | src/fidi_driver.cc:66-83 | each attribute of a node is the first one written for it in any of its definitions, the hostname without its quotes |
| Actions.UnquotedString | src/fidi_driver.cc:77-81 | a string loses its two quotes and nothing else |
| Actions.HostnamesHaveNoQuotes | src/fidi_driver.cc:180-191 | no stored hostname holds a double quote, so that check never fires |
| Actions.DestinationsAreEdgeNames | src/fidi_driver.cc:92-100 | after any input the known destinations are exactly the names of the queued edges |
| Drivers.Driver.HandleTop | src/fidi_driver.cc:58-61 | the request attributes are replaced and nothing else changes |
| Drivers.Driver.HandleNode | src/fidi_driver.cc:63-90 | the new state is that of merging the definition, unquoting the hostname and appending the definition as it was given to the node text |
| Drivers.Driver.MergeNode | src/fidi_driver.cc:66-83 | an existing attribute wins over a new one, and only this node changes |
| Drivers.EraseQuotes | src/fidi_driver.cc:77-81 | the erase loop ends and leaves the text without its double quotes |
| Drivers.PrintNode | src/fidi_driver.cc:84-89 | the printed definition lists the attributes in key order |
| Drivers.Driver.HandleEdge | src/fidi_driver.cc:92-100 | the edge is queued with its bracket put back and its name becomes a destination |
| Drivers.Driver.SanityChecks | src/fidi_driver.cc:114-248 | the warnings are those specified, in order, or the second conversion of timeout_usec throws |
| Heap.TopIsFirst | src/fidi_driver.h:236-252 | the top of the queue has the smallest sequence number |
| Heap.Push | src/fidi_driver.h:283-285 | pushing keeps the heap order and adds exactly the new edge |
| Heap.Pop | src/fidi_driver.h:283-285 | popping keeps the heap order and removes exactly the top |
| Parsers.Parser.Parse | src/fidi_parser.yy:121-147 | the parser object accepts exactly the language and leaves the driver as the semantic actions of the unique tree, in order, leave it |
| Parsers.Parser.AttrList | src/fidi_parser.yy:128-131 | a list that is closed yields the first-wins map of its attributes and everything behind the bracket is still pending |
| Parsers.Parser.EdgeAttributes | src/fidi_parser.yy:141-147 | the pair is that of all options read, and the blob follows them |
| Parsers.Parser.EdgeRule | src/fidi_parser.yy:140 | a call is handed to the driver exactly when it is complete |
| Parsers.Parser.InputList | src/fidi_parser.yy:136-139 | attributes are collected and calls handed on, in any mixture |
| NodeGlob.AcceptedRulesAreGood | src/fidi_scanner.ll:91-134 | every accepted input consists of identifiers, numbers and strings that begin with a quote and have no NUL; if the input has no NUL, all strings are closed |
| NodeGlob.ScanGlob | src/fidi_driver.cc:84-89 | if no printed string was cut off, the node text scans, in front of anything, to the definitions it was printed from |
| NodeGlob.GlobReadsBack | src/fidi_driver.cc:84-89 | for every accepted input, the node text parses to the definitions it was printed from if and only if no string in them was cut off |
| NodeGlob.NulFreeIsClosed | src/fidi_scanner.ll:125-126 | an accepted input without NUL has no string cut off |
| NodeGlob.GlobSurvives | src/fidi_app_driver.cc:188-190 | if no printed string was cut off, parsing the node text in front of any text is parsing that text in a driver that already has the same nodes and the same node text |
| NodeGlob.GlobIsFixpoint | src/fidi_driver.cc:63-90 | under the same condition the node text alone rebuilds the same nodes and the same node text |
| RoundTrip.PrintThenParse | src/fidi_parser.yy:121-147 | a document in any layout prints, scans and parses back to itself, blobs verbatim, if and only if its strings have no NUL and the text of its calls balances its brackets and has no NUL |
| RoundTrip.BlobThenParse | src/fidi_driver.cc:98 | a blob with its bracket put back parses to the nested request if and only if the same holds of that request |
| RoundTrip.NestedQuietIsVerbatim | src/fidi_scanner.ll:113-119 | it is enough that each string and comment inside a call balances its own brackets and has no NUL |
| Witnesses.BracketInStringBreaks | src/fidi_scanner.ll:113-119 | a concrete well-formed document with a bracket in a nested string does not come back |
| Witnesses.NulInCommentIsRefused | src/fidi_scanner.ll:115-119 | a concrete well-formed document with a NUL in a nested comment: the receiver refuses the request |
| Witnesses.CutStringBreaksTheGlob | src/fidi_scanner.ll:125-126 | a concrete accepted definition with a NUL in a string: what it is passed on as is not in the language |
| Hops.PayloadIsNulFree | src/fidi_app_driver.cc:188-190 | whatever an instance received, what it posts has no NUL |
| Hops.PayloadWeight | src/fidi_lint_driver.cc:141 | if no printed string was cut off, the node text in front of a payload carries no calls, and what the payload's calls carry is less than what the input's calls carry |
| Hops.ChildBlobsAreShorter | src/fidi_lint_driver.cc:75-92 | under the same condition a call found in a payload has a strictly shorter blob than the call the payload was made for, put-back bracket included |
| Hops.PayloadIsSmaller | src/fidi_lint_driver.cc:75-92 | on every input the recursion over nested requests gets smaller: the payload has no NUL, and without NUL its calls carry less |
| Witnesses.GlobCanCarryCalls | src/fidi_lint_driver.cc:141 | a concrete accepted input, with strings cut off, whose payload carries a call that is longer than the one it was made for |
| Hops.OneHop | src/fidi_app_driver.cc:188-190 | a receiver knows the sender's nodes and sees the call's body as its own request |
| Hops.HopsRebuildTheTree | src/fidi_app_driver.cc:168-197 | for every sound document in every layout, the requests discovered hop by hop form exactly the tree written down |
| Sanity.SilentIffSound | src/fidi_driver.cc:114-248 | the checks are silent if and only if every node has an address, numbers are whole ints in range and all destinations are defined |
| Sanity.ReportsAreDue | src/fidi_driver.cc:114-248 | what the checks report is exactly what is due, each warning with the node or field it is about |
| Accepted.SilentOnAccepted | src/fidi_driver.cc:164-247 | in terms of what was written: the checks are silent if and only if every node has an address and an int for its port, all destinations are defined, response is a numeral from 1 to 599, delays and whole seconds fit an int and microseconds are below a million |
| Accepted.ResponseIsStatus | src/fidi_driver.cc:203-212 | if the checks are silent and the response is the numeral of n, then 0 < n < 600 |
| Accepted.ThrowsOnAccepted | src/fidi_driver.cc:233-236 | the checks throw if and only if microseconds are given that are no numeral within a long |
| Accepted.NumberWarnings | src/fidi_driver.cc:118-162 | a written value is reported as out of range if it is a numeral beyond an int, as no integer if it is no numeral, and never for trailing garbage |
| Sanity.GateIsSound | src/fidi_app_driver.cc:134-180 | after any accepted input, silence means every URL lookup succeeds, and no conversion throws if and only if the two unchecked keys are absent or numeric |
| Witnesses.UncheckedKeyAborts | src/fidi_app_driver.cc:153-159 | a concrete request, as text, that parses, passes the checks and still makes a conversion throw |
| Accepted.UrlIsRead | src/fidi_app_driver.cc:74-100 | with a url the address is that text; without one, a reader of the URL finds the hostname, the port, and the path or `/fidi`, if and only if the hostname has no colon or slash and the path does not begin with a digit |
| Accepted.UrlKeepsQuotes | src/fidi_app_driver.cc:74-100 | on a request that passed the gate the URL of a node has a double quote in it if and only if its url, or else its path, was written as a string |
| Fleet.EveryRunMakesTheCalls | src/fidi_app_driver.cc:168-197 | for every input and every way the instances break ties, the calls made are those of the tree the input stands for |
| Fleet.FleetMakesTheDenotedCalls | docs/index.h:180-191 | in every run on a sound document the fleet makes exactly the multiset of calls that the whole document denotes |
| Fleet.RunExtends | src/fidi_app_driver.cc:168-197 | every drain of the first queue, in any tie order, extends to a complete run |
| Fleet.RunExists | src/fidi_app_driver.cc:168-197 | every input has a complete run |
| Fleet.CallsEnd | src/fidi_app_driver.cc:168-197 | in every run on every input, no chain of calls is longer than a limit computed from the text |
| Fleet.CallsAreCounted | src/fidi_app_driver.cc:182-191 | a call is made as often as the product of the repetitions along its path, summed over the ways to reach it |
| Fleet.FleetCallCounts | src/fidi_app_driver.cc:182-191 | the same count for every run on a sound document |
| AsWritten.RepeatsAreCalls | src/fidi_app_driver.cc:182-191 | a document whose one call is written with `repeat = n` denotes n calls to its destination, one if n is zero or missing |
| AsWritten.RepeatsAreMade | src/fidi_app_driver.cc:182-191 | and every run of the fleet makes as many |
| Scheduler.RunKeepsInv | src/fidi_app_driver.cc:169-197 | whatever tasks finish when, the loops keep their invariant: drained edges in order, outstanding tasks of the current group only |
| Scheduler.BarrierSafety | src/fidi_app_driver.cc:169-197 | in every interleaving, when a task starts, all tasks started for other sequence numbers have finished |
| Scheduler.JoinsSeparateGroups | src/fidi_app_driver.cc:175-196 | two calls have a join between them exactly when their sequence numbers differ |
| Scheduler.Conservation | src/fidi_app_driver.cc:169-197 | a complete run starts and finishes copies 1 to repeat of each queued edge, or one copy if repeat is below one, each once and in sequence order, and leaves the queue empty |
| Scheduler.EveryRunEnds | src/fidi_app_driver.cc:169-197 | no run is longer than a bound computed from the queue, and a state without a move is one that has left both loops |
| Scheduler.OutstandingIsBounded | src/fidi_app_driver.cc:129-130 | outstanding tasks never exceed the current group's sum of max(1, repeat), so groups of at most 1024 never exceed the pool |
| AppDrivers.AppDriver.ParseHelper | src/fidi_app_driver.cc:49-72 | the fields after parsing a whole text are those of the specification, or an error was counted |
| AppDrivers.AppDriver.SetWindow | src/fidi_app_driver.cc:153-167 | the limit moves only if one of the two durations is positive, and a conversion throws exactly if one of them is not numeric; how far it moves is `Service.WindowIsSet` |
| AppDrivers.AppDriver.MakeCopies | src/fidi_app_driver.cc:180-191 | each edge starts its copies with its own name, URL, time limits, node text and blob; how many is `TaskManager.ExecutedIsScheduled` |
| AppDrivers.AppDriver.MakeGroup | src/fidi_app_driver.cc:175-194 | the inner loop takes every edge of one sequence number and stops in front of a larger one |
| AppDrivers.AppDriver.MakeCalls | src/fidi_app_driver.cc:168-197 | the loops empty the queue and call the task manager as the schedule of some drain prescribes |
| AppDrivers.AppDriver.Execute | src/fidi_app_driver.cc:121-249 | on a request that passed the gate: it throws exactly if an unchecked key is not numeric, else its calls keep to the schedule and it sets health and window as specified |
| TaskManager.ExecutedIsScheduled | src/fidi_app_driver.cc:168-197 | the calls of `Execute` start, in sequence order, copies 1 to repeat (or one) of every queued edge, each with its own name, address, payload and time limits; two of them have a join between them if and only if their sequence numbers differ; and the last call is a join |
| TaskManager.ExecuteDrivesTheRun | src/fidi_app_driver.cc:168-197 | the payloads and addresses that `Execute` posts, in order, are those of an instance in a fleet run |
| Example.TextIsExecuted | src/fidi_request_handler.cc:81-105 | a concrete text, with every kind of blank, a comment, a node and two calls, passes the gate with the spelled-out nodes, edges and node text |
| Example.CallsAre | src/fidi_app_driver.cc:168-197 | whatever the tie order, its calls are, in full: the unnumbered call, a join, the call with repeat 2 twice, a join |
| Service.RequestHandler.HandleRequest | src/fidi_request_handler.cc:30-118 | a request up to the limit is dropped and changes nothing; otherwise it is answered, and executed only if parsing and checks are clean |
| Service.RequestHandler.HandleBody | src/fidi_request_handler.cc:73-111 | the outcome is that of the gate, and health changes only if the request was executed |
| Service.GateOpensForRuns | src/fidi_request_handler.cc:81-105 | the handler executes exactly the requests that the fleet's runs assume to be executed |
| Service.DurationsAreNatural | src/fidi_app_driver.cc:153-160 | no accepted request has a negative duration |
| Service.WindowIsGiven | src/fidi_app_driver.cc:153-159 | an executed request has two natural numbers for the window, each printed as it was written, or zero if not given |
| Service.WindowIsSet | src/fidi_app_driver.cc:160-167 | an executed request with n seconds and m microseconds, one of them positive, moves the limit to n * 1000000 + m beyond the clock, and otherwise leaves it |
| Service.NextIsDropped | src/fidi_request_handler.cc:40 | a next request that arrives no later than that changes nothing, and one that passes its gate is executed exactly if it arrives later |
| Service.HealthIsSet | src/fidi_app_driver.cc:233-241 | an executed request leaves the instance healthy exactly if it says true, and leaves health alone if it says nothing |
| AsWritten.WindowIsWritten | src/fidi_app_driver.cc:153-167 | the same window for a document, from the first values written in its request |
| AsWritten.HealthIsWritten | src/fidi_app_driver.cc:233-241 | the same for health: the word true, and nothing else, makes healthy |
| Service.WindowNeverShrinks | src/fidi_app_driver.cc:160-167 | over every sequence of requests on a monotone clock the limit never moves back |
| Service.RequestsInTheWindowAreDropped | src/fidi_request_handler.cc:40 | once a limit was in force, a later request that arrives up to it changes no state, however many requests lie between |
| Labels.LabelInjective | src/fidi_lint_driver.cc:139-140 | two labels are equal if and only if their paths of sequence numbers are |
| Labels.LabelParts | src/fidi_lint_driver.cc:139-140 | a label split at its dots is 1 and the decimal sequence numbers on the path |
| LintWalk.RequestIsListed | src/fidi_lint_driver.cc:103-128 | for a request the linter writes at the top level the preamble and every node once in name order, then its edge, and right behind it every attribute once in key order |
| LintWalk.LintDrawsTheTree | src/fidi_lint_driver.cc:121-149 | for every input and every order of ties the edges drawn are those of the tree of requests, each call once |
| LintWalk.WarningsAddUp | src/fidi_lint_driver.cc:97-146 | the root's warnings are those of every nested request, none lost and none twice |
| LintGraph.OneGraph | src/fidi_lint_driver.cc:103-150 | one preamble and one closing brace stand around all edges if and only if no node called Source makes calls |
| Witnesses.SourceIsFramedTwice | src/fidi_lint_driver.cc:103-150 | a concrete request, walked to the end, whose graph has a second frame inside |
| LintGraph.EdgesInTreeOrder | src/fidi_lint_driver.cc:121-149 | the whole output in its order, on every walk: the edges are those of the tree of requests with the calls of each sorted by sequence number, each request's edge directly in front of the edges of its calls |
| LintGraph.EdgesAreCollapsedCalls | src/fidi_lint_driver.cc:141 | the edges of a tree are, in order, its calls with every repetition collapsed to one |
| LintGraph.LintAgreesWithFleet | src/fidi_lint_driver.cc:121-149 | a call is made if and only if it is one of the collapsed tree, and the linter draws exactly these if and only if every request that makes calls passes its gate |
| Witnesses.LintDrawsMoreThanIsCalled | src/fidi_request_handler.cc:93-105 | a concrete request for which the linter draws a call that the fleet never makes |
| LintGraph.LintDrawsTheDocument | src/fidi_lint_driver.cc:94-158 | on sound documents edges and warnings are those of the whole document |
| LintDrivers.LintDriver.Execute | src/fidi_lint_driver.cc:94-158 | it writes the specified lines for some order of ties and collects the specified warnings; it gets to the end if and only if every nested request is in the language and no check throws |
| LintDrivers.LintDriver.WalkTop | src/fidi_lint_driver.cc:136-147 | one call extends the label, is written out with everything nested in it, adds its warnings and is popped |
| LintDrivers.HandleBlob | src/fidi_lint_driver.cc:75-92 | a nested request is read by a driver of its own, which writes its lines to the same stream and returns its warnings |
| LintDrivers.Lint | src/fidi_lint_driver.cc:94-158 | the linter on a whole input, from the names and the label it starts with |
| LintExample.WalkIs | src/fidi_lint_driver.cc:136-147 | the text of `Example` has exactly one walk |
| LintExample.LinesAre | src/fidi_lint_driver.cc:94-158 | its lines in full: preamble, node, each edge with its label and attributes, the warning of a nested request behind that request, closing brace, all warnings |

## Left out

- Poco's HTTP server and client, URI handling, logging, server options and HTML text; a task only starts and finishes.
- AppCaller: the network call itself and its real time limits; a task is what it is constructed with.
- Scheduler.Conservation: a task that fails counts as finished, and the thread pool's own error when it is exhausted is not modelled.
- Fleet.FleetMakesTheDenotedCalls: every call is delivered; a receiver that drops requests because it is unresponsive is modelled in `Service` alone.
- Parsers.Parser.Parse: Bison's error productions; a rejected input only gets a positive error count, without recovery, locations, message text or the state of the driver after it.
- LintDrivers.LintDriver.Execute: after a nested request that does not parse the program goes on with what recovery left in the driver; the model stops there and says so in its result.
- LintDrivers.HandleBlob: as for `Execute`, a rejected nested request ends the walk.
- LintDrivers.Lint: says of a rejected input, and of one with a rejected nested request, only that the walk did not get to the end; the lines written so far are not specified.
- Hops.HopsRebuildTheTree: one direction; its condition is not necessary, as a NUL in a value that loses to an earlier one of the same key does no harm (`Witnesses.ShadowedNulIsHarmless`).
- Hops.ChildBlobsAreShorter: one direction; a glob with a string cut off may still happen to carry no call.
- NodeGlob.GlobSurvives: one direction; a glob with strings cut off may read as other definitions that are overruled by earlier ones.  The exact condition is that of `NodeGlob.GlobReadsBack`.
- FlexLexer.FidiFlexLexer.Yylex: a character that no rule of EDGEDEF matches is dropped, without flex's echo to standard output; locations are not kept.
- Scanner: characters that INITIAL has no rule for, and a comment that never closes, become a token the grammar does not know, as in builds where the scanner throws `syntax_error` (Bison 3.2 and later).
- Numbers: `std::atoi` on a numeral beyond an int is not defined; NUMBER is a natural number, and well-formed documents keep to an int.
- Drivers.Driver.SanityChecks: warnings are values and not message text; running out of memory is not modelled.
- LintWalk: a node line keeps its attribute values; the replacement of double quotes in the drawn label is not modelled.
- AppDrivers.AppDriver.Execute: response status, delays and log attributes have no effect in the model beyond the conversions they need; the clock is a parameter.
- Service.RequestHandler: each request gets a new handler and driver, as the handler factory makes them; requests do not overlap.
- Heap.Pop: among edges of equal sequence number the order is that of this heap; nothing that is proved about schedules depends on it.
- Allocation failures, ownership of scanner and parser objects, debug options.
